# Node-group similarity and cluster-API node groups, in Dafny

This project models two parts of the Kubernetes cluster autoscaler.

1. **The OpenShift node-similarity predicate** (module `NodeGroupSet`,
   `compare_nodegroups.dfy`). It decides whether two nodes may belong to
   the same node-group set. It runs in four steps:
   - It groups the capacity, allocatable and free quantities of both nodes
     per resource, where free is allocatable minus requested.
   - It requires every capacity resource to appear on both nodes, with
     values at most 128Ki apart.
   - It hands the allocatable and free groups to a ratio comparison.
   - It requires every label outside a fixed ignore-set to appear on both
     nodes with equal values.

   The method follows the original Go loops: grouping loops over maps,
   then early-return check loops. Each loop is proved against a
   declarative predicate (`Similar`, `CapacitiesMatch`, `LabelsMatch`).
   Lemmas about those predicates give symmetry, rejection cases and the
   irrelevance of ignored labels.

2. **A cluster-API node group** (module `ClusterApi`,
   `clusterapi_nodegroup.dfy`). A node group is a machine set or machine
   deployment. Its state is:
   - size bounds, read from annotations;
   - a replica count held by a scale view;
   - the machines it owns. Each machine has an optional provider id, a
     failure flag (its status carries a failure message), a delete
     annotation, a deletion timestamp and the labels of its node, if that
     node exists. A machine is a member under its provider id; a failed
     machine without one is a member under a stand-in id; a machine still
     being provisioned (no provider id, not failed) is not a member yet.

   `NodeGroup` is a class with a `replicas` field and a `machines` array.
   Its operations are methods that update those fields in place.
   - `IncreaseSize` and `DecreaseTargetSize` validate, then write the
     replica count. They write nothing on error.
   - `DeleteNodes` checks that every node is a member and that the replica
     count stays positive. Then, one node at a time, it puts the delete
     annotation on the node's machine and lowers the replica count. It
     skips machines that already have a deletion timestamp.

   Each method is specified by pure functions of the old state
   (`IncreaseSizeCheck`, `DeleteNodesCheck`, `PendingCount`,
   `MarkedForDeletion`, …). Lemmas about those functions prove the
   scenarios the Go tests fix.
   - The cluster-API controllers set deletion timestamps
     asynchronously. That is modelled as an explicit step,
     `SetDeletionTimestamp`, taken by an actor outside the node group.
   - A write by another client to the scale view is modelled the same
     way, as `SetReplicas`.

`decimal.dfy` (module `Decimal`) renders integers the way `%d` does. The
error messages use it. Its parser proves that a rendering can be read
back, and `IntToStringPrefixUnique` that a rendering followed by a
non-digit splits off in one way only. From these,
`SizeIncreaseTooLargeMessageInjective` and
`DecreaseBelowExistingNodesMessageInjective` prove that the numbers in
those two messages are determined by the text.
`wrappers.dfy` holds the `Option` and `Result` types.

The node-group half is modelled from the behaviour
`clusterapi_nodegroup_test.go` fixes; `clusterapi_nodegroup.go` is not
modelled line by line. The tests fix the exact replica counts before
and after each call, the error texts, the annotations written, and the
member ids listed. Where the tests leave a detail open, the model makes
this choice:
- DeleteNodes checks ownership of all nodes first, then the bound
  `replicas - len(nodes) <= 0`, then marks.
- A node named twice in one request lowers the count twice, as a per-node
  loop would.
- A node id is looked up as the first machine carrying that id.
- The live node a template inherits labels from is the node behind the
  first member machine (in machine order) whose node still exists.
  Machines without a node, and machines still being provisioned, are
  passed over. In the tests every node carries the same labels.
- The well-known labels a template inherits from a live node are the
  operating-system, architecture and instance-type labels, in their
  stable and beta forms, and the stable topology zone and region labels.
- Error texts the tests do not fix (invalid bounds, replicas that would
  not be positive, the two sentinel errors) are only identified by their
  `Error` variant; their wording is a placeholder.

## Model

| member | source | states |
|---|---|---|
| NodeGroupSet.CompareResourceEqualWithTolerance | cluster-autoscaler/processors/nodegroupset/openshiftmachineapi_compare_nodegroups.go:84-90 | subtracting, negating a negative difference and comparing returns true exactly when y - tolerance <= x <= y + tolerance |
| NodeGroupSet.WithinToleranceSymmetric | cluster-autoscaler/processors/nodegroupset/openshiftmachineapi_compare_nodegroups.go:84-90 | the tolerance comparison gives the same answer with x and y swapped |
| NodeGroupSet.AppendValues | cluster-autoscaler/processors/nodegroupset/openshiftmachineapi_compare_nodegroups.go:27-32 | appending a map's entries (minus a skip-set) gives every key of either input, each with its old values followed by the new one |
| NodeGroupSet.FreeResources | cluster-autoscaler/processors/nodegroupset/openshiftmachineapi_compare_nodegroups.go:33-38 | one free entry per requested resource, and free + requested equals the allocatable quantity (0 when missing) |
| NodeGroupSet.FreeResourcesIsFreeOf | cluster-autoscaler/processors/nodegroupset/openshiftmachineapi_compare_nodegroups.go:33-38 | any map meeting FreeResources' contract is the declarative free map FreeOf |
| NodeGroupSet.FreeIsAllocatableMinusRequested | cluster-autoscaler/processors/nodegroupset/openshiftmachineapi_compare_nodegroups.go:33-38 | every requested resource has a free entry, equal to its allocatable quantity (0 when absent) minus the requested one |
| NodeGroupSet.GatherResources | cluster-autoscaler/processors/nodegroupset/openshiftmachineapi_compare_nodegroups.go:22-39 | the loop over both nodes yields, per resource, the capacity, allocatable and free values of node 1 then node 2 |
| NodeGroupSet.GatherLabels | cluster-autoscaler/processors/nodegroupset/openshiftmachineapi_compare_nodegroups.go:67-75 | the label loop yields, per non-ignored label, the value on node 1 then node 2; ignored labels never enter |
| NodeGroupSet.CapacityGroupsWithinTolerance | cluster-autoscaler/processors/nodegroupset/openshiftmachineapi_compare_nodegroups.go:47-51 | the early-return loop is true exactly when every group has two values within the tolerance |
| NodeGroupSet.LabelGroupsEqual | cluster-autoscaler/processors/nodegroupset/openshiftmachineapi_compare_nodegroups.go:76-80 | the early-return loop is true exactly when every group has two equal values |
| NodeGroupSet.CapacityGroupsMeaning | cluster-autoscaler/processors/nodegroupset/openshiftmachineapi_compare_nodegroups.go:47-51 | the grouped capacity check holds iff both nodes have the same capacity resources, each pair within 128Ki |
| NodeGroupSet.LabelGroupsMeaning | cluster-autoscaler/processors/nodegroupset/openshiftmachineapi_compare_nodegroups.go:67-80 | the grouped label check holds iff every non-ignored label is on both nodes with equal values |
| NodeGroupSet.IsOpenShiftNodeInfoSimilar | cluster-autoscaler/processors/nodegroupset/openshiftmachineapi_compare_nodegroups.go:21-82 | the verdict is true exactly when the capacity, allocatable, free and label checks all pass (each failing check returns false) |
| NodeGroupSet.CapacitiesMatchSymmetric | cluster-autoscaler/processors/nodegroupset/openshiftmachineapi_compare_nodegroups.go:47-51 | the capacity check gives the same verdict with the nodes swapped |
| NodeGroupSet.LabelsMatchSymmetric | cluster-autoscaler/processors/nodegroupset/openshiftmachineapi_compare_nodegroups.go:67-80 | the label check gives the same verdict with the nodes swapped |
| NodeGroupSet.LabelsMatchIffEqualOutsideIgnored | cluster-autoscaler/processors/nodegroupset/openshiftmachineapi_compare_nodegroups.go:60-80 | the label check holds iff the two label maps are equal once the ignored labels are removed |
| NodeGroupSet.OneSidedCapacityDissimilar | cluster-autoscaler/processors/nodegroupset/openshiftmachineapi_compare_nodegroups.go:47-51 | a capacity resource on only one node makes the nodes dissimilar |
| NodeGroupSet.CapacityBeyondToleranceDissimilar | cluster-autoscaler/processors/nodegroupset/openshiftmachineapi_compare_nodegroups.go:11 | two capacity values more than 131072 apart make the nodes dissimilar |
| NodeGroupSet.MemoryJitterExamples | cluster-autoscaler/processors/nodegroupset/openshiftmachineapi_compare_nodegroups.go:41-51 | a 64Ki memory difference passes the capacity check, a 1Mi difference does not |
| NodeGroupSet.LabelMismatchDissimilar | cluster-autoscaler/processors/nodegroupset/openshiftmachineapi_compare_nodegroups.go:76-80 | a non-ignored label missing on one node or with different values makes the nodes dissimilar |
| NodeGroupSet.IgnoredLabelsIrrelevant | cluster-autoscaler/processors/nodegroupset/openshiftmachineapi_compare_nodegroups.go:60-65 | changing only hostname, zone, region and fluentd-ds-ready labels on either node leaves the verdict unchanged |
| NodeGroupSet.LabelsMatchTransfer | cluster-autoscaler/processors/nodegroupset/openshiftmachineapi_compare_nodegroups.go:70-72 | label maps that agree outside the ignore-set give the same label verdict |
| Decimal.NatToString | cluster-autoscaler/cloudprovider/clusterapi/clusterapi_nodegroup_test.go:229 | a non-empty string of digits without a leading zero |
| Decimal.ParseNatToString | cluster-autoscaler/cloudprovider/clusterapi/clusterapi_nodegroup_test.go:229 | reading back the rendering of n gives n |
| Decimal.ParseIntToString | cluster-autoscaler/cloudprovider/clusterapi/clusterapi_nodegroup_test.go:535 | reading back the rendering of any int, negative ones included, gives it back |
| Decimal.IntToString | cluster-autoscaler/cloudprovider/clusterapi/clusterapi_nodegroup_test.go:535 | a non-empty rendering that starts with '-' exactly when the value is negative |
| Decimal.IntToStringShape | cluster-autoscaler/cloudprovider/clusterapi/clusterapi_nodegroup_test.go:535 | a rendering is a digit or minus sign followed by digits only |
| Decimal.IntToStringPrefixUnique | cluster-autoscaler/cloudprovider/clusterapi/clusterapi_nodegroup_test.go:535 | a rendering followed by text starting with a non-digit determines both the value and the text |
| ClusterApi.ErrorMessage | cluster-autoscaler/cloudprovider/clusterapi/clusterapi_nodegroup_test.go:724-743 | the not-in-group message contains "doesn't belong to node group" |
| ClusterApi.SizeIncreaseTooLargeMessageInjective | cluster-autoscaler/cloudprovider/clusterapi/clusterapi_nodegroup_test.go:229 | the too-large message determines the desired size and the maximum |
| ClusterApi.DecreaseBelowExistingNodesMessageInjective | cluster-autoscaler/cloudprovider/clusterapi/clusterapi_nodegroup_test.go:535 | the existing-nodes message determines the target size, the delta and the node count |
| ClusterApi.MemberId | cluster-autoscaler/cloudprovider/clusterapi/clusterapi_nodegroup_test.go:963-1000 | a machine has a member id iff it has a provider id or has failed; with a provider id, the id is the provider id |
| ClusterApi.ListedMember | cluster-autoscaler/cloudprovider/clusterapi/clusterapi_nodegroup_test.go:983-990 | every machine with a member id is listed by MemberIds |
| ClusterApi.MemberIdsAreMembers | cluster-autoscaler/cloudprovider/clusterapi/clusterapi_nodegroup_test.go:745-756 | every listed id is found by IndexOf, so the list holds members only |
| ClusterApi.UnprovisionedNotListed | cluster-autoscaler/cloudprovider/clusterapi/clusterapi_nodegroup_test.go:526-536 | a machine still being provisioned is not listed, so there are fewer member ids than machines |
| ClusterApi.ProvisioningMachineNotCounted | cluster-autoscaler/cloudprovider/clusterapi/clusterapi_nodegroup_test.go:526-536 | with one machine still being provisioned, a target equal to the machine count may drop by one |
| ClusterApi.FirstForeignNode | cluster-autoscaler/cloudprovider/clusterapi/clusterapi_nodegroup_test.go:724-743 | a reported node is in the request and is not a member |
| ClusterApi.DeleteNodesCheck | cluster-autoscaler/cloudprovider/clusterapi/clusterapi_nodegroup_test.go:724-756 | accepted iff no requested node is foreign and len(nodes) < replicas; a refusal is not-in-group for a requested non-member of this group, or replicas-would-not-be-positive with the request's length |
| ClusterApi.FirstLiveNode | cluster-autoscaler/cloudprovider/clusterapi/clusterapi_nodegroup_test.go:1160-1166 | none exactly when no member machine in the list has a node; otherwise the labels of the first member machine whose node exists, with none before it |
| ClusterApi.FirstLiveNodeAt | cluster-autoscaler/cloudprovider/clusterapi/clusterapi_nodegroup_test.go:1160-1166 | a member whose node exists, with no such member before it, is the one whose labels are inherited |
| ClusterApi.LaterLiveNodeInherited | cluster-autoscaler/cloudprovider/clusterapi/clusterapi_nodegroup_test.go:1124-1142 | when the first machine has no node and the second is a member with one, the template's os label is the second node's |
| ClusterApi.NodeGroup.LiveNodeLabels | cluster-autoscaler/cloudprovider/clusterapi/clusterapi_nodegroup_test.go:1160-1166 | none exactly when no member machine has a node; otherwise the labels of the node behind the first member machine that has one |
| ClusterApi.ParseBounds | cluster-autoscaler/cloudprovider/clusterapi/clusterapi_nodegroup_test.go:53-107 | bounds are accepted iff 0 <= min <= max, with a missing annotation counting as 0; an accepted pair is the annotated one |
| ClusterApi.BoundsExamples | cluster-autoscaler/cloudprovider/clusterapi/clusterapi_nodegroup_test.go:53-107 | (-1,0), (0,-1) and (1,0) are refused; no annotations give 0..0, max 1 gives 0..1, 1 and 10 give 1..10 |
| ClusterApi.NewNodeGroup | cluster-autoscaler/cloudprovider/clusterapi/clusterapi_nodegroup_test.go:109-137 | construction fails with the bounds error, or yields a valid group with the parsed bounds, the given replicas, the machines, and the given template labels and cpu, memory and GPU annotations |
| ClusterApi.NodeGroup.constructor | cluster-autoscaler/cloudprovider/clusterapi/clusterapi_nodegroup_test.go:149-166 | the new group reports the given id, bounds, replica count and machines |
| ClusterApi.NodeGroup.Create | cluster-autoscaler/cloudprovider/clusterapi/clusterapi_nodegroup_test.go:180-182 | always the already-exists error |
| ClusterApi.NodeGroup.Delete | cluster-autoscaler/cloudprovider/clusterapi/clusterapi_nodegroup_test.go:184-186 | always the not-implemented error |
| ClusterApi.NodeGroup.Autoprovisioned | cluster-autoscaler/cloudprovider/clusterapi/clusterapi_nodegroup_test.go:188-190 | always false |
| ClusterApi.IncreaseSizeCheck | cluster-autoscaler/cloudprovider/clusterapi/clusterapi_nodegroup_test.go:220-230 | accepted iff delta > 0 and size + delta <= max; otherwise the not-positive error, or too-large with the desired size and max |
| ClusterApi.NodeGroup.IncreaseSize | cluster-autoscaler/cloudprovider/clusterapi/clusterapi_nodegroup_test.go:257-362 | returns IncreaseSizeCheck of the old count; writes old + delta on success and nothing on error |
| ClusterApi.IncreaseSizeExamples | cluster-autoscaler/cloudprovider/clusterapi/clusterapi_nodegroup_test.go:220-378 | at size 3, max 10: delta -1 gives "size increase must be positive", 8 gives "size increase too large - desired:11 max:10", 1 is accepted |
| ClusterApi.DecreaseTargetSizeCheck | cluster-autoscaler/cloudprovider/clusterapi/clusterapi_nodegroup_test.go:526-536 | accepted iff delta < 0 and size + delta >= the number of existing nodes; otherwise the matching error with its numbers |
| ClusterApi.NodeGroup.DecreaseTargetSize | cluster-autoscaler/cloudprovider/clusterapi/clusterapi_nodegroup_test.go:462-586 | returns DecreaseTargetSizeCheck of the old count and the member count (machines still being provisioned are not existing nodes); writes old + delta on success and nothing on error |
| ClusterApi.DecreaseTargetSizeExamples | cluster-autoscaler/cloudprovider/clusterapi/clusterapi_nodegroup_test.go:482-536 | with 3 nodes: size 3 refuses +1 and -1 with the exact messages; size 4 accepts -1 (so 3 is stored) |
| ClusterApi.ChecksKeepReplicasInRange | cluster-autoscaler/cloudprovider/clusterapi/clusterapi_nodegroup_test.go:422-474 | an accepted resize or delete keeps the count within bounds: increase stays <= max, decrease stays >= existing nodes, delete stays positive |
| ClusterApi.NodeGroup.Nodes | cluster-autoscaler/cloudprovider/clusterapi/clusterapi_nodegroup_test.go:629-646 | the listed ids are MemberIds of the machines: provisioned and failed machines in machine order, machines being provisioned left out |
| ClusterApi.MemberIds | cluster-autoscaler/cloudprovider/clusterapi/clusterapi_nodegroup_test.go:983-990 | at most one id per machine; when every machine has a member id, exactly one per machine, in machine order |
| ClusterApi.FailedMachineListed | cluster-autoscaler/cloudprovider/clusterapi/clusterapi_nodegroup_test.go:963-1000 | a failed machine without provider id is listed under "failed:" + namespace + "_" + name; when every other machine is provisioned there are as many ids as machines |
| ClusterApi.FailedIdSortsFirst | cluster-autoscaler/cloudprovider/clusterapi/clusterapi_nodegroup_test.go:992-1000 | the failed id sorts before any provider id that starts with a letter after 'f' |
| ClusterApi.FailedMachineIdInjective | cluster-autoscaler/cloudprovider/clusterapi/clusterapi_nodegroup_test.go:997 | two failed machines of one namespace get the same id only if they have the same name |
| ClusterApi.IndexOf | cluster-autoscaler/cloudprovider/clusterapi/clusterapi_nodegroup_test.go:780-784 | finds the first machine listed under the id, or reports that none is |
| ClusterApi.NodeGroup.FindMachine | cluster-autoscaler/cloudprovider/clusterapi/clusterapi_nodegroup_test.go:780-784 | the loop returns IndexOf of the machines |
| ClusterApi.NodeGroup.FindForeignNode | cluster-autoscaler/cloudprovider/clusterapi/clusterapi_nodegroup_test.go:724-743 | the loop returns the first requested node that is not a member |
| ClusterApi.FirstForeignNodeStable | cluster-autoscaler/cloudprovider/clusterapi/clusterapi_nodegroup_test.go:724-743 | once a prefix of the request holds a foreign node, the whole request reports that node |
| ClusterApi.NoForeignInPrefix | cluster-autoscaler/cloudprovider/clusterapi/clusterapi_nodegroup_test.go:724-743 | a request without foreign nodes has only members in every prefix |
| ClusterApi.NodeGroup.DeleteNodes | cluster-autoscaler/cloudprovider/clusterapi/clusterapi_nodegroup_test.go:648-677 | returns DeleteNodesCheck of the old state; on error nothing changes; otherwise the count drops by PendingCount and the machines become MarkedForDeletion |
| ClusterApi.MarkStep | cluster-autoscaler/cloudprovider/clusterapi/clusterapi_nodegroup_test.go:918-921 | one loop step annotates the node's machine and lowers the count, unless the machine is already being deleted |
| ClusterApi.MarkedKeepsIds | cluster-autoscaler/cloudprovider/clusterapi/clusterapi_nodegroup_test.go:652-662 | marking changes annotations only: ids and deletion timestamps stay |
| ClusterApi.MarkedExactly | cluster-autoscaler/cloudprovider/clusterapi/clusterapi_nodegroup_test.go:652-662 | with distinct ids, a machine ends up annotated iff it already was or it was requested and not being deleted; nothing else changes |
| ClusterApi.PendingCountOfFreshNodes | cluster-autoscaler/cloudprovider/clusterapi/clusterapi_nodegroup_test.go:669-677 | when every requested node is a member not yet being deleted, the count drops by the request's length |
| ClusterApi.DeleteFiveOfTen | cluster-autoscaler/cloudprovider/clusterapi/clusterapi_nodegroup_test.go:648-677 | deleting the last 5 of 10 fresh nodes is accepted, leaves 5 replicas and annotates exactly machines 5..9 |
| ClusterApi.ForeignNodeRefused | cluster-autoscaler/cloudprovider/clusterapi/clusterapi_nodegroup_test.go:724-743 | a request holding another group's node is refused with a not-in-group error (for its first foreign node) whose message contains "doesn't belong to node group" |
| ClusterApi.DeleteAllNodesRefused | cluster-autoscaler/cloudprovider/clusterapi/clusterapi_nodegroup_test.go:745-756 | deleting every member of a group whose replica count equals its member count is refused because replicas would be <= 0 |
| ClusterApi.NodeGroup.SetDeletionTimestamp | cluster-autoscaler/cloudprovider/clusterapi/clusterapi_nodegroup_test.go:780-800 | the external step gives the node's machine a deletion timestamp and changes nothing else |
| ClusterApi.NodeGroup.SetReplicas | cluster-autoscaler/cloudprovider/clusterapi/clusterapi_nodegroup_test.go:430-433 | another client's write sets the count to n |
| ClusterApi.TimestampsKeepIds | cluster-autoscaler/cloudprovider/clusterapi/clusterapi_nodegroup_test.go:780-800 | setting deletion timestamps keeps every machine's id |
| ClusterApi.TimestampsKeepDeleting | cluster-autoscaler/cloudprovider/clusterapi/clusterapi_nodegroup_test.go:786-797 | a machine being deleted stays so through further timestamp steps |
| ClusterApi.TimestampReachesNode | cluster-autoscaler/cloudprovider/clusterapi/clusterapi_nodegroup_test.go:905-916 | after the timestamp steps for a request, each requested member's machine is being deleted and is still found at the same place |
| ClusterApi.MarkedThenTimestamped | cluster-autoscaler/cloudprovider/clusterapi/clusterapi_nodegroup_test.go:860-916 | after an accepted delete and the timestamp steps, each requested node's machine is being deleted |
| ClusterApi.AllDeletingAfterTimestamps | cluster-autoscaler/cloudprovider/clusterapi/clusterapi_nodegroup_test.go:903-916 | the same for all requested nodes at once |
| ClusterApi.DeleteAlreadyDeletingIsNoOp | cluster-autoscaler/cloudprovider/clusterapi/clusterapi_nodegroup_test.go:918-921 | a request naming only machines already being deleted lowers the count by 0 and changes no machine |
| ClusterApi.SecondDeleteIsNoOp | cluster-autoscaler/cloudprovider/clusterapi/clusterapi_nodegroup_test.go:918-935 | repeating the request then passes the check and changes neither the count nor the machines |
| ClusterApi.DeleteThreeOfTenTwice | cluster-autoscaler/cloudprovider/clusterapi/clusterapi_nodegroup_test.go:802-935 | deleting 3 of 10 leaves 7; after the timestamps, the same request again is accepted and still leaves 7 |
| ClusterApi.MembersOfCheckedRequest | cluster-autoscaler/cloudprovider/clusterapi/clusterapi_nodegroup_test.go:724-743 | a request that passed the ownership check names members only |
| ClusterApi.NoForeignWhenAllMembers | cluster-autoscaler/cloudprovider/clusterapi/clusterapi_nodegroup_test.go:745-756 | a request naming members only passes the ownership check |
| ClusterApi.NodeGroup.TemplateNodeInfo | cluster-autoscaler/cloudprovider/clusterapi/clusterapi_nodegroup_test.go:1059-1086 | not-implemented iff cpu or memory is not annotated; otherwise capacity equals allocatable, with TemplateCapacity and TemplateLabels of the first live member node's labels |
| ClusterApi.TemplateCapacity | cluster-autoscaler/cloudprovider/clusterapi/clusterapi_nodegroup_test.go:1073-1078 | exactly cpu, memory in bytes (MiB * 1024 * 1024), 250 pods and the annotated GPUs or 0 |
| ClusterApi.TemplateCapacityExample | cluster-autoscaler/cloudprovider/clusterapi/clusterapi_nodegroup_test.go:1066-1078 | 2 cpus and 2048MiB give cpu 2, memory 2147483648, pods 250, GPU 0 |
| ClusterApi.TemplateLabels | cluster-autoscaler/cloudprovider/clusterapi/clusterapi_nodegroup_test.go:1115-1149 | keys are the defaults, the live node's well-known labels and the template's labels; template wins over the live node, which wins over the defaults |
| ClusterApi.TemplateLabelsWithoutLiveNode | cluster-autoscaler/cloudprovider/clusterapi/clusterapi_nodegroup_test.go:1087-1113 | without a live node the labels are the linux/amd64 defaults, the host name and the template's two labels |
| ClusterApi.TemplateLiveNodeOS | cluster-autoscaler/cloudprovider/clusterapi/clusterapi_nodegroup_test.go:1124-1142 | the live node's os label ("windows") overrides the default; the beta os label keeps "linux" |
| ClusterApi.TemplateLiveNodeArch | cluster-autoscaler/cloudprovider/clusterapi/clusterapi_nodegroup_test.go:1124-1144 | the live node's arch label ("arm64") overrides the default; the beta arch label keeps "amd64" |
| ClusterApi.TemplateLiveNodeHostAndInstanceType | cluster-autoscaler/cloudprovider/clusterapi/clusterapi_nodegroup_test.go:1124-1147 | the host name label is the given host name; the live instance-type label is copied |
| ClusterApi.TemplateLabelsKeepTemplateValues | cluster-autoscaler/cloudprovider/clusterapi/clusterapi_nodegroup_test.go:1124-1146 | the live node's "anotherLabel" is not well known and is not copied; the template's "nodeGroupLabel" and "anotherLabel" values are kept |
| ClusterApi.TemplateLiveNodeLabelKeys | cluster-autoscaler/cloudprovider/clusterapi/clusterapi_nodegroup_test.go:1140-1208 | with the live node the template has exactly eight labels: the seven expected ones plus the host name; the live node's "anotherLabel" adds no key of its own |

## Left out

- The Kubernetes clients, informers and the scale client are not modelled; the store they read and write is the node group's own fields. The status-replicas fallback, marked TODO in the tests, is left out too, and so is optimistic-concurrency conflict handling.
- `wait.PollImmediate`, and the delay before a deletion timestamp becomes visible, are timing only: the reconciler's action is the synchronous step `SetDeletionTimestamp`.
- `compareResourceMapsWithTolerance` with `MaxAllocatableDifferenceRatio` and `MaxFreeDifferenceRatio` works on floating-point ratios and enters `IsOpenShiftNodeInfoSimilar` as two predicate parameters.
- `IsOpenShiftMachineApiNodeInfoSimilar` only forwards its two nodes to `isOpenShiftNodeInfoSimilar`, which reads the ratio constants itself. It is not modelled separately.
- `resource.Quantity` parsing, suffixes and `MustParse("128Ki")` are not modelled: quantities are integers in base units, and 128Ki is the constant 131072. The min/max/cpu/memory/GPU annotations arrive as already-parsed optional integers.
- The replica count is an unbounded integer. The source's int32 scale field is not modelled, because no test comes near its range.
- The id, debug and GVR strings are not modelled, and neither are the random host name and the random namespaces: the host name is a parameter of `TemplateNodeInfo`. `Exist()` is not modelled, since a constructed group always exists in the model.
- `normalizedProviderString` is not modelled: provider ids are compared as given.
- ClusterApi.FailedIdSortsFirst: the lemma assumes the test fixtures' provider ids start with a letter after 'f', and proves the failed id sorts first only under that assumption.
- Machine and node creation and removal by the cluster-API controllers are left out. Only the deletion timestamp they set is modelled.
- ClusterApi.NodeGroup.DeleteNodes: this model rejects a request only on a foreign node or replicas that would be <= 0, the two failures the tests fix. Any further check, such as a minimum-size check, is not modelled.
- ClusterApi.ErrorMessage: only the texts the tests fix are exact (increase, decrease, not-in-group). The other error variants carry placeholder text.
