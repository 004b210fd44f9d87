/**
 * A cluster-API node group: a scalable resource (a machine set or a
 * machine deployment) with size bounds, a replica count held by its scale
 * view, and the machines it owns. The backing store is modelled as the
 * fields of the NodeGroup object: `replicas` is the scale view's replica
 * count and `machines` holds the machine objects the group owns.
 *
 * The node group resizes by writing the replica count, and removes
 * specific nodes by annotating their machines for deletion and lowering
 * the replica count; a reconciler outside the node group later gives
 * those machines a deletion timestamp, modelled as an explicit step.
 */
module ClusterApi {
  import opened Wrappers
  import opened Decimal

  type Labels = map<string, string>

  /** A machine owned by the node group's scalable resource. */
  datatype Machine = Machine(
    namespace: string,
    name: string,
    /** spec.providerID; absent for a machine that failed before provisioning */
    providerId: Option<string>,
    /** the machine's status carries a failure message */
    failed: bool,
    /** the machine carries the delete-machine annotation */
    deleteAnnotation: bool,
    /** the machine has a non-zero deletion timestamp */
    deletionTimestamp: bool,
    /** labels of the node object backing this machine, when that node exists */
    nodeLabels: Option<Labels>)

  datatype Error =
    | MinSizeInvalid(minSize: int)
    | MaxSizeInvalid(maxSize: int)
    | MaxSizeBelowMinSize(minSize: int, maxSize: int)
    | SizeIncreaseNotPositive
    | SizeIncreaseTooLarge(desired: int, max: int)
    | SizeDecreaseNotNegative
    | DecreaseBelowExistingNodes(targetSize: int, delta: int, existingNodes: int)
    | NodeNotInGroup(node: string, group: string)
    | ReplicasWouldNotBePositive(count: int, group: string)
    | AlreadyExist
    | NotImplemented

  /** The text of an error, with numbers rendered as `%d` renders them. */
  function ErrorMessage(e: Error): (msg: string)
    ensures e.NodeNotInGroup? ==> Contains(msg, "doesn't belong to node group")
  {
    match e
    case MinSizeInvalid(m) => "invalid min size " + IntToString(m)
    case MaxSizeInvalid(m) => "invalid max size " + IntToString(m)
    case MaxSizeBelowMinSize(lo, hi) => "max size " + IntToString(hi) + " is less than min size " + IntToString(lo)
    case SizeIncreaseNotPositive => "size increase must be positive"
    case SizeIncreaseTooLarge(d, m) => "size increase too large - desired:" + IntToString(d) + " max:" + IntToString(m)
    case SizeDecreaseNotNegative => "size decrease must be negative"
    case DecreaseBelowExistingNodes(t, d, n) =>
      "attempt to delete existing nodes targetSize:" + IntToString(t) + " delta:" + IntToString(d) + " existingNodes: " + IntToString(n)
    case NodeNotInGroup(n, g) =>
      var pre, sub, post := "node \"" + n + "\" ", "doesn't belong to node group", " \"" + g + "\"";
      ContainsMiddle(pre, sub, post);
      pre + sub + post
    case ReplicasWouldNotBePositive(c, g) =>
      "unable to delete " + IntToString(c) + " machines in \"" + g + "\", machine replicas are <= 0 "
    case AlreadyExist => "Already exist"
    case NotImplemented => "Not implemented"
  }

  predicate OccursAt(s: string, sub: string, i: int) {
    0 <= i <= |s| - |sub| && s[i..i + |sub|] == sub
  }

  ghost predicate Contains(s: string, sub: string) {
    exists i :: OccursAt(s, sub, i)
  }

  lemma ContainsMiddle(pre: string, sub: string, post: string)
    ensures Contains(pre + sub + post, sub)
  {
    assert OccursAt(pre + sub + post, sub, |pre|);
  }

  // ---------------------------------------------------------------------
  // Bounds

  datatype Bounds = Bounds(minSize: int, maxSize: int)

  /** An absent size annotation counts as 0. */
  function AnnotationOrZero(a: Option<int>): int {
    if a.Some? then a.value else 0
  }

  /** The size bounds read from the min and max annotations. */
  function ParseBounds(minAnnotation: Option<int>, maxAnnotation: Option<int>): (r: Result<Bounds, Error>)
    ensures r.Success? <==> 0 <= AnnotationOrZero(minAnnotation) <= AnnotationOrZero(maxAnnotation)
    ensures r.Success? ==> r.value == Bounds(AnnotationOrZero(minAnnotation), AnnotationOrZero(maxAnnotation))
    ensures r.Failure? && AnnotationOrZero(minAnnotation) < 0 ==> r.error == MinSizeInvalid(AnnotationOrZero(minAnnotation))
  {
    var minSize, maxSize := AnnotationOrZero(minAnnotation), AnnotationOrZero(maxAnnotation);
    if minSize < 0 then Failure(MinSizeInvalid(minSize))
    else if maxSize < 0 then Failure(MaxSizeInvalid(maxSize))
    else if maxSize < minSize then Failure(MaxSizeBelowMinSize(minSize, maxSize))
    else Success(Bounds(minSize, maxSize))
  }

  // ---------------------------------------------------------------------
  // Member identifiers

  const FailedMachinePrefix: string := "failed:"

  /** The stand-in identifier of a machine that never received a provider id. */
  function FailedMachineId(namespace: string, name: string): string {
    FailedMachinePrefix + namespace + "_" + name
  }

  /**
   * The identifier under which a machine is listed as a node group member:
   * its provider id, or the stand-in id of a machine that failed before it
   * received one. A machine still being provisioned has none yet.
   */
  function MemberId(m: Machine): (id: Option<string>)
    ensures id.Some? <==> m.providerId.Some? || m.failed
    ensures m.providerId.Some? ==> id == m.providerId
  {
    match m.providerId
    case Some(p) => Some(p)
    case None => if m.failed then Some(FailedMachineId(m.namespace, m.name)) else None
  }

  /** The members of a machine list, in machine order; machines without a member id are left out. */
  function MemberIds(ms: seq<Machine>): (ids: seq<string>)
    ensures |ids| <= |ms|
    ensures (forall i :: 0 <= i < |ms| ==> MemberId(ms[i]).Some?) ==>
      |ids| == |ms| && forall i :: 0 <= i < |ms| ==> ids[i] == MemberId(ms[i]).value
  {
    if ms == [] then []
    else
      var init := ms[..|ms| - 1];
      assert forall i :: 0 <= i < |init| ==> init[i] == ms[i];
      MemberIds(init) + (match MemberId(ms[|ms| - 1]) case Some(id) => [id] case None => [])
  }

  /** Strict lexicographic order on strings, the order of Go's `<` on strings. */
  predicate StringLess(a: string, b: string)
    decreases |a|
  {
    if a == [] then b != []
    else if b == [] then false
    else a[0] < b[0] || (a[0] == b[0] && StringLess(a[1..], b[1..]))
  }

  // ---------------------------------------------------------------------
  // Resize checks

  /** Validation of IncreaseSize(delta) against the current size. */
  function IncreaseSizeCheck(size: int, maxSize: int, delta: int): (r: Option<Error>)
    ensures r.None? <==> 0 < delta && size + delta <= maxSize
    ensures delta <= 0 ==> r == Some(SizeIncreaseNotPositive)
    ensures 0 < delta && size + delta > maxSize ==> r == Some(SizeIncreaseTooLarge(size + delta, maxSize))
  {
    if delta <= 0 then Some(SizeIncreaseNotPositive)
    else if size + delta > maxSize then Some(SizeIncreaseTooLarge(size + delta, maxSize))
    else None
  }

  /** Validation of DecreaseTargetSize(delta) against the current size and the number of existing nodes. */
  function DecreaseTargetSizeCheck(size: int, existingNodes: int, delta: int): (r: Option<Error>)
    ensures r.None? <==> delta < 0 && existingNodes <= size + delta
    ensures delta >= 0 ==> r == Some(SizeDecreaseNotNegative)
    ensures delta < 0 && size + delta < existingNodes ==> r == Some(DecreaseBelowExistingNodes(size, delta, existingNodes))
  {
    if delta >= 0 then Some(SizeDecreaseNotNegative)
    else if size + delta < existingNodes then Some(DecreaseBelowExistingNodes(size, delta, existingNodes))
    else None
  }

  // ---------------------------------------------------------------------
  // Delete specification

  /** The position of the first machine listed under id node, if any. */
  function IndexOf(ms: seq<Machine>, node: string): (r: Option<nat>)
    ensures r.Some? ==> r.value < |ms| && MemberId(ms[r.value]) == Some(node)
    ensures r.Some? ==> forall j :: 0 <= j < r.value ==> MemberId(ms[j]) != Some(node)
    ensures r.None? ==> forall j :: 0 <= j < |ms| ==> MemberId(ms[j]) != Some(node)
  {
    if ms == [] then None
    else if MemberId(ms[0]) == Some(node) then Some(0)
    else match IndexOf(ms[1..], node)
      case None => None
      case Some(j) => Some(j + 1)
  }

  /** The first node in the request that is not a member of the group, if any. */
  function FirstForeignNode(ms: seq<Machine>, nodes: seq<string>): (r: Option<string>)
    ensures r.Some? ==> r.value in nodes && IndexOf(ms, r.value).None?
  {
    if nodes == [] then None
    else match FirstForeignNode(ms, nodes[..|nodes| - 1])
      case Some(n) => Some(n)
      case None => if IndexOf(ms, nodes[|nodes| - 1]).None? then Some(nodes[|nodes| - 1]) else None
  }

  /** The validation DeleteNodes performs before it marks anything. */
  function DeleteNodesCheck(replicas: int, ms: seq<Machine>, nodes: seq<string>, group: string): (r: Option<Error>)
    ensures r.None? <==> FirstForeignNode(ms, nodes).None? && |nodes| < replicas
    ensures r.Some? ==> r.value.NodeNotInGroup? || r.value == ReplicasWouldNotBePositive(|nodes|, group)
    ensures r.Some? && r.value.NodeNotInGroup? ==>
      r.value.group == group && r.value.node in nodes && IndexOf(ms, r.value.node).None?
  {
    match FirstForeignNode(ms, nodes)
    case Some(n) => Some(NodeNotInGroup(n, group))
    case None => if replicas - |nodes| <= 0 then Some(ReplicasWouldNotBePositive(|nodes|, group)) else None
  }

  /** The node is a member whose machine is not yet being deleted. */
  predicate IsPending(ms: seq<Machine>, node: string) {
    var i := IndexOf(ms, node);
    i.Some? && !ms[i.value].deletionTimestamp
  }

  /** How many of the requested nodes, counted with repetition, lower the replica count. */
  function PendingCount(ms: seq<Machine>, nodes: seq<string>): (r: nat)
    ensures r <= |nodes|
  {
    if nodes == [] then 0
    else PendingCount(ms, nodes[..|nodes| - 1]) + (if IsPending(ms, nodes[|nodes| - 1]) then 1 else 0)
  }

  /** Machine i is the requested node's machine and is not yet being deleted. */
  predicate Selected(ms: seq<Machine>, nodes: seq<string>, i: nat)
    requires i < |ms|
  {
    && !ms[i].deletionTimestamp
    && MemberId(ms[i]).Some? && MemberId(ms[i]).value in nodes
    && IndexOf(ms, MemberId(ms[i]).value) == Some(i)
  }

  /** The machines after DeleteNodes: every selected machine carries the delete annotation. */
  function MarkedForDeletion(ms: seq<Machine>, nodes: seq<string>): (r: seq<Machine>)
    ensures |r| == |ms|
  {
    seq(|ms|, i requires 0 <= i < |ms| => if Selected(ms, nodes, i) then ms[i].(deleteAnnotation := true) else ms[i])
  }

  /** The machines after the reconciler has started deleting the machine of node. */
  function WithDeletionTimestamp(ms: seq<Machine>, node: string): (r: seq<Machine>)
    ensures |r| == |ms|
  {
    match IndexOf(ms, node)
    case None => ms
    case Some(i) => ms[i := ms[i].(deletionTimestamp := true)]
  }

  function WithDeletionTimestamps(ms: seq<Machine>, nodes: seq<string>): (r: seq<Machine>)
    ensures |r| == |ms|
    decreases |nodes|
  {
    if nodes == [] then ms else WithDeletionTimestamps(WithDeletionTimestamp(ms, nodes[0]), nodes[1..])
  }

  // ---------------------------------------------------------------------
  // Template node

  const LabelHostname: string := "kubernetes.io/hostname"
  const LabelOS: string := "kubernetes.io/os"
  const LabelOSBeta: string := "beta.kubernetes.io/os"
  const LabelArch: string := "kubernetes.io/arch"
  const LabelArchBeta: string := "beta.kubernetes.io/arch"
  const LabelInstanceType: string := "node.kubernetes.io/instance-type"
  const LabelInstanceTypeBeta: string := "beta.kubernetes.io/instance-type"
  const LabelTopologyZone: string := "topology.kubernetes.io/zone"
  const LabelTopologyRegion: string := "topology.kubernetes.io/region"

  /** Labels of a live node that a template node inherits. */
  const WellKnownLabels: set<string> := {
    LabelOS, LabelOSBeta, LabelArch, LabelArchBeta, LabelInstanceType, LabelInstanceTypeBeta,
    LabelTopologyZone, LabelTopologyRegion
  }

  const ResourceCPU: string := "cpu"
  const ResourceMemory: string := "memory"
  const ResourcePods: string := "pods"
  const ResourceNvidiaGPU: string := "nvidia.com/gpu"
  const DefaultMaxPods: int := 250

  datatype NodeTemplate = NodeTemplate(capacity: map<string, int>, allocatable: map<string, int>, labels: Labels)

  function DefaultLabels(hostname: string): Labels {
    map[LabelOS := "linux", LabelOSBeta := "linux", LabelArch := "amd64", LabelArchBeta := "amd64",
        LabelHostname := hostname]
  }

  function WellKnownOf(nodeLabels: Labels): Labels {
    map l | l in nodeLabels && l in WellKnownLabels :: nodeLabels[l]
  }

  /** The machine is a member and the node behind it still exists. */
  predicate HasLiveNode(m: Machine) {
    MemberId(m).Some? && m.nodeLabels.Some?
  }

  /** The labels of the node behind the first member machine whose node still exists, if any does. */
  function FirstLiveNode(ms: seq<Machine>): (r: Option<Labels>)
    ensures r.None? <==> forall i :: 0 <= i < |ms| ==> !HasLiveNode(ms[i])
    ensures r.Some? ==> exists i :: (0 <= i < |ms| && HasLiveNode(ms[i]) && ms[i].nodeLabels == r &&
      forall j :: 0 <= j < i ==> !HasLiveNode(ms[j]))
  {
    if ms == [] then None
    else if HasLiveNode(ms[0]) then ms[0].nodeLabels
    else
      var r := FirstLiveNode(ms[1..]);
      assert forall i :: 1 <= i < |ms| ==> ms[1..][i - 1] == ms[i];
      r
  }

  /** The first member whose node exists is the one whose labels a template inherits. */
  lemma FirstLiveNodeAt(ms: seq<Machine>, k: nat)
    requires k < |ms| && HasLiveNode(ms[k])
    requires forall j :: 0 <= j < k ==> !HasLiveNode(ms[j])
    ensures FirstLiveNode(ms) == ms[k].nodeLabels
  {
    var i :| 0 <= i < |ms| && HasLiveNode(ms[i]) && ms[i].nodeLabels == FirstLiveNode(ms) &&
      forall j :: 0 <= j < i ==> !HasLiveNode(ms[j]);
    assert i == k;
  }

  /** Defaults, overridden by the well-known labels of a live node, overridden by the template's labels. */
  function TemplateLabels(hostname: string, liveNode: Option<Labels>, templateLabels: Labels): (r: Labels)
    ensures r.Keys == DefaultLabels(hostname).Keys + (if liveNode.Some? then WellKnownOf(liveNode.value).Keys else {}) + templateLabels.Keys
    ensures forall l :: l in templateLabels ==> r[l] == templateLabels[l]
    ensures forall l :: l !in templateLabels && liveNode.Some? && l in liveNode.value && l in WellKnownLabels ==>
      r[l] == liveNode.value[l]
    ensures forall l :: (l in DefaultLabels(hostname) && l !in templateLabels &&
      !(liveNode.Some? && l in liveNode.value && l in WellKnownLabels)) ==> r[l] == DefaultLabels(hostname)[l]
  {
    var live := if liveNode.Some? then WellKnownOf(liveNode.value) else map[];
    DefaultLabels(hostname) + live + templateLabels
  }

  /** Capacity of a template node: declared cpu, memory in MiB, 250 pods, and the declared GPUs or none. */
  function TemplateCapacity(cpu: int, memoryMiB: int, gpu: Option<int>): (r: map<string, int>)
    ensures r.Keys == {ResourceCPU, ResourceMemory, ResourcePods, ResourceNvidiaGPU}
    ensures r[ResourceCPU] == cpu && r[ResourceMemory] == memoryMiB * 1024 * 1024
    ensures r[ResourcePods] == DefaultMaxPods && r[ResourceNvidiaGPU] == (if gpu.Some? then gpu.value else 0)
  {
    map[ResourceCPU := cpu, ResourceMemory := memoryMiB * 1024 * 1024, ResourcePods := DefaultMaxPods,
        ResourceNvidiaGPU := if gpu.Some? then gpu.value else 0]
  }

  // ---------------------------------------------------------------------
  // The node group

  class NodeGroup {
    /** the group's identifier (kind, namespace and name of the scalable resource) */
    const id: string
    const minSize: int
    const maxSize: int
    /** the replica count of the scale view */
    var replicas: int
    /** the machines the scalable resource owns */
    const machines: array<Machine>
    /** labels the scalable resource's machine template puts on its nodes */
    const templateLabels: Labels
    /** scale-from-zero capacity annotations */
    const cpuCapacity: Option<int>
    const memoryCapacityMiB: Option<int>
    const gpuCapacity: Option<int>

    ghost predicate Valid()
      reads this
    {
      0 <= minSize <= maxSize && 0 <= replicas
    }

    constructor (id: string, bounds: Bounds, replicas: nat, ms: seq<Machine>, templateLabels: Labels,
                 cpuCapacity: Option<int>, memoryCapacityMiB: Option<int>, gpuCapacity: Option<int>)
      requires 0 <= bounds.minSize <= bounds.maxSize
      ensures Valid() && fresh(machines)
      ensures this.id == id && minSize == bounds.minSize && maxSize == bounds.maxSize
      ensures this.replicas == replicas && machines[..] == ms && this.templateLabels == templateLabels
      ensures this.cpuCapacity == cpuCapacity && this.memoryCapacityMiB == memoryCapacityMiB && this.gpuCapacity == gpuCapacity
    {
      this.id := id;
      minSize, maxSize := bounds.minSize, bounds.maxSize;
      this.replicas := replicas;
      machines := new Machine[|ms|](i requires 0 <= i < |ms| => ms[i]);
      this.templateLabels := templateLabels;
      this.cpuCapacity, this.memoryCapacityMiB, this.gpuCapacity := cpuCapacity, memoryCapacityMiB, gpuCapacity;
    }

    /** Node groups are discovered, never created. */
    function Create(): (err: Error)
      ensures err == AlreadyExist
    {
      AlreadyExist
    }

    /** Deleting a node group is not supported. */
    function Delete(): (err: Error)
      ensures err == NotImplemented
    {
      NotImplemented
    }

    /** A node group always stands for a pre-existing scalable resource. */
    function Autoprovisioned(): (b: bool)
      ensures !b
    {
      false
    }

    /** The members of the group: provisioned machines under their provider id, failed ones under their stand-in id. */
    method Nodes() returns (ids: seq<string>)
      ensures ids == MemberIds(machines[..])
    {
      ids := [];
      for i := 0 to machines.Length
        invariant ids == MemberIds(machines[..i])
      {
        assert machines[..i + 1][..i] == machines[..i];
        match MemberId(machines[i]) {
          case Some(id) => ids := ids + [id];
          case None =>
        }
      }
      assert machines[..machines.Length] == machines[..];
    }

    /** The index of the machine listed under node id, if the group has one. */
    method FindMachine(node: string) returns (idx: Option<nat>)
      ensures idx == IndexOf(machines[..], node)
    {
      for i := 0 to machines.Length
        invariant forall j :: 0 <= j < i ==> MemberId(machines[j]) != Some(node)
      {
        if MemberId(machines[i]) == Some(node) {
          IndexOfFirstMatch(machines[..], node, i);
          return Some(i);
        }
      }
      IndexOfNoMatch(machines[..], node);
      return None;
    }

    /** The first requested node that is not a member of this group, if any. */
    method FindForeignNode(nodes: seq<string>) returns (foreign: Option<string>)
      ensures foreign == FirstForeignNode(machines[..], nodes)
    {
      for j := 0 to |nodes|
        invariant FirstForeignNode(machines[..], nodes[..j]).None?
      {
        assert nodes[..j + 1][..j] == nodes[..j];
        var idx := FindMachine(nodes[j]);
        if idx.None? {
          FirstForeignNodeStable(machines[..], nodes, j + 1);
          return Some(nodes[j]);
        }
      }
      assert nodes[..|nodes|] == nodes;
      return None;
    }

    method IncreaseSize(delta: int) returns (err: Option<Error>)
      requires Valid()
      modifies this`replicas
      ensures Valid()
      ensures err == IncreaseSizeCheck(old(replicas), maxSize, delta)
      ensures replicas == if err.None? then old(replicas) + delta else old(replicas)
    {
      if delta <= 0 {
        return Some(SizeIncreaseNotPositive);
      }
      var size := replicas;
      if size + delta > maxSize {
        return Some(SizeIncreaseTooLarge(size + delta, maxSize));
      }
      replicas := size + delta;
      return None;
    }

    method DecreaseTargetSize(delta: int) returns (err: Option<Error>)
      requires Valid()
      modifies this`replicas
      ensures Valid()
      ensures err == DecreaseTargetSizeCheck(old(replicas), |MemberIds(machines[..])|, delta)
      ensures replicas == if err.None? then old(replicas) + delta else old(replicas)
    {
      if delta >= 0 {
        return Some(SizeDecreaseNotNegative);
      }
      var size := replicas;
      var nodes := Nodes();
      if size + delta < |nodes| {
        return Some(DecreaseBelowExistingNodes(size, delta, |nodes|));
      }
      replicas := size + delta;
      return None;
    }

    /**
     * Check that every node belongs to this group and that the replica
     * count stays positive, then put the delete annotation on the machine
     * of every node not already being deleted, lowering the replica count
     * by one for each.
     */
    method DeleteNodes(nodes: seq<string>) returns (err: Option<Error>)
      requires Valid()
      modifies this`replicas, machines
      ensures Valid()
      ensures err == DeleteNodesCheck(old(replicas), old(machines[..]), nodes, id)
      ensures err.Some? ==> replicas == old(replicas) && machines[..] == old(machines[..])
      ensures err.None? ==> replicas == old(replicas) - PendingCount(old(machines[..]), nodes)
      ensures err.None? ==> machines[..] == MarkedForDeletion(old(machines[..]), nodes)
    {
      var foreign := FindForeignNode(nodes);
      if foreign.Some? {
        return Some(NodeNotInGroup(foreign.value, id));
      }
      var size := replicas;
      if size - |nodes| <= 0 {
        return Some(ReplicasWouldNotBePositive(|nodes|, id));
      }
      ghost var ms := machines[..];
      assert nodes[..0] == [];
      MarkedForNoNodes(ms);
      for j := 0 to |nodes|
        invariant replicas == size - PendingCount(ms, nodes[..j])
        invariant machines[..] == MarkedForDeletion(ms, nodes[..j])
      {
        assert nodes[..j + 1][..j] == nodes[..j];
        NoForeignInPrefix(ms, nodes, j + 1);
        MarkedKeepsIds(ms, nodes[..j]);
        var idx := FindMachine(nodes[j]);
        IndexOfSameIds(machines[..], ms, nodes[j]);
        var i := idx.value;
        if machines[i].deletionTimestamp {
          MarkStep(ms, nodes, j, i);
          continue;
        }
        machines[i] := machines[i].(deleteAnnotation := true);
        replicas := replicas - 1;
        MarkStep(ms, nodes, j, i);
      }
      assert nodes[..|nodes|] == nodes;
      return None;
    }

    /** The cluster-API controllers start deleting the machine of a node: an action outside this group. */
    method SetDeletionTimestamp(node: string)
      modifies machines
      ensures machines[..] == WithDeletionTimestamp(old(machines[..]), node)
    {
      var idx := FindMachine(node);
      if idx.Some? {
        machines[idx.value] := machines[idx.value].(deletionTimestamp := true);
      }
    }

    /** Another client writes the scale view's replica count. */
    method SetReplicas(n: nat)
      requires Valid()
      modifies this`replicas
      ensures Valid() && replicas == n
    {
      replicas := n;
    }

    /**
     * All labels of the first member node that still exists, or none when no
     * member's node does; TemplateLabels keeps the well-known ones.
     */
    function LiveNodeLabels(): (r: Option<Labels>)
      reads this, machines
      ensures r.None? <==> forall i :: 0 <= i < machines.Length ==> !HasLiveNode(machines[i])
      ensures r.Some? ==> exists i :: (0 <= i < machines.Length && HasLiveNode(machines[i]) &&
        machines[i].nodeLabels == r && forall j :: 0 <= j < i ==> !HasLiveNode(machines[j]))
    {
      FirstLiveNode(machines[..])
    }

    /**
     * A representative node for a group that may have no members: refused
     * without cpu and memory annotations, otherwise built from them and
     * from the merged labels. hostname is the randomised host name.
     */
    function TemplateNodeInfo(hostname: string): (r: Result<NodeTemplate, Error>)
      reads this, machines
      ensures r.Failure? <==> cpuCapacity.None? || memoryCapacityMiB.None?
      ensures r.Failure? ==> r.error == NotImplemented
      ensures r.Success? ==> r.value.capacity == r.value.allocatable
      ensures r.Success? ==> r.value.capacity == TemplateCapacity(cpuCapacity.value, memoryCapacityMiB.value, gpuCapacity)
      ensures r.Success? ==> r.value.labels == TemplateLabels(hostname, LiveNodeLabels(), templateLabels)
    {
      if cpuCapacity.None? || memoryCapacityMiB.None? then Failure(NotImplemented)
      else
        var capacity := TemplateCapacity(cpuCapacity.value, memoryCapacityMiB.value, gpuCapacity);
        Success(NodeTemplate(capacity, capacity, TemplateLabels(hostname, LiveNodeLabels(), templateLabels)))
    }
  }

  /** Bounds validation, then a node group over the given store contents. */
  method NewNodeGroup(id: string, minAnnotation: Option<int>, maxAnnotation: Option<int>, replicas: nat,
                      ms: seq<Machine>, templateLabels: Labels,
                      cpuCapacity: Option<int>, memoryCapacityMiB: Option<int>, gpuCapacity: Option<int>)
    returns (r: Result<NodeGroup, Error>)
    ensures r.Failure? ==> ParseBounds(minAnnotation, maxAnnotation) == Failure(r.error)
    ensures r.Success? ==> ParseBounds(minAnnotation, maxAnnotation) == Success(Bounds(r.value.minSize, r.value.maxSize))
    ensures r.Success? ==> fresh(r.value) && fresh(r.value.machines) && r.value.Valid()
    ensures r.Success? ==> r.value.replicas == replicas && r.value.machines[..] == ms && r.value.id == id
    ensures r.Success? ==> (r.value.templateLabels == templateLabels && r.value.cpuCapacity == cpuCapacity
      && r.value.memoryCapacityMiB == memoryCapacityMiB && r.value.gpuCapacity == gpuCapacity)
  {
    var bounds := ParseBounds(minAnnotation, maxAnnotation);
    if bounds.Failure? {
      return Failure(bounds.error);
    }
    var ng := new NodeGroup(id, bounds.value, replicas, ms, templateLabels, cpuCapacity, memoryCapacityMiB, gpuCapacity);
    return Success(ng);
  }

  // ---------------------------------------------------------------------
  // Lemmas used by the operations

  lemma IndexOfFirstMatch(ms: seq<Machine>, node: string, i: nat)
    requires i < |ms| && MemberId(ms[i]) == Some(node)
    requires forall j :: 0 <= j < i ==> MemberId(ms[j]) != Some(node)
    ensures IndexOf(ms, node) == Some(i)
  {
  }

  lemma IndexOfNoMatch(ms: seq<Machine>, node: string)
    requires forall j :: 0 <= j < |ms| ==> MemberId(ms[j]) != Some(node)
    ensures IndexOf(ms, node) == None
  {
  }

  /** Two machine lists with the same ids find every node at the same place. */
  lemma IndexOfSameIds(a: seq<Machine>, b: seq<Machine>, node: string)
    requires |a| == |b| && forall i :: 0 <= i < |a| ==> MemberId(a[i]) == MemberId(b[i])
    ensures IndexOf(a, node) == IndexOf(b, node)
  {
    match IndexOf(b, node)
    case None => IndexOfNoMatch(a, node);
    case Some(i) => IndexOfFirstMatch(a, node, i);
  }

  /** Once a prefix of the request holds a foreign node, the whole request reports that node. */
  lemma {:induction false} FirstForeignNodeStable(ms: seq<Machine>, nodes: seq<string>, k: nat)
    requires k <= |nodes| && FirstForeignNode(ms, nodes[..k]).Some?
    ensures FirstForeignNode(ms, nodes) == FirstForeignNode(ms, nodes[..k])
    decreases |nodes| - k
  {
    if k < |nodes| {
      assert nodes[..k + 1][..k] == nodes[..k];
      FirstForeignNodeStable(ms, nodes, k + 1);
    } else {
      assert nodes[..k] == nodes;
    }
  }

  /** With no foreign node in the request, every prefix holds only members. */
  lemma {:induction false} NoForeignInPrefix(ms: seq<Machine>, nodes: seq<string>, k: nat)
    requires 0 < k <= |nodes| && FirstForeignNode(ms, nodes).None?
    ensures FirstForeignNode(ms, nodes[..k]).None?
    ensures IndexOf(ms, nodes[k - 1]).Some?
  {
    if FirstForeignNode(ms, nodes[..k]).Some? {
      FirstForeignNodeStable(ms, nodes, k);
    }
    assert nodes[..k][..k - 1] == nodes[..k - 1];
  }

  lemma MarkedForNoNodes(ms: seq<Machine>)
    ensures MarkedForDeletion(ms, []) == ms
  {
  }

  /** Marking changes annotations only: ids and deletion timestamps stay. */
  lemma MarkedKeepsIds(ms: seq<Machine>, nodes: seq<string>)
    ensures forall i :: 0 <= i < |ms| ==> MemberId(MarkedForDeletion(ms, nodes)[i]) == MemberId(ms[i])
    ensures forall i :: 0 <= i < |ms| ==> MarkedForDeletion(ms, nodes)[i].deletionTimestamp == ms[i].deletionTimestamp
  {
  }

  /** One iteration of the marking loop. */
  lemma MarkStep(ms: seq<Machine>, nodes: seq<string>, j: nat, i: nat)
    requires j < |nodes| && IndexOf(ms, nodes[j]) == Some(i)
    ensures PendingCount(ms, nodes[..j + 1]) == PendingCount(ms, nodes[..j]) + (if ms[i].deletionTimestamp then 0 else 1)
    ensures ms[i].deletionTimestamp ==> MarkedForDeletion(ms, nodes[..j + 1]) == MarkedForDeletion(ms, nodes[..j])
    ensures !ms[i].deletionTimestamp ==>
      MarkedForDeletion(ms, nodes[..j + 1]) == MarkedForDeletion(ms, nodes[..j])[i := ms[i].(deleteAnnotation := true)]
  {
    var a, b := nodes[..j], nodes[..j + 1];
    assert b[..j] == a;
    assert forall n :: n in b <==> n in a || n == nodes[j];
    var ma, mb := MarkedForDeletion(ms, a), MarkedForDeletion(ms, b);
    forall k | 0 <= k < |ms| && k != i ensures Selected(ms, a, k) == Selected(ms, b, k) {
      if MemberId(ms[k]) == Some(nodes[j]) {
        assert IndexOf(ms, MemberId(ms[k]).value) == Some(i);
      }
    }
  }

  // ---------------------------------------------------------------------
  // Properties

  /** Every failed machine has one stand-in id, and distinct machine names give distinct ids. */
  lemma FailedMachineIdInjective(ns: string, name1: string, name2: string)
    requires FailedMachineId(ns, name1) == FailedMachineId(ns, name2)
    ensures name1 == name2
  {
    var a, b := FailedMachineId(ns, name1), FailedMachineId(ns, name2);
    var k := |FailedMachinePrefix + ns + "_"|;
    assert a[k..] == name1;
    assert b[k..] == name2;
  }

  /** The stand-in id of a failed machine sorts before any provider id that starts with a letter after 'f'. */
  lemma FailedIdSortsFirst(ns: string, name: string, providerId: string)
    requires |providerId| > 0 && providerId[0] > 'f'
    ensures StringLess(FailedMachineId(ns, name), providerId)
  {
    assert FailedMachineId(ns, name)[0] == 'f';
  }

  /**
   * Nodes() lists a failed machine under "failed:<namespace>_<name>"; when
   * every other machine is provisioned, there are as many ids as machines.
   */
  lemma FailedMachineListed(ms: seq<Machine>, k: nat)
    requires k < |ms| && ms[k].providerId.None? && ms[k].failed
    ensures "failed:" + ms[k].namespace + "_" + ms[k].name in MemberIds(ms)
    ensures (forall i :: 0 <= i < |ms| && i != k ==> ms[i].providerId.Some?) ==> |MemberIds(ms)| == |ms|
  {
    ListedMember(ms, k);
  }

  /** Every machine with a member id is listed. */
  lemma {:induction false} ListedMember(ms: seq<Machine>, k: nat)
    requires k < |ms| && MemberId(ms[k]).Some?
    ensures MemberId(ms[k]).value in MemberIds(ms)
  {
    var init := ms[..|ms| - 1];
    if k < |ms| - 1 {
      assert init[k] == ms[k];
      ListedMember(init, k);
    }
  }

  /** Every listed id is found by IndexOf: the list holds members only. */
  lemma {:induction false} MemberIdsAreMembers(ms: seq<Machine>, n: string)
    requires n in MemberIds(ms)
    ensures IndexOf(ms, n).Some?
  {
    var init := ms[..|ms| - 1];
    if n in MemberIds(init) {
      MemberIdsAreMembers(init, n);
      var j := IndexOf(init, n).value;
      assert ms[j] == init[j];
    } else {
      assert MemberId(ms[|ms| - 1]) == Some(n);
    }
  }

  /** A machine still being provisioned is not listed, so the member count is below the machine count. */
  lemma {:induction false} UnprovisionedNotListed(ms: seq<Machine>, k: nat)
    requires k < |ms| && ms[k].providerId.None? && !ms[k].failed
    ensures |MemberIds(ms)| < |ms|
  {
    var init := ms[..|ms| - 1];
    if k < |ms| - 1 {
      assert init[k] == ms[k];
      UnprovisionedNotListed(init, k);
    }
  }

  /** A target one above the machine count may drop by one when one machine is still being provisioned. */
  lemma ProvisioningMachineNotCounted(ms: seq<Machine>, k: nat)
    requires k < |ms| && ms[k].providerId.None? && !ms[k].failed
    ensures DecreaseTargetSizeCheck(|ms|, |MemberIds(ms)|, -1).None?
  {
    UnprovisionedNotListed(ms, k);
  }

  /** A request naming only machines already being deleted changes neither replicas nor machines. */
  lemma {:induction false} DeleteAlreadyDeletingIsNoOp(ms: seq<Machine>, nodes: seq<string>)
    requires forall n :: n in nodes ==> IsDeleting(ms, n)
    ensures PendingCount(ms, nodes) == 0
    ensures MarkedForDeletion(ms, nodes) == ms
  {
    if nodes != [] {
      var init := nodes[..|nodes| - 1];
      assert forall n :: n in init ==> n in nodes;
      DeleteAlreadyDeletingIsNoOp(ms, init);
      assert nodes[|nodes| - 1] in nodes;
    }
  }

  /** Member nodes none of which is being deleted each lower the replica count. */
  lemma {:induction false} PendingCountOfFreshNodes(ms: seq<Machine>, nodes: seq<string>)
    requires forall n :: n in nodes ==> IsPending(ms, n)
    ensures PendingCount(ms, nodes) == |nodes|
  {
    if nodes != [] {
      var init := nodes[..|nodes| - 1];
      assert forall n :: n in init ==> n in nodes;
      PendingCountOfFreshNodes(ms, init);
      assert nodes[|nodes| - 1] in nodes;
    }
  }

  predicate DistinctIds(ms: seq<Machine>) {
    forall i, j :: 0 <= i < j < |ms| && MemberId(ms[i]).Some? ==> MemberId(ms[i]) != MemberId(ms[j])
  }

  /** With distinct ids, exactly the requested machines not being deleted gain the delete annotation. */
  lemma MarkedExactly(ms: seq<Machine>, nodes: seq<string>, i: nat)
    requires DistinctIds(ms) && i < |ms|
    ensures MarkedForDeletion(ms, nodes)[i].deleteAnnotation
        <==> ms[i].deleteAnnotation || (MemberId(ms[i]).Some? && MemberId(ms[i]).value in nodes && !ms[i].deletionTimestamp)
    ensures MarkedForDeletion(ms, nodes)[i].(deleteAnnotation := ms[i].deleteAnnotation) == ms[i]
  {
    if MemberId(ms[i]).Some? {
      IndexOfFirstMatch(ms, MemberId(ms[i]).value, i);
    }
  }

  /** Timestamping changes deletion timestamps only: ids stay. */
  lemma {:induction false} TimestampsKeepIds(ms: seq<Machine>, nodes: seq<string>)
    ensures forall k :: 0 <= k < |ms| ==> MemberId(WithDeletionTimestamps(ms, nodes)[k]) == MemberId(ms[k])
    decreases |nodes|
  {
    if nodes != [] {
      var ms1 := WithDeletionTimestamp(ms, nodes[0]);
      assert forall k :: 0 <= k < |ms| ==> MemberId(ms1[k]) == MemberId(ms[k]);
      TimestampsKeepIds(ms1, nodes[1..]);
    }
  }

  /** A machine already being deleted stays so. */
  lemma {:induction false} TimestampsKeepDeleting(ms: seq<Machine>, nodes: seq<string>, k: nat)
    requires k < |ms| && ms[k].deletionTimestamp
    ensures WithDeletionTimestamps(ms, nodes)[k].deletionTimestamp
    decreases |nodes|
  {
    if nodes != [] {
      TimestampsKeepDeleting(WithDeletionTimestamp(ms, nodes[0]), nodes[1..], k);
    }
  }

  /** After the timestamp step, the machine of every named member is being deleted. */
  lemma {:induction false} TimestampReachesNode(ms: seq<Machine>, nodes: seq<string>, n: string)
    requires n in nodes && IndexOf(ms, n).Some?
    ensures IndexOf(WithDeletionTimestamps(ms, nodes), n) == IndexOf(ms, n)
    ensures WithDeletionTimestamps(ms, nodes)[IndexOf(ms, n).value].deletionTimestamp
    decreases |nodes|
  {
    var ms1 := WithDeletionTimestamp(ms, nodes[0]);
    var r := WithDeletionTimestamps(ms, nodes);
    assert r == WithDeletionTimestamps(ms1, nodes[1..]);
    assert forall k :: 0 <= k < |ms| ==> MemberId(ms1[k]) == MemberId(ms[k]);
    IndexOfSameIds(ms1, ms, n);
    TimestampsKeepIds(ms1, nodes[1..]);
    IndexOfSameIds(r, ms1, n);
    if n == nodes[0] {
      TimestampsKeepDeleting(ms1, nodes[1..], IndexOf(ms, n).value);
    } else {
      assert n in nodes[1..];
      TimestampReachesNode(ms1, nodes[1..], n);
    }
  }

  /**
   * After a checked DeleteNodes request and the reconciler's timestamp
   * step, the machine of every requested node is being deleted, so a
   * repeat of the request is a no-op (SecondDeleteIsNoOp).
   */
  lemma AllDeletingAfterTimestamps(ms: seq<Machine>, nodes: seq<string>)
    requires FirstForeignNode(ms, nodes).None?
    ensures forall n :: n in nodes ==> IsDeleting(WithDeletionTimestamps(MarkedForDeletion(ms, nodes), nodes), n)
  {
    forall n | n in nodes ensures IsDeleting(WithDeletionTimestamps(MarkedForDeletion(ms, nodes), nodes), n) {
      MarkedThenTimestamped(ms, nodes, n);
    }
  }

  /** The node is a member whose machine is being deleted. */
  predicate IsDeleting(ms: seq<Machine>, n: string) {
    IndexOf(ms, n).Some? && ms[IndexOf(ms, n).value].deletionTimestamp
  }

  /** A request whose machines are all being deleted passes the check and changes nothing. */
  lemma SecondDeleteIsNoOp(replicas: int, ms: seq<Machine>, nodes: seq<string>, group: string)
    requires forall n :: n in nodes ==> IsDeleting(ms, n)
    requires replicas - |nodes| > 0
    ensures DeleteNodesCheck(replicas, ms, nodes, group).None?
    ensures PendingCount(ms, nodes) == 0
    ensures MarkedForDeletion(ms, nodes) == ms
  {
    DeleteAlreadyDeletingIsNoOp(ms, nodes);
    NoForeignWhenAllMembers(ms, nodes);
  }

  /** After marking and the timestamp step, every node of a checked request is being deleted. */
  lemma MarkedThenTimestamped(ms: seq<Machine>, nodes: seq<string>, n: string)
    requires FirstForeignNode(ms, nodes).None? && n in nodes
    ensures var ms2 := WithDeletionTimestamps(MarkedForDeletion(ms, nodes), nodes);
      IndexOf(ms2, n).Some? && ms2[IndexOf(ms2, n).value].deletionTimestamp
  {
    var ms1 := MarkedForDeletion(ms, nodes);
    MarkedKeepsIds(ms, nodes);
    MembersOfCheckedRequest(ms, nodes, n);
    IndexOfSameIds(ms1, ms, n);
    TimestampReachesNode(ms1, nodes, n);
  }

  /** A request that passed the ownership check names members only. */
  lemma MembersOfCheckedRequest(ms: seq<Machine>, nodes: seq<string>, n: string)
    requires FirstForeignNode(ms, nodes).None? && n in nodes
    ensures IndexOf(ms, n).Some?
  {
    var k :| 0 <= k < |nodes| && nodes[k] == n;
    NoForeignInPrefix(ms, nodes, k + 1);
  }

  lemma {:induction false} NoForeignWhenAllMembers(ms: seq<Machine>, nodes: seq<string>)
    requires forall n :: n in nodes ==> IndexOf(ms, n).Some?
    ensures FirstForeignNode(ms, nodes).None?
  {
    if nodes != [] {
      var init := nodes[..|nodes| - 1];
      assert forall n :: n in init ==> n in nodes;
      NoForeignWhenAllMembers(ms, init);
      assert nodes[|nodes| - 1] in nodes;
    }
  }

  /** A request holding a node of another group is refused with a not-in-group error naming its first foreign node. */
  lemma {:induction false} ForeignNodeRefused(replicas: int, ms: seq<Machine>, nodes: seq<string>, group: string, k: nat)
    requires k < |nodes| && IndexOf(ms, nodes[k]).None?
    ensures DeleteNodesCheck(replicas, ms, nodes, group).Some?
    ensures DeleteNodesCheck(replicas, ms, nodes, group).value.NodeNotInGroup?
    ensures Contains(ErrorMessage(DeleteNodesCheck(replicas, ms, nodes, group).value), "doesn't belong to node group")
  {
    if FirstForeignNode(ms, nodes).None? {
      MembersOfCheckedRequest(ms, nodes, nodes[k]);
    }
  }

  /** The too-large message determines the desired size and the maximum it reports. */
  lemma SizeIncreaseTooLargeMessageInjective(d1: int, m1: int, d2: int, m2: int)
    requires ErrorMessage(SizeIncreaseTooLarge(d1, m1)) == ErrorMessage(SizeIncreaseTooLarge(d2, m2))
    ensures d1 == d2 && m1 == m2
  {
    var p, q := "size increase too large - desired:", " max:";
    var a1, a2, b1, b2 := IntToString(d1), IntToString(d2), IntToString(m1), IntToString(m2);
    Assoc4(p, a1, q, b1);
    Assoc4(p, a2, q, b2);
    CancelPrefix(p, a1 + (q + b1), a2 + (q + b2));
    IntToStringPrefixUnique(d1, d2, q + b1, q + b2);
    CancelPrefix(q, b1, b2);
    ParseIntToString(m1);
    ParseIntToString(m2);
  }

  /** The existing-nodes message determines the target size, the delta and the node count it reports. */
  lemma DecreaseBelowExistingNodesMessageInjective(s1: int, d1: int, n1: int, s2: int, d2: int, n2: int)
    requires ErrorMessage(DecreaseBelowExistingNodes(s1, d1, n1)) == ErrorMessage(DecreaseBelowExistingNodes(s2, d2, n2))
    ensures s1 == s2 && d1 == d2 && n1 == n2
  {
    var p, q, r := "attempt to delete existing nodes targetSize:", " delta:", " existingNodes: ";
    var a1, a2, b1, b2, c1, c2 := IntToString(s1), IntToString(s2), IntToString(d1), IntToString(d2), IntToString(n1), IntToString(n2);
    Assoc6(p, a1, q, b1, r, c1);
    Assoc6(p, a2, q, b2, r, c2);
    CancelPrefix(p, a1 + (q + (b1 + (r + c1))), a2 + (q + (b2 + (r + c2))));
    IntToStringPrefixUnique(s1, s2, q + (b1 + (r + c1)), q + (b2 + (r + c2)));
    CancelPrefix(q, b1 + (r + c1), b2 + (r + c2));
    IntToStringPrefixUnique(d1, d2, r + c1, r + c2);
    CancelPrefix(r, c1, c2);
    ParseIntToString(n1);
    ParseIntToString(n2);
  }

  lemma CancelPrefix(p: string, x: string, y: string)
    requires p + x == p + y
    ensures x == y
  {
    assert x == (p + x)[|p|..] && y == (p + y)[|p|..];
  }

  lemma Assoc4(a: string, b: string, c: string, d: string)
    ensures a + b + c + d == a + (b + (c + d))
  {
  }

  lemma Assoc6(a: string, b: string, c: string, d: string, e: string, f: string)
    ensures a + b + c + d + e + f == a + (b + (c + (d + (e + f))))
  {
  }

  /** Deleting every member of a group whose replica count equals its member count is refused. */
  lemma DeleteAllNodesRefused(ms: seq<Machine>, group: string)
    requires |MemberIds(ms)| > 0
    ensures DeleteNodesCheck(|MemberIds(ms)|, ms, MemberIds(ms), group)
         == Some(ReplicasWouldNotBePositive(|MemberIds(ms)|, group))
  {
    forall n | n in MemberIds(ms) ensures IndexOf(ms, n).Some? {
      MemberIdsAreMembers(ms, n);
    }
    NoForeignWhenAllMembers(ms, MemberIds(ms));
  }

  /** The stored replica count stays non-negative under every operation's validation. */
  lemma ChecksKeepReplicasInRange(size: int, maxSize: int, existingNodes: nat, delta: int, ms: seq<Machine>, nodes: seq<string>, group: string)
    requires 0 <= size
    ensures IncreaseSizeCheck(size, maxSize, delta).None? ==> size < size + delta <= maxSize
    ensures DecreaseTargetSizeCheck(size, existingNodes, delta).None? ==> 0 <= existingNodes <= size + delta < size
    ensures DeleteNodesCheck(size, ms, nodes, group).None? ==> 0 < size - PendingCount(ms, nodes) <= size
  {
  }

  // ---------------------------------------------------------------------
  // Scenarios

  /** Bounds: negative or crossed annotations are refused; absent ones mean 0. */
  lemma BoundsExamples()
    ensures ParseBounds(Some(-1), Some(0)).Failure?
    ensures ParseBounds(Some(0), Some(-1)).Failure?
    ensures ParseBounds(Some(1), Some(0)).Failure?
    ensures ParseBounds(None, None) == Success(Bounds(0, 0))
    ensures ParseBounds(None, Some(1)) == Success(Bounds(0, 1))
    ensures ParseBounds(Some(1), Some(10)) == Success(Bounds(1, 10))
  {
  }

  /** With max 10 and size 3: delta -1 and delta 8 are refused with their messages, delta 1 gives 4. */
  lemma IncreaseSizeExamples()
    ensures IncreaseSizeCheck(3, 10, -1) == Some(SizeIncreaseNotPositive)
    ensures ErrorMessage(SizeIncreaseNotPositive) == "size increase must be positive"
    ensures IncreaseSizeCheck(3, 10, 8) == Some(SizeIncreaseTooLarge(11, 10))
    ensures ErrorMessage(SizeIncreaseTooLarge(11, 10)) == "size increase too large - desired:11 max:10"
    ensures IncreaseSizeCheck(3, 10, 1).None?
  {
    assert NatToString(11) == "11";
    assert NatToString(10) == "10";
  }

  /** With 3 nodes: size 3 and delta 1 or -1 are refused with their messages; size 4 and delta -1 is accepted. */
  lemma DecreaseTargetSizeExamples()
    ensures DecreaseTargetSizeCheck(3, 3, 1) == Some(SizeDecreaseNotNegative)
    ensures ErrorMessage(SizeDecreaseNotNegative) == "size decrease must be negative"
    ensures DecreaseTargetSizeCheck(3, 3, -1) == Some(DecreaseBelowExistingNodes(3, -1, 3))
    ensures ErrorMessage(DecreaseBelowExistingNodes(3, -1, 3))
      == "attempt to delete existing nodes targetSize:3 delta:-1 existingNodes: 3"
    ensures DecreaseTargetSizeCheck(4, 3, -1).None?
  {
    assert NatToString(3) == "3";
    assert NatToString(1) == "1";
  }

  /** Ten members with distinct ids, none being deleted: deleting the last five annotates exactly those and leaves 5 replicas. */
  lemma DeleteFiveOfTen(ms: seq<Machine>, group: string)
    requires |ms| == 10 && DistinctIds(ms)
    requires forall i :: 0 <= i < 10 ==> MemberId(ms[i]).Some? && !ms[i].deletionTimestamp && !ms[i].deleteAnnotation
    ensures DeleteNodesCheck(10, ms, MemberIds(ms)[5..], group).None?
    ensures 10 - PendingCount(ms, MemberIds(ms)[5..]) == 5
    ensures forall i :: 0 <= i < 10 ==> (MarkedForDeletion(ms, MemberIds(ms)[5..])[i].deleteAnnotation <==> 5 <= i)
  {
    var nodes := MemberIds(ms)[5..];
    forall n | n in nodes ensures IndexOf(ms, n).Some? && IsPending(ms, n) {
      var k :| 5 <= k < 10 && MemberId(ms[k]) == Some(n);
      IndexOfFirstMatch(ms, n, k);
    }
    NoForeignWhenAllMembers(ms, nodes);
    PendingCountOfFreshNodes(ms, nodes);
    forall i | 0 <= i < 10
      ensures MarkedForDeletion(ms, nodes)[i].deleteAnnotation <==> 5 <= i
    {
      MarkedExactly(ms, nodes, i);
      if MemberId(ms[i]).value in nodes {
        var k :| 0 <= k < 5 && nodes[k] == MemberId(ms[i]).value;
        assert MemberId(ms[k + 5]) == MemberId(ms[i]);
        assert i == k + 5;
      }
    }
  }

  /** Ten fresh members: deleting the last three twice, with deletion timestamps set in between, leaves 7 replicas. */
  lemma {:induction false} DeleteThreeOfTenTwice(ms: seq<Machine>, group: string, nodes: seq<string>, ms2: seq<Machine>)
    requires |ms| == 10 && DistinctIds(ms)
    requires forall i :: 0 <= i < 10 ==> MemberId(ms[i]).Some? && !ms[i].deletionTimestamp
    requires nodes == MemberIds(ms)[7..]
    requires ms2 == WithDeletionTimestamps(MarkedForDeletion(ms, nodes), nodes)
    ensures DeleteNodesCheck(10, ms, nodes, group).None? && 10 - PendingCount(ms, nodes) == 7
    ensures DeleteNodesCheck(7, ms2, nodes, group).None? && 7 - PendingCount(ms2, nodes) == 7
  {
    forall n | n in nodes ensures IndexOf(ms, n).Some? && IsPending(ms, n) {
      var k :| 7 <= k < 10 && MemberId(ms[k]) == Some(n);
      IndexOfFirstMatch(ms, n, k);
    }
    NoForeignWhenAllMembers(ms, nodes);
    PendingCountOfFreshNodes(ms, nodes);
    AllDeletingAfterTimestamps(ms, nodes);
    SecondDeleteIsNoOp(7, ms2, nodes, group);
  }

  /** A scale-from-zero group with 2 cpus and 2048MiB: capacity in bytes, 250 pods and no GPUs. */
  lemma TemplateCapacityExample()
    ensures TemplateCapacity(2, 2048, None) == map["cpu" := 2, "memory" := 2147483648, "pods" := 250, "nvidia.com/gpu" := 0]
  {
  }

  /** Without a live node, the template carries the defaults, the host name and the template's labels. */
  lemma TemplateLabelsWithoutLiveNode(hostname: string, tmpl: Labels)
    requires tmpl == map["nodeGroupLabel" := "value", "anotherLabel" := "anotherValue"]
    ensures TemplateLabels(hostname, None, tmpl) == map[
      "kubernetes.io/os" := "linux", "beta.kubernetes.io/os" := "linux",
      "kubernetes.io/arch" := "amd64", "beta.kubernetes.io/arch" := "amd64",
      "kubernetes.io/hostname" := hostname,
      "nodeGroupLabel" := "value", "anotherLabel" := "anotherValue"]
  {
    assert DefaultLabels(hostname) + map[] == DefaultLabels(hostname);
  }

  /** A machine without a node is passed over: the os label comes from the next member's visible node. */
  lemma LaterLiveNodeInherited(hostname: string, ms: seq<Machine>, tmpl: Labels)
    requires |ms| >= 2 && ms[0].nodeLabels.None? && HasLiveNode(ms[1])
    requires LabelOS in ms[1].nodeLabels.value && LabelOS !in tmpl
    ensures TemplateLabels(hostname, FirstLiveNode(ms), tmpl)[LabelOS] == ms[1].nodeLabels.value[LabelOS]
  {
    FirstLiveNodeAt(ms, 1);
  }

  /** A live node's operating system label overrides the default; the beta label it lacks keeps its default. */
  lemma TemplateLiveNodeOS(hostname: string, live: Labels, tmpl: Labels)
    requires live == map["kubernetes.io/os" := "windows", "kubernetes.io/arch" := "arm64",
                         "node.kubernetes.io/instance-type" := "instance1", "anotherLabel" := "nodeValue"]
    requires tmpl == map["nodeGroupLabel" := "value", "anotherLabel" := "anotherValue"]
    ensures var r := TemplateLabels(hostname, Some(live), tmpl);
      r["kubernetes.io/os"] == "windows" && r["beta.kubernetes.io/os"] == "linux"
  {
    assert "kubernetes.io/os" in live && "kubernetes.io/os" in WellKnownLabels && "kubernetes.io/os" !in tmpl;
    assert "beta.kubernetes.io/os" !in live && "beta.kubernetes.io/os" !in tmpl;
  }

  /** A live node's architecture label overrides the default; the beta label it lacks keeps its default. */
  lemma TemplateLiveNodeArch(hostname: string, live: Labels, tmpl: Labels)
    requires live == map["kubernetes.io/os" := "windows", "kubernetes.io/arch" := "arm64",
                         "node.kubernetes.io/instance-type" := "instance1", "anotherLabel" := "nodeValue"]
    requires tmpl == map["nodeGroupLabel" := "value", "anotherLabel" := "anotherValue"]
    ensures var r := TemplateLabels(hostname, Some(live), tmpl);
      r["kubernetes.io/arch"] == "arm64" && r["beta.kubernetes.io/arch"] == "amd64"
  {
    assert "kubernetes.io/arch" in live && "kubernetes.io/arch" in WellKnownLabels && "kubernetes.io/arch" !in tmpl;
    assert "beta.kubernetes.io/arch" !in live && "beta.kubernetes.io/arch" !in tmpl;
  }

  /** The host name label is the given host name; a well-known live label absent from the defaults is copied. */
  lemma TemplateLiveNodeHostAndInstanceType(hostname: string, live: Labels, tmpl: Labels)
    requires live == map["kubernetes.io/os" := "windows", "kubernetes.io/arch" := "arm64",
                         "node.kubernetes.io/instance-type" := "instance1", "anotherLabel" := "nodeValue"]
    requires tmpl == map["nodeGroupLabel" := "value", "anotherLabel" := "anotherValue"]
    ensures var r := TemplateLabels(hostname, Some(live), tmpl);
      r["kubernetes.io/hostname"] == hostname && r["node.kubernetes.io/instance-type"] == "instance1"
  {
    assert "kubernetes.io/hostname" !in live && "kubernetes.io/hostname" !in tmpl;
    assert "node.kubernetes.io/instance-type" in live && "node.kubernetes.io/instance-type" in WellKnownLabels;
    assert "node.kubernetes.io/instance-type" !in tmpl;
  }

  /** The template's labels are kept; the live node's label outside the well-known set is not copied. */
  lemma TemplateLabelsKeepTemplateValues(hostname: string, live: Labels, tmpl: Labels)
    requires live == map["kubernetes.io/os" := "windows", "kubernetes.io/arch" := "arm64",
                         "node.kubernetes.io/instance-type" := "instance1", "anotherLabel" := "nodeValue"]
    requires tmpl == map["nodeGroupLabel" := "value", "anotherLabel" := "anotherValue"]
    ensures var r := TemplateLabels(hostname, Some(live), tmpl);
      r["nodeGroupLabel"] == "value" && r["anotherLabel"] == "anotherValue"
  {
    assert "nodeGroupLabel" in tmpl && "anotherLabel" in tmpl;
  }

  /** With the live node, the template carries eight labels: the host name and the seven the test expects. */
  lemma TemplateLiveNodeLabelKeys(hostname: string, live: Labels, tmpl: Labels)
    requires live == map["kubernetes.io/os" := "windows", "kubernetes.io/arch" := "arm64",
                         "node.kubernetes.io/instance-type" := "instance1", "anotherLabel" := "nodeValue"]
    requires tmpl == map["nodeGroupLabel" := "value", "anotherLabel" := "anotherValue"]
    ensures TemplateLabels(hostname, Some(live), tmpl).Keys == {
      "kubernetes.io/os", "beta.kubernetes.io/os", "kubernetes.io/arch", "beta.kubernetes.io/arch",
      "kubernetes.io/hostname", "node.kubernetes.io/instance-type", "nodeGroupLabel", "anotherLabel"}
  {
    assert WellKnownOf(live).Keys == {"kubernetes.io/os", "kubernetes.io/arch", "node.kubernetes.io/instance-type"};
  }
}
