/**
 * The OpenShift machine-API variant of the node-similarity test used to
 * group node groups into node-group sets: two nodes are similar when
 * their capacities agree within an absolute memory tolerance, their
 * allocatable and free resources pass the ratio comparison, and every
 * label outside a small ignore-set is equal on both.
 *
 * Quantities are integers in base units (bytes, cores, ...). The ratio
 * comparison of allocatable and free resources is defined outside this
 * file; it enters as a predicate parameter over the grouped quantities.
 */
module NodeGroupSet {

  type ResourceName = string
  type Quantity = int
  type ResourceList = map<ResourceName, Quantity>
  type Labels = map<string, string>

  /** The part of a scheduler node description the comparison reads. */
  datatype NodeInfo = NodeInfo(
    capacity: ResourceList,
    allocatable: ResourceList,
    requested: ResourceList,
    labels: Labels)

  /** Per resource name, the quantities reported by each node in turn. */
  type ResourceGroups = map<ResourceName, seq<Quantity>>

  /** The ratio comparison applied to grouped allocatable or free quantities. */
  type GroupComparison = ResourceGroups -> bool

  /** How far two capacities may differ and still be equal: 128Ki. */
  const MaxMemoryDifferenceInKiloBytes: Quantity := 128 * 1024

  const LabelHostname: string := "kubernetes.io/hostname"
  const LabelZoneFailureDomain: string := "failure-domain.beta.kubernetes.io/zone"
  const LabelZoneRegion: string := "failure-domain.beta.kubernetes.io/region"
  /** Internal marker of the fluentd daemon-set migration. */
  const LabelFluentdDsReady: string := "beta.kubernetes.io/fluentd-ds-ready"

  /** Labels that never take part in the comparison. */
  const IgnoredLabels: set<string> :=
    {LabelHostname, LabelZoneFailureDomain, LabelZoneRegion, LabelFluentdDsReady}

  // ---------------------------------------------------------------------
  // Specification

  /** x lies in the closed band of half-width tolerance around y. */
  predicate WithinTolerance(x: Quantity, y: Quantity, tolerance: Quantity) {
    y - tolerance <= x <= y + tolerance
  }

  /** Every capacity resource is reported by both nodes, within 128Ki. */
  predicate CapacitiesMatch(c1: ResourceList, c2: ResourceList) {
    && c1.Keys == c2.Keys
    && forall res :: res in c1 ==> WithinTolerance(c1[res], c2[res], MaxMemoryDifferenceInKiloBytes)
  }

  /** Every label outside the ignore-set is on both nodes or on neither, with equal values. */
  predicate LabelsMatch(l1: Labels, l2: Labels) {
    forall l :: l in l1.Keys + l2.Keys && l !in IgnoredLabels ==> l in l1 && l in l2 && l1[l] == l2[l]
  }

  function AllocatableOrZero(node: NodeInfo, res: ResourceName): Quantity {
    if res in node.allocatable then node.allocatable[res] else 0
  }

  /** Free resources: allocatable minus requested, for every requested resource. */
  function Free(allocatable: ResourceList, requested: ResourceList): ResourceList {
    map res | res in requested :: (if res in allocatable then allocatable[res] else 0) - requested[res]
  }

  function FreeOf(node: NodeInfo): ResourceList {
    Free(node.allocatable, node.requested)
  }

  /** The value of k in m as a list of at most one element. */
  function Opt<V>(m: map<string, V>, k: string): seq<V> {
    if k in m then [m[k]] else []
  }

  function ValuesAt<V>(groups: map<string, seq<V>>, k: string): seq<V> {
    if k in groups then groups[k] else []
  }

  /** Per key, the value it has in m1 followed by the value it has in m2. */
  function Grouped<V>(m1: map<string, V>, m2: map<string, V>): map<string, seq<V>> {
    map k | k in m1.Keys + m2.Keys :: Opt(m1, k) + Opt(m2, k)
  }

  /** The values k has in the first i maps of ms, in order. */
  function ValuesUpTo<V>(ms: seq<map<string, V>>, i: nat, k: string): seq<V>
    requires i <= |ms|
  {
    if i == 0 then [] else ValuesUpTo(ms, i - 1, k) + Opt(ms[i - 1], k)
  }

  /** The verdict of the similarity test, check by check. */
  predicate Similar(n1: NodeInfo, n2: NodeInfo, allocatableSimilar: GroupComparison, freeSimilar: GroupComparison) {
    && CapacitiesMatch(n1.capacity, n2.capacity)
    && allocatableSimilar(Grouped(n1.allocatable, n2.allocatable))
    && freeSimilar(Grouped(FreeOf(n1), FreeOf(n2)))
    && LabelsMatch(n1.labels, n2.labels)
  }

  predicate PairWithinTolerance(qs: seq<Quantity>, tolerance: Quantity) {
    |qs| == 2 && WithinTolerance(qs[0], qs[1], tolerance)
  }

  predicate PairEqual(vs: seq<string>) {
    |vs| == 2 && vs[0] == vs[1]
  }

  // ---------------------------------------------------------------------
  // Operations

  /** Subtract, negate when negative, compare: true exactly when |x - y| <= tolerance. */
  method CompareResourceEqualWithTolerance(x: Quantity, y: Quantity, tolerance: Quantity) returns (equal: bool)
    ensures equal == WithinTolerance(x, y, tolerance)
  {
    var d := x;
    d := d - y;
    if d < 0 {
      d := -d;
    }
    equal := !(d > tolerance);
  }

  /** Append every entry of m whose key is not in skip to groups. */
  method AppendValues<V>(groups: map<string, seq<V>>, m: map<string, V>, skip: set<string>)
    returns (r: map<string, seq<V>>)
    ensures r.Keys == groups.Keys + (m - skip).Keys
    ensures forall k :: k in r ==> r[k] == ValuesAt(groups, k) + Opt(m - skip, k)
  {
    r := groups;
    var todo := m.Keys;
    while todo != {}
      invariant todo <= m.Keys
      invariant r.Keys == groups.Keys + (m.Keys - todo - skip)
      invariant forall k :: k in r ==>
        r[k] == ValuesAt(groups, k) + (if k in m && k !in todo && k !in skip then [m[k]] else [])
      decreases todo
    {
      var k :| k in todo;
      if k !in skip {
        r := r[k := ValuesAt(r, k) + [m[k]]];
      }
      todo := todo - {k};
    }
  }

  /** The free quantity of every requested resource; the node itself is a value and stays as it was. */
  method FreeResources(node: NodeInfo) returns (free: ResourceList)
    ensures free.Keys == node.requested.Keys
    ensures forall res :: res in free ==> free[res] + node.requested[res] == AllocatableOrZero(node, res)
  {
    free := map[];
    var todo := node.requested.Keys;
    while todo != {}
      invariant todo <= node.requested.Keys
      invariant free.Keys == node.requested.Keys - todo
      invariant forall res :: res in free ==> free[res] + node.requested[res] == AllocatableOrZero(node, res)
      decreases todo
    {
      var res :| res in todo;
      var freeRes := AllocatableOrZero(node, res);
      freeRes := freeRes - node.requested[res];
      free := free[res := freeRes];
      todo := todo - {res};
    }
  }

  /** The capacity loop: false as soon as a resource lacks a pair of close quantities. */
  method CapacityGroupsWithinTolerance(capacity: ResourceGroups, tolerance: Quantity) returns (ok: bool)
    ensures ok <==> forall res :: res in capacity ==> PairWithinTolerance(capacity[res], tolerance)
  {
    var todo := capacity.Keys;
    while todo != {}
      invariant todo <= capacity.Keys
      invariant forall res :: res in capacity && res !in todo ==> PairWithinTolerance(capacity[res], tolerance)
      decreases todo
    {
      var res :| res in todo;
      var qtyList := capacity[res];
      if |qtyList| != 2 {
        return false;
      }
      var equal := CompareResourceEqualWithTolerance(qtyList[0], qtyList[1], tolerance);
      if !equal {
        return false;
      }
      todo := todo - {res};
    }
    return true;
  }

  /** The label loop: false as soon as a label lacks a pair of equal values. */
  method LabelGroupsEqual(labels: map<string, seq<string>>) returns (ok: bool)
    ensures ok <==> forall l :: l in labels ==> PairEqual(labels[l])
  {
    var todo := labels.Keys;
    while todo != {}
      invariant todo <= labels.Keys
      invariant forall l :: l in labels && l !in todo ==> PairEqual(labels[l])
      decreases todo
    {
      var l :| l in todo;
      var labelValues := labels[l];
      if |labelValues| != 2 || labelValues[0] != labelValues[1] {
        return false;
      }
      todo := todo - {l};
    }
    return true;
  }

  /**
   * Gather capacity, allocatable and free quantities and the non-ignored
   * labels of both nodes, then check capacity, allocatable, free and
   * labels in that order, returning false at the first failing check.
   */
  method IsOpenShiftNodeInfoSimilar(n1: NodeInfo, n2: NodeInfo, allocatableSimilar: GroupComparison, freeSimilar: GroupComparison)
    returns (similar: bool)
    ensures similar == Similar(n1, n2, allocatableSimilar, freeSimilar)
  {
    var nodes := [n1, n2];
    var capacity, allocatable, free := GatherResources(nodes);
    var capacityOk := CapacityGroupsWithinTolerance(capacity, MaxMemoryDifferenceInKiloBytes);
    CapacityGroupsMeaning(n1.capacity, n2.capacity);
    if !capacityOk {
      return false;
    }
    if !allocatableSimilar(allocatable) {
      return false;
    }
    if !freeSimilar(free) {
      return false;
    }

    var labels := GatherLabels(nodes);
    var labelsOk := LabelGroupsEqual(labels);
    LabelGroupsMeaning(n1.labels, n2.labels);
    return labelsOk;
  }

  /** The first loop over both nodes: capacity, allocatable and free quantities per resource. */
  method GatherResources(nodes: seq<NodeInfo>) returns (capacity: ResourceGroups, allocatable: ResourceGroups, free: ResourceGroups)
    requires |nodes| == 2
    ensures capacity == Grouped(nodes[0].capacity, nodes[1].capacity)
    ensures allocatable == Grouped(nodes[0].allocatable, nodes[1].allocatable)
    ensures free == Grouped(FreeOf(nodes[0]), FreeOf(nodes[1]))
  {
    capacity, allocatable, free := map[], map[], map[];
    ghost var caps := [nodes[0].capacity, nodes[1].capacity];
    ghost var allocs := [nodes[0].allocatable, nodes[1].allocatable];
    ghost var frees := [FreeOf(nodes[0]), FreeOf(nodes[1])];
    for i := 0 to |nodes|
      invariant GroupsUpTo(capacity, caps, i)
      invariant GroupsUpTo(allocatable, allocs, i)
      invariant GroupsUpTo(free, frees, i)
    {
      var node := nodes[i];
      assert caps[i] == node.capacity && allocs[i] == node.allocatable && frees[i] == FreeOf(node);
      var capacity0, allocatable0, free0 := capacity, allocatable, free;
      capacity := AppendValues(capacity, node.capacity, {});
      ExtendGroups(capacity0, capacity, caps, i, node.capacity, {});
      allocatable := AppendValues(allocatable, node.allocatable, {});
      ExtendGroups(allocatable0, allocatable, allocs, i, node.allocatable, {});
      var nodeFree := FreeResources(node);
      FreeResourcesIsFreeOf(node, nodeFree);
      free := AppendValues(free, nodeFree, {});
      ExtendGroups(free0, free, frees, i, nodeFree, {});
    }
    GroupsOfPair(capacity, nodes[0].capacity, nodes[1].capacity);
    GroupsOfPair(allocatable, nodes[0].allocatable, nodes[1].allocatable);
    GroupsOfPair(free, FreeOf(nodes[0]), FreeOf(nodes[1]));
  }

  /** The label loop over both nodes: the values of every label outside the ignore-set. */
  method GatherLabels(nodes: seq<NodeInfo>) returns (labels: map<string, seq<string>>)
    requires |nodes| == 2
    ensures labels == Grouped(nodes[0].labels - IgnoredLabels, nodes[1].labels - IgnoredLabels)
  {
    labels := map[];
    ghost var labs := [nodes[0].labels - IgnoredLabels, nodes[1].labels - IgnoredLabels];
    for i := 0 to |nodes|
      invariant GroupsUpTo(labels, labs, i)
    {
      var labels0 := labels;
      labels := AppendValues(labels, nodes[i].labels, IgnoredLabels);
      ExtendGroups(labels0, labels, labs, i, nodes[i].labels, IgnoredLabels);
    }
    GroupsOfPair(labels, nodes[0].labels - IgnoredLabels, nodes[1].labels - IgnoredLabels);
  }

  // ---------------------------------------------------------------------
  // Loop bookkeeping

  /** groups holds, per key, exactly the values the key has in the first i maps of ms. */
  ghost predicate GroupsUpTo<V>(groups: map<string, seq<V>>, ms: seq<map<string, V>>, i: nat)
    requires i <= |ms|
  {
    forall k :: (k in groups <==> ValuesUpTo(ms, i, k) != []) && (k in groups ==> groups[k] == ValuesUpTo(ms, i, k))
  }

  /** Appending the i-th map's entries extends the bookkeeping from i to i + 1 maps. */
  lemma ExtendGroups<V>(groups: map<string, seq<V>>, r: map<string, seq<V>>, ms: seq<map<string, V>>, i: nat, m: map<string, V>, skip: set<string>)
    requires i < |ms| && GroupsUpTo(groups, ms, i)
    requires ms[i] == m - skip || (skip == {} && ms[i] == m)
    requires r.Keys == groups.Keys + (m - skip).Keys
    requires forall k :: k in r ==> r[k] == ValuesAt(groups, k) + Opt(m - skip, k)
    ensures GroupsUpTo(r, ms, i + 1)
  {
    assert m - {} == m;
    forall k ensures (k in r <==> ValuesUpTo(ms, i + 1, k) != []) && (k in r ==> r[k] == ValuesUpTo(ms, i + 1, k)) {
      assert ValuesUpTo(ms, i + 1, k) == ValuesUpTo(ms, i, k) + Opt(ms[i], k);
    }
  }

  /** The loop of FreeResources computes FreeOf. */
  lemma FreeResourcesIsFreeOf(node: NodeInfo, free: ResourceList)
    requires free.Keys == node.requested.Keys
    requires forall res :: res in free ==> free[res] + node.requested[res] == AllocatableOrZero(node, res)
    ensures free == FreeOf(node)
  {
  }

  /** After both maps, the bookkeeping pins down the grouped map. */
  lemma GroupsOfPair<V>(g: map<string, seq<V>>, m1: map<string, V>, m2: map<string, V>)
    requires GroupsUpTo(g, [m1, m2], 2)
    ensures g == Grouped(m1, m2)
  {
    var ms := [m1, m2];
    forall k ensures ValuesUpTo(ms, 2, k) == Opt(m1, k) + Opt(m2, k) {
      assert ValuesUpTo(ms, 1, k) == Opt(m1, k);
    }
    assert g.Keys == Grouped(m1, m2).Keys;
  }

  // ---------------------------------------------------------------------
  // Properties

  /** The grouped capacity check is the same as CapacitiesMatch. */
  lemma CapacityGroupsMeaning(c1: ResourceList, c2: ResourceList)
    ensures (forall res :: res in Grouped(c1, c2) ==> PairWithinTolerance(Grouped(c1, c2)[res], MaxMemoryDifferenceInKiloBytes))
            <==> CapacitiesMatch(c1, c2)
  {
    var g := Grouped(c1, c2);
    if forall res :: res in g ==> PairWithinTolerance(g[res], MaxMemoryDifferenceInKiloBytes) {
      forall res | res in c1 || res in c2
        ensures res in c1 && res in c2 && WithinTolerance(c1[res], c2[res], MaxMemoryDifferenceInKiloBytes)
      {
        assert res in g;
        assert g[res] == Opt(c1, res) + Opt(c2, res);
        assert |g[res]| == 2;
      }
    } else {
      var res :| res in g && !PairWithinTolerance(g[res], MaxMemoryDifferenceInKiloBytes);
      assert g[res] == Opt(c1, res) + Opt(c2, res);
    }
  }

  /** The grouped label check is the same as LabelsMatch. */
  lemma LabelGroupsMeaning(l1: Labels, l2: Labels)
    ensures (forall l :: l in Grouped(l1 - IgnoredLabels, l2 - IgnoredLabels) ==> PairEqual(Grouped(l1 - IgnoredLabels, l2 - IgnoredLabels)[l]))
            <==> LabelsMatch(l1, l2)
  {
    var a, b := l1 - IgnoredLabels, l2 - IgnoredLabels;
    var g := Grouped(a, b);
    if forall l :: l in g ==> PairEqual(g[l]) {
      forall l | l in l1.Keys + l2.Keys && l !in IgnoredLabels
        ensures l in l1 && l in l2 && l1[l] == l2[l]
      {
        assert l in a || l in b;
        assert l in g;
        assert |g[l]| == 2;
      }
    } else {
      var l :| l in g && !PairEqual(g[l]);
      assert l !in IgnoredLabels;
    }
  }

  lemma WithinToleranceSymmetric(x: Quantity, y: Quantity, tolerance: Quantity)
    ensures WithinTolerance(x, y, tolerance) == WithinTolerance(y, x, tolerance)
  {
  }

  /** The capacity check gives the same verdict with the nodes swapped. */
  lemma CapacitiesMatchSymmetric(c1: ResourceList, c2: ResourceList)
    ensures CapacitiesMatch(c1, c2) == CapacitiesMatch(c2, c1)
  {
  }

  /** The label check gives the same verdict with the nodes swapped. */
  lemma LabelsMatchSymmetric(l1: Labels, l2: Labels)
    ensures LabelsMatch(l1, l2) == LabelsMatch(l2, l1)
  {
  }

  /** The label check holds exactly when the two label maps agree once the ignored labels are dropped. */
  lemma LabelsMatchIffEqualOutsideIgnored(l1: Labels, l2: Labels)
    ensures LabelsMatch(l1, l2) <==> l1 - IgnoredLabels == l2 - IgnoredLabels
  {
    if LabelsMatch(l1, l2) {
      var a, b := l1 - IgnoredLabels, l2 - IgnoredLabels;
      forall l ensures l in a <==> l in b {
        if l !in IgnoredLabels && (l in l1 || l in l2) {
          assert l in l1.Keys + l2.Keys;
        }
      }
      assert a.Keys == b.Keys;
      forall l | l in a ensures a[l] == b[l] {
        assert l !in IgnoredLabels;
      }
    } else {
      var l :| l in l1.Keys + l2.Keys && l !in IgnoredLabels && !(l in l1 && l in l2 && l1[l] == l2[l]);
      if l in l1 && l in l2 {
        assert (l1 - IgnoredLabels)[l] != (l2 - IgnoredLabels)[l];
      } else {
        assert (l in l1 - IgnoredLabels) != (l in l2 - IgnoredLabels);
      }
    }
  }

  /** A capacity resource reported by only one node makes the nodes dissimilar. */
  lemma OneSidedCapacityDissimilar(n1: NodeInfo, n2: NodeInfo, res: ResourceName, allocatableSimilar: GroupComparison, freeSimilar: GroupComparison)
    requires (res in n1.capacity) != (res in n2.capacity)
    ensures !Similar(n1, n2, allocatableSimilar, freeSimilar)
  {
  }

  /** Capacities further apart than 128Ki make the nodes dissimilar. */
  lemma CapacityBeyondToleranceDissimilar(n1: NodeInfo, n2: NodeInfo, res: ResourceName, allocatableSimilar: GroupComparison, freeSimilar: GroupComparison)
    requires res in n1.capacity && res in n2.capacity
    requires n1.capacity[res] - n2.capacity[res] > 131072 || n2.capacity[res] - n1.capacity[res] > 131072
    ensures !Similar(n1, n2, allocatableSimilar, freeSimilar)
  {
  }

  /** A non-ignored label missing on one node, or with different values, makes the nodes dissimilar. */
  lemma LabelMismatchDissimilar(n1: NodeInfo, n2: NodeInfo, l: string, allocatableSimilar: GroupComparison, freeSimilar: GroupComparison)
    requires l !in IgnoredLabels
    requires (l in n1.labels) != (l in n2.labels) || (l in n1.labels && l in n2.labels && n1.labels[l] != n2.labels[l])
    ensures !Similar(n1, n2, allocatableSimilar, freeSimilar)
  {
  }

  /** Changing only the hostname, zone, region and fluentd labels of either node leaves the verdict unchanged. */
  lemma IgnoredLabelsIrrelevant(n1: NodeInfo, n2: NodeInfo, labels1: Labels, labels2: Labels, allocatableSimilar: GroupComparison, freeSimilar: GroupComparison)
    requires forall l :: l !in IgnoredLabels ==> (l in labels1 <==> l in n1.labels) && (l in labels1 ==> labels1[l] == n1.labels[l])
    requires forall l :: l !in IgnoredLabels ==> (l in labels2 <==> l in n2.labels) && (l in labels2 ==> labels2[l] == n2.labels[l])
    ensures Similar(n1.(labels := labels1), n2.(labels := labels2), allocatableSimilar, freeSimilar)
         == Similar(n1, n2, allocatableSimilar, freeSimilar)
  {
    LabelsMatchTransfer(n1.labels, n2.labels, labels1, labels2);
    LabelsMatchTransfer(labels1, labels2, n1.labels, n2.labels);
  }

  /** Label matching only looks at labels outside the ignore-set. */
  lemma LabelsMatchTransfer(l1: Labels, l2: Labels, m1: Labels, m2: Labels)
    requires forall l :: l !in IgnoredLabels ==> (l in m1 <==> l in l1) && (l in m1 ==> m1[l] == l1[l])
    requires forall l :: l !in IgnoredLabels ==> (l in m2 <==> l in l2) && (l in m2 ==> m2[l] == l2[l])
    ensures LabelsMatch(l1, l2) ==> LabelsMatch(m1, m2)
  {
    if LabelsMatch(l1, l2) {
      forall l | l in m1.Keys + m2.Keys && l !in IgnoredLabels
        ensures l in m1 && l in m2 && m1[l] == m2[l]
      {
        assert l in l1.Keys + l2.Keys;
      }
    }
  }

  /** Free quantities are allocatable minus requested, a missing allocatable entry counting as zero. */
  lemma FreeIsAllocatableMinusRequested(node: NodeInfo, res: ResourceName)
    requires res in node.requested
    ensures res in FreeOf(node)
    ensures FreeOf(node)[res] == (if res in node.allocatable then node.allocatable[res] else 0) - node.requested[res]
  {
  }

  /** Two nodes equal but for a 64Ki memory capacity difference pass the capacity check; at 1Mi they do not. */
  lemma MemoryJitterExamples()
    ensures CapacitiesMatch(map["cpu" := 2, "memory" := 4 * 1024 * 1024 * 1024],
                            map["cpu" := 2, "memory" := 4 * 1024 * 1024 * 1024 + 64 * 1024])
    ensures !CapacitiesMatch(map["cpu" := 2, "memory" := 4 * 1024 * 1024 * 1024],
                             map["cpu" := 2, "memory" := 4 * 1024 * 1024 * 1024 + 1024 * 1024])
  {
    var a := map["cpu" := 2, "memory" := 4 * 1024 * 1024 * 1024];
    var b := map["cpu" := 2, "memory" := 4 * 1024 * 1024 * 1024 + 64 * 1024];
    var c := map["cpu" := 2, "memory" := 4 * 1024 * 1024 * 1024 + 1024 * 1024];
    assert a.Keys == b.Keys == {"cpu", "memory"};
    assert c["memory"] - a["memory"] > MaxMemoryDifferenceInKiloBytes;
  }
}
