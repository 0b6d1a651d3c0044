/**
 * The live headroom snapshot: per-node requests summed over live pods, and cluster totals summed
 * over schedulable nodes. Sums are int64 and wrap as Go's do.
 */
module HeadroomProvider {
  import opened Core
  import opened Headroom

  datatype Dimension = CpuDim | MemDim

  function At(r: Resources, d: Dimension): int64 { if d == CpuDim then r.cpu else r.mem }

  /** A container's requests after quantity conversion; a missing request is zero. */
  datatype PodSpec = PodSpec(containers: seq<Resources>, initContainers: seq<Resources>)

  datatype Phase = Pending | Running | Succeeded | Failed | UnknownPhase

  datatype Pod = Pod(nodeName: string, phase: Phase, spec: PodSpec)

  datatype Condition = Condition(isReady: bool, isTrue: bool)

  datatype ClusterNode = ClusterNode(
    name: string, unschedulable: bool, conditions: seq<Condition>, allocatable: Resources)

  const ZERO := Resources(0, 0)

  function AddResources(left: Resources, right: Resources): Resources {
    Resources(Wrap64(left.cpu + right.cpu), Wrap64(left.mem + right.mem))
  }

  function MaxResource(left: int64, right: int64): int64 { if left > right then left else right }

  // ---- exact sums, before any wrap-around ----

  function Sum(rs: seq<Resources>, d: Dimension): int {
    if rs == [] then 0 else Sum(rs[..|rs| - 1], d) + At(rs[|rs| - 1], d)
  }

  function Wrapped(cpu: int, mem: int): Resources { Resources(Wrap64(cpu), Wrap64(mem)) }

  lemma AddToWrapped(cpu: int, mem: int, r: Resources)
    ensures AddResources(Wrapped(cpu, mem), r) == Wrapped(cpu + r.cpu, mem + r.mem)
  {
    WrapAccumulates(cpu, r.cpu);
    WrapAccumulates(mem, r.mem);
  }

  // ---- pod requests ----

  method ResourceTotals(containers: seq<Resources>) returns (total: Resources)
    ensures total == Wrapped(Sum(containers, CpuDim), Sum(containers, MemDim))
  {
    total := ZERO;
    for i := 0 to |containers|
      invariant total == Wrapped(Sum(containers[..i], CpuDim), Sum(containers[..i], MemDim))
    {
      assert containers[..i + 1][..i] == containers[..i];
      AddToWrapped(Sum(containers[..i], CpuDim), Sum(containers[..i], MemDim), containers[i]);
      total := AddResources(total, containers[i]);
    }
    assert containers[..|containers|] == containers;
  }

  /** `x` is the largest request in dimension `d`, or zero when none is positive. */
  predicate IsPeak(rs: seq<Resources>, d: Dimension, x: int) {
    && x >= 0
    && (forall i :: 0 <= i < |rs| ==> At(rs[i], d) <= x)
    && (x == 0 || exists i :: 0 <= i < |rs| && At(rs[i], d) == x)
  }

  method InitContainerMax(containers: seq<Resources>) returns (peak: Resources)
    ensures IsPeak(containers, CpuDim, peak.cpu) && IsPeak(containers, MemDim, peak.mem)
  {
    peak := ZERO;
    for i := 0 to |containers|
      invariant IsPeak(containers[..i], CpuDim, peak.cpu)
      invariant IsPeak(containers[..i], MemDim, peak.mem)
    {
      PeakGrows(containers, i, CpuDim, peak.cpu);
      PeakGrows(containers, i, MemDim, peak.mem);
      peak := Resources(MaxResource(peak.cpu, containers[i].cpu), MaxResource(peak.mem, containers[i].mem));
    }
    assert containers[..|containers|] == containers;
  }

  lemma PeakGrows(rs: seq<Resources>, i: nat, d: Dimension, x: int64)
    requires i < |rs| && IsPeak(rs[..i], d, x)
    ensures IsPeak(rs[..i + 1], d, MaxResource(x, At(rs[i], d)))
  {
    var y := MaxResource(x, At(rs[i], d));
    if y != 0 {
      if y == x {
        var j :| 0 <= j < i && At(rs[..i][j], d) == x;
        assert At(rs[..i + 1][j], d) == y;
      } else {
        assert At(rs[..i + 1][i], d) == y;
      }
    }
    assert forall j :: 0 <= j < i ==> At(rs[..i][j], d) <= x && rs[..i + 1][j] == rs[..i][j];
  }

  /** A pod asks for its containers' total or its hungriest init container, whichever is more. */
  predicate IsPodRequest(spec: PodSpec, r: Resources) {
    forall d :: IsPodRequestIn(spec, d, At(r, d))
  }

  predicate IsPodRequestIn(spec: PodSpec, d: Dimension, x: int64) {
    var total := Wrap64(Sum(spec.containers, d));
    && x >= total && x >= 0
    && (forall i :: 0 <= i < |spec.initContainers| ==> At(spec.initContainers[i], d) <= x)
    && (x == total || IsPeak(spec.initContainers, d, x))
  }

  method PodSpecRequests(spec: PodSpec) returns (r: Resources)
    ensures IsPodRequest(spec, r)
    ensures r == PodRequest(spec)
  {
    var regular := ResourceTotals(spec.containers);
    var init := InitContainerMax(spec.initContainers);
    r := Resources(MaxResource(regular.cpu, init.cpu), MaxResource(regular.mem, init.mem));
    assert At(r, CpuDim) == r.cpu && At(r, MemDim) == r.mem;
    assert IsPodRequestIn(spec, CpuDim, r.cpu) && IsPodRequestIn(spec, MemDim, r.mem);
    PeakIsUnique(spec.initContainers, CpuDim, init.cpu);
    PeakIsUnique(spec.initContainers, MemDim, init.mem);
  }

  function Peak(rs: seq<Resources>, d: Dimension): int64 {
    if rs == [] then 0 else MaxResource(Peak(rs[..|rs| - 1], d), At(rs[|rs| - 1], d))
  }

  lemma {:induction false} PeakIsPeak(rs: seq<Resources>, d: Dimension)
    ensures IsPeak(rs, d, Peak(rs, d))
  {
    if rs != [] {
      var i := |rs| - 1;
      PeakIsPeak(rs[..i], d);
      PeakGrows(rs, i, d, Peak(rs[..i], d));
      assert rs[..i + 1] == rs;
    }
  }

  lemma PeakIsUnique(rs: seq<Resources>, d: Dimension, x: int)
    requires IsPeak(rs, d, x)
    ensures x == Peak(rs, d)
  {
    PeakIsPeak(rs, d);
  }

  function PodRequest(spec: PodSpec): Resources {
    Resources(MaxResource(Wrap64(Sum(spec.containers, CpuDim)), Peak(spec.initContainers, CpuDim)),
              MaxResource(Wrap64(Sum(spec.containers, MemDim)), Peak(spec.initContainers, MemDim)))
  }

  // ---- requests by node ----

  /** A pod that is bound to a node and still holds its resources. */
  predicate Live(pod: Pod) { pod.nodeName != "" && pod.phase != Succeeded && pod.phase != Failed }

  /** Exact requests of the live pods on one node. */
  function RequestedOn(pods: seq<Pod>, name: string, d: Dimension): int {
    if pods == [] then 0
    else
      var last := pods[|pods| - 1];
      RequestedOn(pods[..|pods| - 1], name, d) +
      if Live(last) && last.nodeName == name then At(PodRequest(last.spec), d) else 0
  }

  function WrappedRequestedOn(pods: seq<Pod>, name: string): Resources {
    Wrapped(RequestedOn(pods, name, CpuDim), RequestedOn(pods, name, MemDim))
  }

  /** Go's map read: a missing key reads as the zero value. */
  function Lookup(m: map<string, Resources>, name: string): Resources {
    if name in m then m[name] else ZERO
  }

  /** Every node's entry is the sum over its live pods, and nothing else. */
  method RequestsByNode(pods: seq<Pod>) returns (byNode: map<string, Resources>)
    ensures forall name :: Lookup(byNode, name) == WrappedRequestedOn(pods, name)
  {
    hide IsPodRequest, PodRequest, AddResources;
    byNode := map[];
    for i := 0 to |pods|
      invariant forall name :: Lookup(byNode, name) == WrappedRequestedOn(pods[..i], name)
    {
      ghost var before := byNode;
      var pod := pods[i];
      assert pods[..i + 1][..i] == pods[..i];
      if Live(pod) {
        var requests := PodSpecRequests(pod.spec);
        AddToWrapped(RequestedOn(pods[..i], pod.nodeName, CpuDim), RequestedOn(pods[..i], pod.nodeName, MemDim),
                     requests);
        byNode := byNode[pod.nodeName := AddResources(Lookup(byNode, pod.nodeName), requests)];
      }
      forall name
        ensures Lookup(byNode, name) == WrappedRequestedOn(pods[..i + 1], name)
      {
        assert Lookup(before, name) == WrappedRequestedOn(pods[..i], name);
      }
    }
    assert pods[..|pods|] == pods;
  }

  /** Not cordoned, and the first readiness condition, if there is one, holds. */
  predicate Schedulable(node: ClusterNode) {
    && !node.unschedulable
    && forall i :: 0 <= i < |node.conditions| && node.conditions[i].isReady &&
                   (forall j :: 0 <= j < i ==> !node.conditions[j].isReady)
                   ==> node.conditions[i].isTrue
  }

  method NodeSchedulable(node: ClusterNode) returns (b: bool)
    ensures b <==> Schedulable(node)
  {
    if node.unschedulable {
      return false;
    }
    for i := 0 to |node.conditions|
      invariant forall j :: 0 <= j < i ==> !node.conditions[j].isReady
    {
      if node.conditions[i].isReady {
        return node.conditions[i].isTrue;
      }
    }
    return true;
  }

  // ---- totals over schedulable nodes ----

  function Allocated(nodes: seq<Node>, d: Dimension): int {
    if nodes == [] then 0
    else
      var last := nodes[|nodes| - 1];
      Allocated(nodes[..|nodes| - 1], d) + if last.schedulable then At(last.summary.allocatable, d) else 0
  }

  function Requested(nodes: seq<Node>, d: Dimension): int {
    if nodes == [] then 0
    else
      var last := nodes[|nodes| - 1];
      Requested(nodes[..|nodes| - 1], d) + if last.schedulable then At(last.summary.requested, d) else 0
  }

  function ClusterTotals(nodes: seq<Node>): Summary {
    Summary(Wrapped(Allocated(nodes, CpuDim), Allocated(nodes, MemDim)),
            Wrapped(Requested(nodes, CpuDim), Requested(nodes, MemDim)))
  }

  /** The signal's cluster summary totals its own schedulable nodes. */
  predicate TotalsItsNodes(s: Signal) { s.cluster == ClusterTotals(s.nodes) }

  lemma ClusterTotalsGrow(nodes: seq<Node>, node: Node)
    ensures var before := ClusterTotals(nodes);
            ClusterTotals(nodes + [node]) ==
            if node.schedulable
            then Summary(AddResources(before.allocatable, node.summary.allocatable),
                         AddResources(before.requested, node.summary.requested))
            else before
  {
    assert (nodes + [node])[..|nodes|] == nodes;
    AddToWrapped(Allocated(nodes, CpuDim), Allocated(nodes, MemDim), node.summary.allocatable);
    AddToWrapped(Requested(nodes, CpuDim), Requested(nodes, MemDim), node.summary.requested);
  }

  /** What each node summary of the snapshot must say about its node. */
  predicate Summarises(n: Node, node: ClusterNode, pods: seq<Pod>) {
    && n.name == node.name
    && n.summary.allocatable == node.allocatable
    && n.summary.requested == WrappedRequestedOn(pods, node.name)
    && (n.schedulable <==> Schedulable(node))
  }

  method SummariseNodes(nodes: seq<ClusterNode>, pods: seq<Pod>, byNode: map<string, Resources>)
    returns (cluster: Summary, summaries: seq<Node>)
    requires forall name :: Lookup(byNode, name) == WrappedRequestedOn(pods, name)
    ensures |summaries| == |nodes|
    ensures forall i :: 0 <= i < |nodes| ==> Summarises(summaries[i], nodes[i], pods)
    ensures cluster == ClusterTotals(summaries)
  {
    cluster, summaries := Summary(ZERO, ZERO), [];
    for i := 0 to |nodes|
      invariant |summaries| == i
      invariant forall j :: 0 <= j < i ==> Summarises(summaries[j], nodes[j], pods)
      invariant cluster == ClusterTotals(summaries)
    {
      var node := nodes[i];
      var summary := Summary(node.allocatable, Lookup(byNode, node.name));
      var schedulable := NodeSchedulable(node);
      var entry := Node(node.name, schedulable, summary);
      ClusterTotalsGrow(summaries, entry);
      summaries := summaries + [entry];
      if schedulable {
        cluster := Summary(AddResources(cluster.allocatable, summary.allocatable),
                           AddResources(cluster.requested, summary.requested));
      }
    }
  }

  /** API reads that failed, or a provider without a reader, arrive as `None`. */
  method HeadroomFor(deployment: Option<PodSpec>, nodes: Option<seq<ClusterNode>>, pods: Option<seq<Pod>>,
                     evaluatedAt: Time) returns (s: Signal)
    ensures s.observedAt == evaluatedAt
    ensures s.state == (if deployment.None? || nodes.None? then Unsupported
                        else if nodes.value == [] then Missing
                        else if pods.None? then Unsupported else Ready)
    ensures s.state == Ready ==>
              && s.pod == PodRequest(deployment.value)
              && TotalsItsNodes(s)
              && |s.nodes| == |nodes.value|
              && forall i :: 0 <= i < |s.nodes| ==> Summarises(s.nodes[i], nodes.value[i], pods.value)
    ensures s.state != Ready ==> s.nodes == []
  {
    var empty := Signal(Unsupported, evaluatedAt, ZERO, Summary(ZERO, ZERO), []);
    if deployment.None? || nodes.None? {
      return empty;
    }
    if nodes.value == [] {
      return empty.(state := Missing);
    }
    if pods.None? {
      return empty;
    }
    var byNode := RequestsByNode(pods.value);
    var cluster, summaries := SummariseNodes(nodes.value, pods.value, byNode);
    var pod := PodSpecRequests(deployment.value);
    return Signal(Ready, evaluatedAt, pod, cluster, summaries);
  }

  // ---- what the sums add up ----

  lemma {:induction false} SumOfParts(left: seq<Resources>, right: seq<Resources>, d: Dimension)
    ensures Sum(left + right, d) == Sum(left, d) + Sum(right, d)
    ensures |left| == 1 ==> Sum(left, d) == At(left[0], d)
  {
    if |left| == 1 {
      assert left[..0] == [];
    }
    if right == [] {
      assert left + right == left;
    } else {
      var n := |right| - 1;
      SumOfParts(left, right[..n], d);
      assert (left + right)[..|left + right| - 1] == left + right[..n];
    }
  }

  /** A pod adds its request to the node it is bound to, unless it has finished, and to no other. */
  lemma AddingPod(pods: seq<Pod>, pod: Pod, name: string, d: Dimension)
    ensures RequestedOn(pods + [pod], name, d) - RequestedOn(pods, name, d) ==
            if pod.nodeName == name != "" && pod.phase != Succeeded && pod.phase != Failed
            then At(PodRequest(pod.spec), d) else 0
  {
    assert (pods + [pod])[..|pods|] == pods;
  }

  function OverNodes(pods: seq<Pod>, names: seq<string>, d: Dimension): int {
    if names == [] then 0 else OverNodes(pods, names[..|names| - 1], d) + RequestedOn(pods, names[|names| - 1], d)
  }

  function OverPods(pods: seq<Pod>, names: seq<string>, d: Dimension): int {
    if pods == [] then 0
    else
      var pod := pods[|pods| - 1];
      OverPods(pods[..|pods| - 1], names, d) +
      if pod.nodeName in names && pod.nodeName != "" && pod.phase != Succeeded && pod.phase != Failed
      then At(PodRequest(pod.spec), d) else 0
  }

  /** Conservation: over any distinct nodes, the requests by node are the requests of the pods bound to them. */
  lemma {:induction false} RequestsAreConserved(pods: seq<Pod>, names: seq<string>, d: Dimension)
    requires forall i, j :: 0 <= i < j < |names| ==> names[i] != names[j]
    ensures OverNodes(pods, names, d) == OverPods(pods, names, d)
  {
    if pods == [] {
      NothingRequested(names, d);
    } else {
      var n := |pods| - 1;
      RequestsAreConserved(pods[..n], names, d);
      OneMorePod(pods[..n], pods[n], names, d);
      assert pods == pods[..n] + [pods[n]];
    }
  }

  lemma {:induction false} NothingRequested(names: seq<string>, d: Dimension)
    ensures OverNodes([], names, d) == 0
  {
    if names != [] {
      NothingRequested(names[..|names| - 1], d);
    }
  }

  lemma {:induction false} OneMorePod(pods: seq<Pod>, pod: Pod, names: seq<string>, d: Dimension)
    requires forall i, j :: 0 <= i < j < |names| ==> names[i] != names[j]
    ensures OverNodes(pods + [pod], names, d) - OverNodes(pods, names, d) ==
            if pod.nodeName in names && pod.nodeName != "" && pod.phase != Succeeded && pod.phase != Failed
            then At(PodRequest(pod.spec), d) else 0
  {
    hide RequestedOn, PodRequest;
    if names != [] {
      var n := |names| - 1;
      OneMorePod(pods, pod, names[..n], d);
      AddingPod(pods, pod, names[n], d);
      assert names == names[..n] + [names[n]];
    }
  }

  /** A node that is not cordoned is judged by its first readiness condition; without one it is schedulable. */
  lemma SchedulableMeaning(node: ClusterNode)
    ensures node.unschedulable ==> !Schedulable(node)
    ensures !node.unschedulable && node.conditions == [] ==> Schedulable(node)
    ensures !node.unschedulable && node.conditions != [] && node.conditions[0].isReady ==>
              (Schedulable(node) <==> node.conditions[0].isTrue)
    ensures node.conditions != [] && !node.conditions[0].isReady ==>
              (Schedulable(node) <==> Schedulable(node.(conditions := node.conditions[1..])))
  {
    if node.conditions != [] && !node.conditions[0].isReady {
      var all, rest := node.conditions, node.conditions[1..];
      assert forall i :: 0 <= i < |rest| ==> rest[i] == all[i + 1];
      assert forall i :: 0 < i < |all| ==> all[i] == rest[i - 1];
    }
  }

  // ---- when the cluster check can overrule the nodes ----

  predicate OverRequested(node: Node, d: Dimension) {
    node.schedulable && At(node.summary.requested, d) > At(node.summary.allocatable, d)
  }

  predicate HasFree(node: Node, d: Dimension) {
    node.schedulable && At(node.summary.allocatable, d) > At(node.summary.requested, d)
  }

  /** No schedulable node is over-requested in this dimension, or none has anything free in it. */
  predicate Balanced(nodes: seq<Node>, d: Dimension) {
    || (forall i :: 0 <= i < |nodes| ==> !OverRequested(nodes[i], d))
    || (forall i :: 0 <= i < |nodes| ==> !HasFree(nodes[i], d))
  }

  predicate ValidNodes(nodes: seq<Node>) {
    forall i :: 0 <= i < |nodes| ==> ValidSummary(nodes[i].summary)
  }

  /** The totals are exact: nothing wrapped. */
  predicate TotalsFit(nodes: seq<Node>) {
    forall d :: Allocated(nodes, d) <= MAX_INT64 && Requested(nodes, d) <= MAX_INT64
  }

  function FreeTotal(nodes: seq<Node>, d: Dimension): int {
    if nodes == [] then 0
    else
      var last := nodes[|nodes| - 1];
      FreeTotal(nodes[..|nodes| - 1], d) + if last.schedulable then At(Available(last.summary), d) else 0
  }

  lemma {:induction false} TotalsNonNegative(nodes: seq<Node>, d: Dimension)
    requires ValidNodes(nodes)
    ensures Allocated(nodes, d) >= 0 && Requested(nodes, d) >= 0 && FreeTotal(nodes, d) >= 0
  {
    if nodes != [] {
      TotalsNonNegative(nodes[..|nodes| - 1], d);
    }
  }

  /** Free capacity summed node by node is the net total plus whatever the nodes are over by. */
  lemma {:induction false} FreeVersusNet(nodes: seq<Node>, d: Dimension)
    requires ValidNodes(nodes)
    ensures FreeTotal(nodes, d) >= Allocated(nodes, d) - Requested(nodes, d)
    ensures FreeTotal(nodes, d) == Allocated(nodes, d) - Requested(nodes, d) <==>
            forall i :: 0 <= i < |nodes| ==> !OverRequested(nodes[i], d)
  {
    if nodes != [] {
      var last := |nodes| - 1;
      FreeVersusNet(nodes[..last], d);
      assert forall i :: 0 <= i < last ==> nodes[..last][i] == nodes[i];
    }
  }

  lemma {:induction false} FreeIsPositive(nodes: seq<Node>, d: Dimension)
    requires ValidNodes(nodes)
    ensures FreeTotal(nodes, d) >= 0
    ensures FreeTotal(nodes, d) == 0 <==> forall i :: 0 <= i < |nodes| ==> !HasFree(nodes[i], d)
  {
    if nodes != [] {
      var last := |nodes| - 1;
      FreeIsPositive(nodes[..last], d);
      assert forall i :: 0 <= i < last ==> nodes[..last][i] == nodes[i];
    }
  }

  /** Placed pods use no more of a dimension than the nodes have free in total. */
  lemma {:induction false} PlacementWithinFree(nodes: seq<Node>, pod: Resources, counts: seq<nat>, d: Dimension)
    requires ValidNodes(nodes) && NonNegative(pod) && IsPlacement(nodes, pod, counts)
    ensures Total(counts) * At(pod, d) <= FreeTotal(nodes, d)
  {
    if nodes != [] {
      var last := |nodes| - 1;
      PlacementWithinFree(nodes[..last], pod, counts[..last], d);
      assert FitOnNode(nodes[last], pod, counts[last]);
      Distribute(Total(counts[..last]), counts[last], At(pod, d));
    }
  }

  lemma ClusterFree(s: Signal, d: Dimension)
    requires ValidSignal(s) && TotalsItsNodes(s) && TotalsFit(s.nodes)
    ensures At(Available(s.cluster), d) == Max(0, Allocated(s.nodes, d) - Requested(s.nodes, d))
  {
    TotalsNonNegative(s.nodes, CpuDim);
    TotalsNonNegative(s.nodes, MemDim);
    assert Allocated(s.nodes, CpuDim) <= MAX_INT64 && Requested(s.nodes, CpuDim) <= MAX_INT64;
    assert Allocated(s.nodes, MemDim) <= MAX_INT64 && Requested(s.nodes, MemDim) <= MAX_INT64;
  }

  lemma PlacedFitsDimension(s: Signal, pod: Resources, counts: seq<nat>, d: Dimension)
    requires ValidSignal(s) && TotalsItsNodes(s) && TotalsFit(s.nodes)
    requires NonNegative(pod) && IsPlacement(s.nodes, pod, counts)
    requires Balanced(s.nodes, d)
    ensures Total(counts) * At(pod, d) <= At(Available(s.cluster), d)
  {
    ClusterFree(s, d);
    PlacementWithinFree(s.nodes, pod, counts, d);
    FreeVersusNet(s.nodes, d);
    FreeIsPositive(s.nodes, d);
  }

  /** On a snapshot whose dimensions are balanced, the aggregate accepts whatever the nodes accept. */
  lemma ClusterAcceptsPlacements(s: Signal, pod: Resources, n: nat)
    requires ValidSignal(s) && TotalsItsNodes(s) && TotalsFit(s.nodes)
    requires NonNegative(pod) && CanPlace(s.nodes, pod, n)
    requires Balanced(s.nodes, CpuDim) && Balanced(s.nodes, MemDim)
    ensures FitInto(Available(s.cluster), pod, n)
  {
    var counts: seq<nat> :| IsPlacement(s.nodes, pod, counts) && Total(counts) == n;
    PlacedFitsDimension(s, pod, counts, CpuDim);
    PlacedFitsDimension(s, pod, counts, MemDim);
  }

  function UnitPod(d: Dimension): Resources { if d == CpuDim then Resources(1, 0) else Resources(0, 1) }

  lemma {:induction false} UnitRoomIsFree(nodes: seq<Node>, d: Dimension)
    requires ValidNodes(nodes)
    ensures TotalRoom(nodes, UnitPod(d)) == FreeTotal(nodes, d)
  {
    if nodes != [] {
      UnitRoomIsFree(nodes[..|nodes| - 1], d);
    }
  }

  lemma UnbalancedIsOverruled(s: Signal, d: Dimension)
    requires ValidSignal(s) && TotalsItsNodes(s) && TotalsFit(s.nodes)
    requires !Balanced(s.nodes, d)
    ensures var n := FreeTotal(s.nodes, d);
            n >= 0 && CanPlace(s.nodes, UnitPod(d), n) && !FitInto(Available(s.cluster), UnitPod(d), n)
  {
    ClusterFree(s, d);
    FreeVersusNet(s.nodes, d);
    FreeIsPositive(s.nodes, d);
    UnitRoomIsFree(s.nodes, d);
    CanPlaceIffRoom(s.nodes, UnitPod(d), FreeTotal(s.nodes, d));
  }

  /**
   * The aggregate check never rejects a placement the nodes allow, for any pod shape and count,
   * exactly when each dimension is balanced: no over-requested schedulable node beside a free one.
   */
  lemma ClusterNeverOverrulesIff(s: Signal)
    requires ValidSignal(s) && TotalsItsNodes(s) && TotalsFit(s.nodes)
    ensures (forall pod: Resources, n: nat :: NonNegative(pod) && CanPlace(s.nodes, pod, n)
                                              ==> FitInto(Available(s.cluster), pod, n))
            <==> Balanced(s.nodes, CpuDim) && Balanced(s.nodes, MemDim)
  {
    if Balanced(s.nodes, CpuDim) && Balanced(s.nodes, MemDim) {
      forall pod: Resources, n: nat | NonNegative(pod) && CanPlace(s.nodes, pod, n)
        ensures FitInto(Available(s.cluster), pod, n)
      {
        ClusterAcceptsPlacements(s, pod, n);
      }
    } else if !Balanced(s.nodes, CpuDim) {
      UnbalancedIsOverruled(s, CpuDim);
    } else {
      UnbalancedIsOverruled(s, MemDim);
    }
  }

  /**
   * For one signal and the counts the estimator can be asked for: the aggregate rejects no placement
   * exactly when its own room reaches the node room, cut at the largest 32-bit count.
   */
  lemma ClusterNeverOverrulesInt32Iff(s: Signal)
    requires ValidSignal(s) && SomeKnown(s.pod)
    ensures (forall n: nat :: n <= MAX_INT32 && CanPlace(s.nodes, s.pod, n) ==> FitInto(Available(s.cluster), s.pod, n))
            <==> Min(MAX_INT32, TotalRoom(s.nodes, s.pod)) <= Room(Available(s.cluster), s.pod)
  {
    hide TotalRoom, Room, FitInto, CanPlace;
    var free := Available(s.cluster);
    var most: nat := Min(MAX_INT32, TotalRoom(s.nodes, s.pod));
    CanPlaceIffRoom(s.nodes, s.pod, most);
    FitIffRoom(free, s.pod, most);
    forall n: nat | most <= Room(free, s.pod) && n <= MAX_INT32 && CanPlace(s.nodes, s.pod, n)
      ensures FitInto(free, s.pod, n)
    {
      CanPlaceIffRoom(s.nodes, s.pod, n);
      FitIffRoom(free, s.pod, n);
    }
  }

  /**
   * With no over-requested schedulable node the cluster check decides nothing: the estimate is the
   * node estimate whenever there is one, the pods are refused exactly when they cannot be placed on
   * the nodes, and then by node packing or because the cluster's own room is short of them too.
   */
  lemma NodeEstimateDecides(s: Signal, needed: int32, a: Assessment)
    requires ValidSignal(s) && TotalsItsNodes(s) && TotalsFit(s.nodes)
    requires forall i, d :: 0 <= i < |s.nodes| ==> !OverRequested(s.nodes[i], d)
    requires needed >= 0 && Compares(Some(s), needed) && s.nodes != [] && IsAssessment(Some(s), needed, a)
    ensures TotalRoom(s.nodes, s.pod) <= Room(Available(s.cluster), s.pod)
    ensures a.byNodes.Some? ==> a.estimated == a.byNodes.value
    ensures a.status == Insufficient <==> !CanPlace(s.nodes, s.pod, needed)
    ensures a.byNodes.None? ==> !CanPlace(s.nodes, s.pod, needed)
  {
    var n := TotalRoom(s.nodes, s.pod);
    assert forall i :: 0 <= i < |s.nodes| ==> !OverRequested(s.nodes[i], CpuDim);
    assert forall i :: 0 <= i < |s.nodes| ==> !OverRequested(s.nodes[i], MemDim);
    hide TotalRoom, Room, Available, FitInto, CanPlace, TotalsFit, TotalsItsNodes, ValidSignal;
    CanPlaceIffRoom(s.nodes, s.pod, n);
    CanPlaceIffRoom(s.nodes, s.pod, needed);
    ClusterAcceptsPlacements(s, s.pod, n);
    FitIffRoom(Available(s.cluster), s.pod, n);
    FitIffRoom(Available(s.cluster), s.pod, needed);
  }

  /** A snapshot on which the estimator refuses two pods that the free node would take. */
  lemma OverRequestedNodeMakesClusterRefuse()
    ensures var free := Node("a", true, Summary(Resources(1000, 1000), ZERO));
            var over := Node("b", true, Summary(Resources(1000, 1000), Resources(2000, 0)));
            var s := Signal(Ready, 1, Resources(500, 500),
                            Summary(Resources(2000, 2000), Resources(2000, 0)), [free, over]);
            ValidSignal(s) && TotalsItsNodes(s) && CanPlace(s.nodes, s.pod, 2) && Verdict(Some(s), 2) == Insufficient
  {
    var free := Node("a", true, Summary(Resources(1000, 1000), ZERO));
    var over := Node("b", true, Summary(Resources(1000, 1000), Resources(2000, 0)));
    var nodes := [free, over];
    var counts: seq<nat> := [2, 0];
    assert counts[..1] == [2] && [2][..0] == [];
    assert Total([2]) == 2 && Total(counts) == 2;
    assert IsPlacement(nodes, Resources(500, 500), counts);
    assert nodes[..1] == [free] && [free][..0] == [];
    forall d
      ensures Allocated(nodes, d) == At(Resources(2000, 2000), d)
      ensures Requested(nodes, d) == At(Resources(2000, 0), d)
    {
      assert Allocated([free], d) == At(free.summary.allocatable, d);
      assert Requested([free], d) == At(free.summary.requested, d);
    }
  }
}
