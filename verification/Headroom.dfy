/**
 * The request-based node headroom estimator, read as a claim about packing identical pods on
 * nodes in two resource dimensions.
 */
module Headroom {
  import opened Core
  import opened Bounds

  /** milliCPU and bytes. A zero request means the dimension is unknown. */
  datatype Resources = Resources(cpu: int64, mem: int64)

  datatype Summary = Summary(allocatable: Resources, requested: Resources)

  datatype Node = Node(name: string, schedulable: bool, summary: Summary)

  datatype SignalState = Unset | Ready | Missing | Stale | Unsupported | Unrecognised

  datatype Signal = Signal(state: SignalState, observedAt: Time, pod: Resources, cluster: Summary, nodes: seq<Node>)

  datatype Status = Sufficient | Uncertain | Insufficient

  datatype Limiter = NoLimiter | Cpu | Memory | NodePacking

  datatype Assessment = Assessment(
    status: Status, needed: int32, estimated: int32, byCluster: int32, byNodes: Option<int32>,
    schedulableNodes: Option<int32>, fittingNodes: Option<int32>, limiting: Limiter)

  datatype Error = InvalidInput

  function Available(s: Summary): Resources {
    Resources(Max(0, Wrap64(s.allocatable.cpu - s.requested.cpu)),
              Max(0, Wrap64(s.allocatable.mem - s.requested.mem)))
  }

  function Normalized(s: SignalState): SignalState { if s == Unset then Missing else s }

  predicate NonNegative(r: Resources) { r.cpu >= 0 && r.mem >= 0 }

  predicate ValidSummary(s: Summary) { NonNegative(s.allocatable) && NonNegative(s.requested) }

  predicate ValidSignal(s: Signal) {
    && s.state != Unrecognised
    && NonNegative(s.pod)
    && ValidSummary(s.cluster)
    && forall i :: 0 <= i < |s.nodes| ==> ValidSummary(s.nodes[i].summary)
  }

  predicate CpuKnown(pod: Resources) { pod.cpu > 0 }

  predicate MemKnown(pod: Resources) { pod.mem > 0 }

  function CapacityByDimension(available: int64, request: int64): int32 {
    if request <= 0 || available <= 0 then 0
    else if available / request > MAX_INT32 then MAX_INT32
    else available / request
  }

  function CapacityByResources(available: Resources, pod: Resources): (int32, Limiter) {
    var cpu := CapacityByDimension(available.cpu, pod.cpu);
    var mem := CapacityByDimension(available.mem, pod.mem);
    if CpuKnown(pod) && MemKnown(pod) then (if mem < cpu then (mem, Memory) else (cpu, Cpu))
    else if CpuKnown(pod) then (cpu, Cpu)
    else if MemKnown(pod) then (mem, Memory)
    else (0, NoLimiter)
  }

  // ---- placements: the reference meaning of "the pods fit" ----

  /** `n` identical pods fit into the given free resources. */
  predicate FitInto(free: Resources, pod: Resources, n: nat) {
    n * pod.cpu <= free.cpu && n * pod.mem <= free.mem
  }

  predicate FitOnNode(node: Node, pod: Resources, n: nat) {
    if node.schedulable then FitInto(Available(node.summary), pod, n) else n == 0
  }

  function Total(counts: seq<nat>): nat {
    if counts == [] then 0 else Total(counts[..|counts| - 1]) + counts[|counts| - 1]
  }

  predicate IsPlacement(nodes: seq<Node>, pod: Resources, counts: seq<nat>) {
    && |counts| == |nodes|
    && forall i :: 0 <= i < |nodes| ==> FitOnNode(nodes[i], pod, counts[i])
  }

  /** Some assignment puts exactly `n` pods on schedulable nodes within what each node has free. */
  ghost predicate CanPlace(nodes: seq<Node>, pod: Resources, n: nat) {
    exists counts: seq<nat> :: IsPlacement(nodes, pod, counts) && Total(counts) == n
  }

  /** The verdict the estimator is meant to give, stated by placements instead of capacities. */
  ghost function Verdict(signal: Option<Signal>, needed: nat): Status {
    if signal.None? || Normalized(signal.value.state) != Ready then Uncertain
    else
      var s := signal.value;
      if needed == 0 then Sufficient
      else if !CpuKnown(s.pod) && !MemKnown(s.pod) then Uncertain
      else if !FitInto(Available(s.cluster), s.pod, needed) then Insufficient
      else if s.nodes == [] then Uncertain
      else if !CanPlace(s.nodes, s.pod, needed) then Insufficient
      else if !CpuKnown(s.pod) || !MemKnown(s.pod) then Uncertain
      else Sufficient
  }

  // ---- room: how many pods fit, without saturation ----

  predicate SomeKnown(pod: Resources) { NonNegative(pod) && (CpuKnown(pod) || MemKnown(pod)) }

  function Room(free: Resources, pod: Resources): nat
    requires NonNegative(free) && SomeKnown(pod)
  {
    if !MemKnown(pod) then free.cpu / pod.cpu
    else if !CpuKnown(pod) then free.mem / pod.mem
    else Min(free.cpu / pod.cpu, free.mem / pod.mem)
  }

  function RoomOnNode(node: Node, pod: Resources): nat
    requires SomeKnown(pod)
  {
    if node.schedulable then Room(Available(node.summary), pod) else 0
  }

  function TotalRoom(nodes: seq<Node>, pod: Resources): nat
    requires SomeKnown(pod)
  {
    if nodes == [] then 0
    else TotalRoom(nodes[..|nodes| - 1], pod) + RoomOnNode(nodes[|nodes| - 1], pod)
  }

  lemma QuotientBound(n: nat, available: nat, request: nat)
    requires request > 0
    ensures n * request <= available <==> n <= available / request
  {
    var q := available / request;
    assert q * request <= available < (q + 1) * request;
    if n <= q {
      ScaleLe(n, q, request);
    } else {
      ScaleLe(q + 1, n, request);
    }
  }

  lemma FitIffRoom(free: Resources, pod: Resources, n: nat)
    requires NonNegative(free) && SomeKnown(pod)
    ensures FitInto(free, pod, n) <==> n <= Room(free, pod)
  {
    if CpuKnown(pod) {
      QuotientBound(n, free.cpu, pod.cpu);
    }
    if MemKnown(pod) {
      QuotientBound(n, free.mem, pod.mem);
    }
  }

  lemma CapacityIsSaturatedRoom(free: Resources, pod: Resources)
    requires NonNegative(free) && SomeKnown(pod)
    ensures CapacityByResources(free, pod).0 == Min(MAX_INT32, Room(free, pod))
  {
  }

  /** No placement holds more pods than the nodes' rooms add up to. */
  lemma {:induction false} PlacementWithinRoom(nodes: seq<Node>, pod: Resources, counts: seq<nat>)
    requires SomeKnown(pod) && IsPlacement(nodes, pod, counts)
    ensures Total(counts) <= TotalRoom(nodes, pod)
  {
    if nodes != [] {
      var last := |nodes| - 1;
      PlacementWithinRoom(nodes[..last], pod, counts[..last]);
      if nodes[last].schedulable {
        FitIffRoom(Available(nodes[last].summary), pod, counts[last]);
      }
    }
  }

  /** Any number of pods up to the total room can be placed, filling the last nodes first. */
  lemma {:induction false} PlaceGreedily(nodes: seq<Node>, pod: Resources, n: nat) returns (counts: seq<nat>)
    requires SomeKnown(pod) && n <= TotalRoom(nodes, pod)
    ensures IsPlacement(nodes, pod, counts) && Total(counts) == n
  {
    if nodes == [] {
      counts := [];
    } else {
      var last := |nodes| - 1;
      var here := Min(n, RoomOnNode(nodes[last], pod));
      var before := PlaceGreedily(nodes[..last], pod, n - here);
      counts := before + [here];
      if nodes[last].schedulable {
        FitIffRoom(Available(nodes[last].summary), pod, here);
      }
      ExtendPlacement(nodes[..last], nodes[last], pod, before, here);
      assert nodes == nodes[..last] + [nodes[last]];
    }
  }

  lemma ExtendPlacement(nodes: seq<Node>, node: Node, pod: Resources, counts: seq<nat>, n: nat)
    requires IsPlacement(nodes, pod, counts) && FitOnNode(node, pod, n)
    ensures IsPlacement(nodes + [node], pod, counts + [n])
    ensures Total(counts + [n]) == Total(counts) + n
  {
    assert (counts + [n])[..|counts|] == counts;
  }

  /** Packing identical pods is decided exactly by the per-node sum. */
  lemma CanPlaceIffRoom(nodes: seq<Node>, pod: Resources, n: nat)
    requires SomeKnown(pod)
    ensures CanPlace(nodes, pod, n) <==> n <= TotalRoom(nodes, pod)
  {
    if n <= TotalRoom(nodes, pod) {
      var counts := PlaceGreedily(nodes, pod, n);
    }
    forall counts: seq<nat> | IsPlacement(nodes, pod, counts)
      ensures Total(counts) <= TotalRoom(nodes, pod)
    {
      PlacementWithinRoom(nodes, pod, counts);
    }
  }

  // ---- the estimator ----

  ghost function SchedulableNodes(nodes: seq<Node>): set<int> {
    set i | 0 <= i < |nodes| && nodes[i].schedulable
  }

  /** The nodes that take at least one pod. */
  ghost function FittingNodes(nodes: seq<Node>, pod: Resources): set<int> {
    set i | 0 <= i < |nodes| && nodes[i].schedulable && FitOnNode(nodes[i], pod, 1)
  }

  lemma SchedulableGrows(before: seq<Node>, node: Node)
    ensures |SchedulableNodes(before + [node])| == |SchedulableNodes(before)| + (if node.schedulable then 1 else 0)
  {
    var after := before + [node];
    assert forall j :: 0 <= j < |before| ==> after[j] == before[j];
    assert SchedulableNodes(after) == SchedulableNodes(before) + (if node.schedulable then {|before| as int} else {});
  }

  lemma FittingGrows(before: seq<Node>, node: Node, pod: Resources)
    ensures |FittingNodes(before + [node], pod)| ==
            |FittingNodes(before, pod)| + (if node.schedulable && FitOnNode(node, pod, 1) then 1 else 0)
  {
    hide FitOnNode;
    var after := before + [node];
    assert forall j :: 0 <= j < |before| ==> after[j] == before[j];
    assert FittingNodes(after, pod) ==
           FittingNodes(before, pod) + (if node.schedulable && FitOnNode(node, pod, 1) then {|before| as int} else {});
  }

  lemma NodeSetsGrow(nodes: seq<Node>, pod: Resources, i: nat)
    requires i < |nodes|
    ensures |SchedulableNodes(nodes[..i + 1])| ==
            |SchedulableNodes(nodes[..i])| + (if nodes[i].schedulable then 1 else 0)
    ensures |FittingNodes(nodes[..i + 1], pod)| ==
            |FittingNodes(nodes[..i], pod)| +
            (if nodes[i].schedulable && FitOnNode(nodes[i], pod, 1) then 1 else 0)
  {
    hide FitOnNode, SchedulableNodes, FittingNodes;
    assert nodes[..i + 1] == nodes[..i] + [nodes[i]];
    SchedulableGrows(nodes[..i], nodes[i]);
    FittingGrows(nodes[..i], nodes[i], pod);
  }

  lemma RoomGrows(nodes: seq<Node>, pod: Resources, i: nat)
    requires SomeKnown(pod) && i < |nodes|
    ensures TotalRoom(nodes[..i + 1], pod) == TotalRoom(nodes[..i], pod) + RoomOnNode(nodes[i], pod)
    ensures var capacity := CapacityByResources(Available(nodes[i].summary), pod).0;
            nodes[i].schedulable ==>
              && capacity == Min(MAX_INT32, RoomOnNode(nodes[i], pod))
              && (capacity > 0 <==> FitOnNode(nodes[i], pod, 1))
  {
    assert nodes[..i + 1][..i] == nodes[..i];
    CapacityIsSaturatedRoom(Available(nodes[i].summary), pod);
    FitIffRoom(Available(nodes[i].summary), pod, 1);
  }

  /** The node loop: saturated capacity, schedulable nodes and nodes with room. */
  method SumNodes(nodes: seq<Node>, pod: Resources) returns (schedulable: int, fitting: int, capacity: int32)
    requires SomeKnown(pod)
    ensures capacity == Min(MAX_INT32, TotalRoom(nodes, pod))
    ensures schedulable == |SchedulableNodes(nodes)|
    ensures fitting == |FittingNodes(nodes, pod)|
  {
    schedulable, fitting, capacity := 0, 0, 0;
    for i := 0 to |nodes|
      invariant capacity == Min(MAX_INT32, TotalRoom(nodes[..i], pod))
      invariant schedulable == |SchedulableNodes(nodes[..i])|
      invariant fitting == |FittingNodes(nodes[..i], pod)|
    {
      NodeSetsGrow(nodes, pod, i);
      RoomGrows(nodes, pod, i);
      if !nodes[i].schedulable {
        continue;
      }
      schedulable := schedulable + 1;
      var room := CapacityByResources(Available(nodes[i].summary), pod).0;
      if room > 0 {
        fitting := fitting + 1;
      }
      capacity := SaturatingAdd(capacity, room);
    }
    assert nodes[..|nodes|] == nodes;
  }

  /** The signal and the pod requests let the estimator compare capacities at all. */
  predicate Compares(signal: Option<Signal>, needed: int32) {
    && signal.Some? && Normalized(signal.value.state) == Ready && needed > 0
    && NonNegative(signal.value.pod) && (CpuKnown(signal.value.pod) || MemKnown(signal.value.pod))
  }

  /** The scarcer known dimension of the cluster, CPU when both allow the same number of pods. */
  predicate IsScarcer(limiter: Limiter, free: Resources, pod: Resources) {
    match limiter
    case Cpu =>
      CpuKnown(pod) && (MemKnown(pod) ==> CapacityByDimension(free.cpu, pod.cpu) <= CapacityByDimension(free.mem, pod.mem))
    case Memory =>
      MemKnown(pod) && (CpuKnown(pod) ==> CapacityByDimension(free.mem, pod.mem) < CapacityByDimension(free.cpu, pod.cpu))
    case _ => false
  }

  /** What an assessment of a valid signal says, with the verdict told by placements and the estimates by rooms. */
  ghost predicate IsAssessment(signal: Option<Signal>, needed: int32, a: Assessment)
    requires needed >= 0
  {
    && a.needed == needed && a.status == Verdict(signal, needed)
    && (!Compares(signal, needed) ==> a.byCluster == 0 == a.estimated && a.byNodes.None? && a.limiting == NoLimiter)
    && (Compares(signal, needed) ==>
          var s := signal.value;
          && a.byCluster == Min(MAX_INT32, Room(Available(s.cluster), s.pod))
          && (a.byNodes.Some? <==> a.byCluster >= needed && s.nodes != [])
          && (a.byNodes.None? ==> a.estimated == a.byCluster && a.schedulableNodes.None? && a.fittingNodes.None?)
          && (a.byNodes.Some? ==>
                && a.byNodes.value == Min(MAX_INT32, TotalRoom(s.nodes, s.pod))
                && a.estimated == Min(a.byCluster, a.byNodes.value)
                && a.schedulableNodes == Some(Wrap32(|SchedulableNodes(s.nodes)|))
                && a.fittingNodes == Some(Wrap32(|FittingNodes(s.nodes, s.pod)|)))
          && (a.limiting == NodePacking <==> a.byNodes.Some? && !CanPlace(s.nodes, s.pod, needed))
          && (a.limiting != NodePacking ==> IsScarcer(a.limiting, Available(s.cluster), s.pod)))
  }

  /**
   * "Sufficient" on known requests means a placement of all needed pods exists, and the
   * node-packing "insufficient" means none does, int32 saturation notwithstanding.
   */
  method Assess(signal: Option<Signal>, needed: int32) returns (r: Result<Assessment, Error>)
    ensures r.Err? <==> needed < 0 || (signal.Some? && !ValidSignal(signal.value))
    ensures r.Ok? ==> IsAssessment(signal, needed, r.value)
  {
    if needed < 0 {
      return Err(InvalidInput);
    }
    var none := Assessment(Uncertain, needed, 0, 0, None, None, None, NoLimiter);
    if signal.None? {
      return Ok(none);
    }
    var s := signal.value;
    if !ValidSignal(s) {
      return Err(InvalidInput);
    }
    if Normalized(s.state) != Ready {
      return Ok(none);
    }
    if needed == 0 {
      return Ok(none.(status := Sufficient));
    }
    if !CpuKnown(s.pod) && !MemKnown(s.pod) {
      return Ok(none);
    }

    var (clusterCapacity, limiter) := CapacityByResources(Available(s.cluster), s.pod);
    CapacityIsSaturatedRoom(Available(s.cluster), s.pod);
    FitIffRoom(Available(s.cluster), s.pod, needed);
    var a := none.(byCluster := clusterCapacity, limiting := limiter, estimated := clusterCapacity);
    if clusterCapacity < needed {
      return Ok(a.(status := Insufficient));
    }
    if s.nodes == [] {
      return Ok(a);
    }

    var schedulable, fitting, nodeCapacity := SumNodes(s.nodes, s.pod);
    CanPlaceIffRoom(s.nodes, s.pod, needed);
    a := a.(schedulableNodes := Some(Wrap32(schedulable)), fittingNodes := Some(Wrap32(fitting)),
      byNodes := Some(nodeCapacity), estimated := Min(clusterCapacity, nodeCapacity));
    if nodeCapacity < needed {
      return Ok(a.(status := Insufficient, limiting := NodePacking));
    }
    if !CpuKnown(s.pod) || !MemKnown(s.pod) {
      return Ok(a);
    }
    return Ok(a.(status := Sufficient));
  }

  // ---- what an assessment means, told by requests and placements ----

  /** `n` pods more are requested, in each dimension they request at all, than what is already requested leaves. */
  predicate LeavesRoom(s: Summary, pod: Resources, n: nat) {
    && (n * pod.cpu > 0 ==> s.requested.cpu + n * pod.cpu <= s.allocatable.cpu)
    && (n * pod.mem > 0 ==> s.requested.mem + n * pod.mem <= s.allocatable.mem)
  }

  lemma FitIffLeavesRoom(s: Summary, pod: Resources, n: nat)
    requires ValidSummary(s) && NonNegative(pod)
    ensures FitInto(Available(s), pod, n) <==> LeavesRoom(s, pod, n)
  {
    ScaleLe(0, n, pod.cpu);
    ScaleLe(0, n, pod.mem);
  }

  /** Every node takes its pods on top of what is requested there, and nodes that are not schedulable take none. */
  lemma PlacementIff(nodes: seq<Node>, pod: Resources, counts: seq<nat>)
    requires NonNegative(pod) && forall i :: 0 <= i < |nodes| ==> ValidSummary(nodes[i].summary)
    ensures IsPlacement(nodes, pod, counts) <==>
              && |counts| == |nodes|
              && forall i :: 0 <= i < |nodes| ==>
                   if nodes[i].schedulable then LeavesRoom(nodes[i].summary, pod, counts[i]) else counts[i] == 0
  {
    if |counts| == |nodes| {
      forall i | 0 <= i < |nodes|
        ensures FitOnNode(nodes[i], pod, counts[i]) <==>
                if nodes[i].schedulable then LeavesRoom(nodes[i].summary, pod, counts[i]) else counts[i] == 0
      {
        FitIffLeavesRoom(nodes[i].summary, pod, counts[i]);
      }
    }
  }

  /**
   * Sufficient: a ready signal, and for any pods needed at all both requests declared, room in the
   * cluster and a placement of them. Insufficient: a ready signal and at least one request declared,
   * but no room in the cluster or no placement on its nodes.
   */
  lemma AssessmentMeaning(signal: Option<Signal>, needed: int32, a: Assessment)
    requires needed >= 0 && IsAssessment(signal, needed, a) && (signal.Some? ==> ValidSignal(signal.value))
    ensures a.status == Sufficient <==>
              && signal.Some? && signal.value.state == Ready
              && (needed > 0 ==>
                    && signal.value.pod.cpu > 0 && signal.value.pod.mem > 0
                    && LeavesRoom(signal.value.cluster, signal.value.pod, needed)
                    && exists counts: seq<nat> :: IsPlacement(signal.value.nodes, signal.value.pod, counts)
                                                  && signal.value.nodes != [] && Total(counts) == needed)
    ensures a.status == Insufficient <==>
              && signal.Some? && signal.value.state == Ready && needed > 0
              && (signal.value.pod.cpu > 0 || signal.value.pod.mem > 0)
              && (|| !LeavesRoom(signal.value.cluster, signal.value.pod, needed)
                  || (signal.value.nodes != [] && forall counts: seq<nat> ::
                        IsPlacement(signal.value.nodes, signal.value.pod, counts) ==> Total(counts) != needed))
  {
    if signal.Some? {
      FitIffLeavesRoom(signal.value.cluster, signal.value.pod, needed);
    }
    hide FitInto, LeavesRoom, IsPlacement, Total;
  }

  /** `n` pods, a count the estimator can tell, fit in the CPU but not in the memory. */
  predicate MemoryStops(n: nat, free: Resources, pod: Resources) {
    n <= MAX_INT32 && n * pod.cpu <= free.cpu && free.mem < n * pod.mem
  }

  lemma MemoryStopsIff(n: nat, free: Resources, pod: Resources)
    requires NonNegative(free) && pod.cpu > 0 && pod.mem > 0
    ensures MemoryStops(n, free, pod) <==>
              n <= CapacityByDimension(free.cpu, pod.cpu) && (n <= MAX_INT32 ==> n > CapacityByDimension(free.mem, pod.mem))
  {
    QuotientBound(n, free.cpu, pod.cpu);
    QuotientBound(n, free.mem, pod.mem);
    CapacityIsQuotient(free.cpu, pod.cpu);
    CapacityIsQuotient(free.mem, pod.mem);
  }

  lemma CapacityIsQuotient(available: nat, request: nat)
    requires available <= MAX_INT64 && 0 < request <= MAX_INT64
    ensures CapacityByDimension(available, request) == Min(MAX_INT32, available / request)
  {
    if available == 0 {
      assert available / request == 0;
    }
  }

  /** With both requests declared memory is the scarcer dimension when some count fits in CPU but not in memory. */
  lemma ScarcerMeaning(limiter: Limiter, free: Resources, pod: Resources)
    requires NonNegative(free) && NonNegative(pod) && IsScarcer(limiter, free, pod)
    ensures limiter == Cpu || limiter == Memory
    ensures pod.cpu == 0 ==> limiter == Memory
    ensures pod.mem == 0 ==> limiter == Cpu
    ensures pod.cpu > 0 && pod.mem > 0 ==> (limiter == Memory <==> exists n: nat :: MemoryStops(n, free, pod))
  {
    if pod.cpu > 0 && pod.mem > 0 {
      hide MemoryStops, CapacityByDimension;
      CapacityIsQuotient(free.cpu, pod.cpu);
      CapacityIsQuotient(free.mem, pod.mem);
      MemoryStopsIff(CapacityByDimension(free.cpu, pod.cpu), free, pod);
      forall n: nat
        ensures MemoryStops(n, free, pod) ==>
                CapacityByDimension(free.mem, pod.mem) < CapacityByDimension(free.cpu, pod.cpu)
      {
        MemoryStopsIff(n, free, pod);
      }
    }
  }

  /** No node has room for one pod exactly when no pod can be placed; the fitting nodes are schedulable. */
  lemma FittingNodesMeaning(nodes: seq<Node>, pod: Resources)
    requires SomeKnown(pod)
    ensures FittingNodes(nodes, pod) <= SchedulableNodes(nodes)
    ensures FittingNodes(nodes, pod) == {} <==> !CanPlace(nodes, pod, 1)
  {
    hide FitOnNode, TotalRoom, CanPlace;
    CanPlaceIffRoom(nodes, pod, 1);
    NoRoomIff(nodes, pod);
    if i :| 0 <= i < |nodes| && nodes[i].schedulable && FitOnNode(nodes[i], pod, 1) {
      assert i in FittingNodes(nodes, pod);
    }
  }

  lemma {:induction false} NoRoomIff(nodes: seq<Node>, pod: Resources)
    requires SomeKnown(pod)
    ensures TotalRoom(nodes, pod) == 0 <==>
            forall i :: 0 <= i < |nodes| ==> !(nodes[i].schedulable && FitOnNode(nodes[i], pod, 1))
  {
    if nodes != [] {
      var n := |nodes| - 1;
      NoRoomIff(nodes[..n], pod);
      FitIffRoom(Available(nodes[n].summary), pod, 1);
      assert forall i :: 0 <= i < n ==> nodes[..n][i] == nodes[i];
    }
  }

  /** A ready signal with both requests declared, whose cluster and nodes take `n` more pods. */
  ghost predicate HasPlacement(signal: Option<Signal>, n: nat) {
    && signal.Some? && signal.value.state == Ready
    && signal.value.pod.cpu > 0 && signal.value.pod.mem > 0
    && LeavesRoom(signal.value.cluster, signal.value.pod, n)
    && CanPlace(signal.value.nodes, signal.value.pod, n)
  }

  lemma SufficientIff(signal: Option<Signal>, n: nat)
    requires n > 0 && (signal.Some? ==> ValidSignal(signal.value))
    ensures Verdict(signal, n) == Sufficient <==> HasPlacement(signal, n)
  {
    hide FitInto, LeavesRoom, IsPlacement, Total;
    if signal.Some? {
      FitIffLeavesRoom(signal.value.cluster, signal.value.pod, n);
      if signal.value.nodes == [] {
        NothingOnNoNodes(signal.value.pod, n);
      }
    }
  }

  lemma NothingOnNoNodes(pod: Resources, n: nat)
    requires n > 0
    ensures !CanPlace([], pod, n)
  {
  }
}
