/** Where the scheduler puts one pod: predicates, scores and the choice. The
    predicates are stated over exact, unbounded sums; the methods compute with
    the source's saturating 64-bit ones. */
module Placement {
  import opened Wrappers
  import opened Cluster
  import Q = Quantity

  datatype ScoringStrategy = LeastAllocated | MostAllocated

  // ---------------------------------------------------------------------
  // Label predicates
  // ---------------------------------------------------------------------

  function LabelsOf(n: Node): Labels {
    n.labels.GetOr(map[])
  }

  predicate MatchExpression(req: Requirement, labels: Labels) {
    var val := if req.key in labels then Some(labels[req.key]) else None;
    match req.operator
    case "In" => val.Some? && val.value in req.values
    case "NotIn" => val.Some? ==> val.value !in req.values
    case "Exists" => val.Some?
    case "DoesNotExist" => val.None?
    case "Gt" => Compares(val, req.values, (a, b) => a > b)
    case "Lt" => Compares(val, req.values, (a, b) => a < b)
    case _ => true
  }

  /** Both sides parse as i64 and compare as wanted. */
  predicate Compares(val: Option<string>, values: seq<string>, wanted: (int, int) -> bool) {
    val.Some? && values != [] &&
    var a, b := Q.ParseI64(val.value), Q.ParseI64(values[0]);
    a.Some? && b.Some? && wanted(a.value, b.value)
  }

  predicate NodeMatchesTerm(n: Node, term: seq<Requirement>) {
    forall i | 0 <= i < |term| :: MatchExpression(term[i], LabelsOf(n))
  }

  predicate MatchLabelExpression(req: LabelRequirement, labels: Labels) {
    var values := req.values.GetOr([]);
    match req.operator
    case "In" => req.key in labels && labels[req.key] in values
    case "NotIn" => req.key in labels ==> labels[req.key] !in values
    case "Exists" => req.key in labels
    case "DoesNotExist" => req.key !in labels
    case _ => true
  }

  predicate SelectorMatches(selector: Option<LabelSelector>, labels: Labels) {
    selector.Some? ==>
      (selector.value.matchLabels.Some? ==> Contains(labels, selector.value.matchLabels.value)) &&
      (selector.value.matchExpressions.Some? ==>
        forall i | 0 <= i < |selector.value.matchExpressions.value| ::
          MatchLabelExpression(selector.value.matchExpressions.value[i], labels))
  }

  /** Node and pod selectors agree on the operators they share, and each of those
      operators has its complement; only nodes compare numbers, and a label that
      is greater is never also less. */
  lemma OperatorsAgree(key: string, values: seq<string>, labels: Labels)
    ensures forall op | op in ["In", "NotIn", "Exists", "DoesNotExist"] ::
      MatchExpression(Requirement(key, op, values), labels) <==>
      MatchLabelExpression(LabelRequirement(key, op, Some(values)), labels)
    ensures MatchExpression(Requirement(key, "NotIn", values), labels) <==>
      !MatchExpression(Requirement(key, "In", values), labels)
    ensures MatchExpression(Requirement(key, "DoesNotExist", values), labels) <==>
      !MatchExpression(Requirement(key, "Exists", values), labels)
    ensures !(MatchExpression(Requirement(key, "Gt", values), labels) &&
              MatchExpression(Requirement(key, "Lt", values), labels))
  {
  }

  /** A required label pair means the expression that its value is the only one
      allowed. */
  lemma PairMeansIn(key: string, value: string, labels: Labels)
    ensures SelectorMatches(Some(LabelSelector(Some(map[key := value]), None)), labels)
       <==> SelectorMatches(Some(LabelSelector(None, Some([LabelRequirement(key, "In", Some([value]))]))), labels)
  {
    var req := LabelRequirement(key, "In", Some([value]));
    assert [req][0] == req;
  }

  predicate IsReady(n: Node) {
    n.conditions.Some? ==>
      exists i | 0 <= i < |n.conditions.value| :: n.conditions.value[i] == NodeCondition("Ready", "True")
  }

  /** A node's value for a topology key. */
  function TopologyValue(n: Node, key: string): Option<string> {
    if key in LabelsOf(n) then Some(LabelsOf(n)[key]) else None
  }

  /** The topology value recorded for a node name; a later node of the same
      name replaces an earlier one. */
  function TopologyOf(nodes: seq<Node>, name: string, key: string): Option<string> {
    if nodes == [] then None
    else if nodes[|nodes| - 1].name == name then TopologyValue(nodes[|nodes| - 1], key)
    else TopologyOf(nodes[..|nodes| - 1], name, key)
  }

  /** `p` falls under `term` as carried by a pod of namespace `ns`. */
  predicate TermSelects(term: PodAffinityTerm, ns: string, p: Pod) {
    (if term.namespaces == [] then p.namespace == ns else p.namespace in term.namespaces) &&
    SelectorMatches(term.labelSelector, p.labels.GetOr(map[]))
  }

  /** `p` runs on a listed node that shares the candidate's topology value. */
  predicate SharesTopology(candidate: Node, nodes: seq<Node>, key: string, p: Pod) {
    p.nodeName.Some? && TopologyValue(candidate, key).Some? &&
    TopologyOf(nodes, p.nodeName.value, key) == TopologyValue(candidate, key)
  }

  predicate PodAffinitySatisfied(candidate: Node, nodes: seq<Node>, pods: seq<Pod>, term: PodAffinityTerm, ns: string,
                                 affinity: bool)
  {
    affinity <==> exists i | 0 <= i < |pods| ::
      TermSelects(term, ns, pods[i]) && SharesTopology(candidate, nodes, term.topologyKey, pods[i])
  }

  // ---------------------------------------------------------------------
  // Requests and capacity, exactly
  // ---------------------------------------------------------------------

  function Saturate(n: nat): Q.U64 {
    if n <= Q.U64_MAX then n else Q.U64_MAX
  }

  function ContainerRequest(c: Container, r: Resource): nat {
    if r in c.requests then c.requests[r] else 0
  }

  function ContainersRequest(cs: seq<Container>, r: Resource): nat {
    if cs == [] then 0 else ContainersRequest(cs[..|cs| - 1], r) + ContainerRequest(cs[|cs| - 1], r)
  }

  function PodRequest(p: Pod, r: Resource): nat {
    ContainersRequest(p.containers, r)
  }

  /** A pod that still counts against its node. */
  predicate Occupies(p: Pod, node: string) {
    p.nodeName == Some(node) && p.phase != Some(Succeeded) && p.phase != Some(Failed)
  }

  /** The exact sum of what the non-terminal pods bound to a node request. */
  function Load(pods: seq<Pod>, node: string, r: Resource): nat {
    if pods == [] then 0
    else Load(pods[..|pods| - 1], node, r) + PodLoad(pods[|pods| - 1], node, r)
  }

  function PodLoad(p: Pod, node: string, r: Resource): nat {
    if Occupies(p, node) then PodRequest(p, r) else 0
  }

  function Allocatable(n: Node, r: Resource): (a: Option<Q.U64>) {
    if r in n.allocatable then Some(n.allocatable[r]) else None
  }

  /** The pod fits next to what already runs there. A resource it does not
      request, or whose allocatable does not parse, or is u64::MAX (which no
      saturating sum exceeds), does not constrain it. */
  predicate FitsResource(n: Node, pods: seq<Pod>, p: Pod, r: Resource) {
    PodRequest(p, r) == 0 || Allocatable(n, r).None? || Allocatable(n, r) == Some(Q.U64_MAX) ||
    Load(pods, n.name, r) + PodRequest(p, r) <= Allocatable(n, r).value
  }

  // ---------------------------------------------------------------------
  // Feasibility
  // ---------------------------------------------------------------------

  predicate SelectedNode(p: Pod, n: Node) {
    p.nodeSelector.Some? ==> Contains(LabelsOf(n), p.nodeSelector.value)
  }

  predicate NodeAffine(p: Pod, n: Node) {
    p.affinity.Some? && p.affinity.value.nodeTerms.Some? ==>
      exists i | 0 <= i < |p.affinity.value.nodeTerms.value| :: NodeMatchesTerm(n, p.affinity.value.nodeTerms.value[i])
  }

  predicate PodAffine(p: Pod, n: Node, nodes: seq<Node>, pods: seq<Pod>) {
    p.affinity.Some? ==> forall i | 0 <= i < |p.affinity.value.podTerms| ::
      PodAffinitySatisfied(n, nodes, pods, p.affinity.value.podTerms[i], p.namespace, true)
  }

  predicate PodAntiAffine(p: Pod, n: Node, nodes: seq<Node>, pods: seq<Pod>) {
    p.affinity.Some? ==> forall i | 0 <= i < |p.affinity.value.antiTerms| ::
      PodAffinitySatisfied(n, nodes, pods, p.affinity.value.antiTerms[i], p.namespace, false)
  }

  predicate Feasible(p: Pod, n: Node, nodes: seq<Node>, pods: seq<Pod>) {
    IsReady(n) && SelectedNode(p, n) && NodeAffine(p, n) &&
    PodAffine(p, n, nodes, pods) && PodAntiAffine(p, n, nodes, pods) &&
    FitsResource(n, pods, p, Cpu) && FitsResource(n, pods, p, Memory)
  }

  // ---------------------------------------------------------------------
  // Scores, in exact arithmetic
  // ---------------------------------------------------------------------

  /** The percentage of `capacity` taken by `load`, cut at 100. */
  function UsedPercent(load: nat, capacity: nat): real
    requires capacity > 0
  {
    (if load < capacity then load else capacity) as real / capacity as real * 100.0
  }

  function StrategyPercent(load: nat, capacity: nat, s: ScoringStrategy): real
    requires capacity > 0
  {
    match s
    case LeastAllocated => 100.0 - UsedPercent(load, capacity)
    case MostAllocated => UsedPercent(load, capacity)
  }

  predicate Usable(capacity: Option<nat>) {
    capacity.Some? && capacity.value > 0
  }

  /** Rust's `f64::round`. */
  function Round(x: real): int {
    if x >= 0.0 then (x + 0.5).Floor else -((0.5 - x).Floor)
  }

  /** The average over the usable resources, rounded; zero when none is. */
  function ScoreOf(cpuLoad: nat, cpu: Option<nat>, memLoad: nat, mem: Option<nat>, s: ScoringStrategy): int {
    if Usable(cpu) && Usable(mem) then
      Round((StrategyPercent(cpuLoad, cpu.value, s) + StrategyPercent(memLoad, mem.value, s)) / 2.0)
    else if Usable(cpu) then Round(StrategyPercent(cpuLoad, cpu.value, s))
    else if Usable(mem) then Round(StrategyPercent(memLoad, mem.value, s))
    else 0
  }

  function Score(p: Pod, n: Node, pods: seq<Pod>, s: ScoringStrategy): int {
    ScoreOf(Load(pods, n.name, Cpu) + PodRequest(p, Cpu), Allocatable(n, Cpu),
            Load(pods, n.name, Memory) + PodRequest(p, Memory), Allocatable(n, Memory), s)
  }

  lemma PercentBounds(load: nat, capacity: nat, s: ScoringStrategy)
    requires capacity > 0
    ensures 0.0 <= StrategyPercent(load, capacity, s) <= 100.0
  {
    var m := if load < capacity then load else capacity;
    assert 0.0 <= m as real / capacity as real <= 1.0;
  }

  lemma PercentGrows(load: nat, load': nat, capacity: nat)
    requires capacity > 0 && load <= load'
    ensures UsedPercent(load, capacity) <= UsedPercent(load', capacity)
  {
    var m := if load < capacity then load else capacity;
    var m' := if load' < capacity then load' else capacity;
    DivisionGrows(m as real, m' as real, capacity as real);
  }

  lemma DivisionGrows(x: real, y: real, c: real)
    requires c > 0.0 && x <= y
    ensures x / c <= y / c
  {
  }

  /** Every score lies between 0 and 100. */
  lemma ScoreInRange(cpuLoad: nat, cpu: Option<nat>, memLoad: nat, mem: Option<nat>, s: ScoringStrategy)
    ensures 0 <= ScoreOf(cpuLoad, cpu, memLoad, mem, s) <= 100
  {
    if Usable(cpu) {
      PercentBounds(cpuLoad, cpu.value, s);
    }
    if Usable(mem) {
      PercentBounds(memLoad, mem.value, s);
    }
  }

  /** More load never raises the LeastAllocated score and never lowers the
      MostAllocated one. */
  lemma ScoreFollowsLoad(cpuLoad: nat, cpuLoad': nat, cpu: Option<nat>, memLoad: nat, memLoad': nat, mem: Option<nat>)
    requires cpuLoad <= cpuLoad' && memLoad <= memLoad'
    ensures ScoreOf(cpuLoad', cpu, memLoad', mem, LeastAllocated) <= ScoreOf(cpuLoad, cpu, memLoad, mem, LeastAllocated)
    ensures ScoreOf(cpuLoad', cpu, memLoad', mem, MostAllocated) >= ScoreOf(cpuLoad, cpu, memLoad, mem, MostAllocated)
  {
    if Usable(cpu) {
      PercentGrows(cpuLoad, cpuLoad', cpu.value);
    }
    if Usable(mem) {
      PercentGrows(memLoad, memLoad', mem.value);
    }
  }

  /** The two strategies' scores of one node add up to 100, or to 101 when both
      round up from a half. */
  lemma StrategiesAreComplementary(cpuLoad: nat, cpu: Option<nat>, memLoad: nat, mem: Option<nat>)
    requires Usable(cpu) || Usable(mem)
    ensures
      var least, most := ScoreOf(cpuLoad, cpu, memLoad, mem, LeastAllocated),
          ScoreOf(cpuLoad, cpu, memLoad, mem, MostAllocated);
      100 <= least + most <= 101
  {
    if Usable(cpu) {
      PercentBounds(cpuLoad, cpu.value, MostAllocated);
    }
    if Usable(mem) {
      PercentBounds(memLoad, mem.value, MostAllocated);
    }
  }

  // ---------------------------------------------------------------------
  // The choice
  // ---------------------------------------------------------------------

  /** `i` is acceptable, scores highest, and is the last to score so: what
      `max_by_key` returns on the acceptable positions. */
  predicate IsLastBest(ok: seq<bool>, score: seq<int>, i: nat)
    requires |ok| == |score|
  {
    i < |ok| && ok[i] &&
    forall j | 0 <= j < |ok| && ok[j] :: score[j] <= score[i] && (i < j ==> score[j] < score[i])
  }

  function LastBest(ok: seq<bool>, score: seq<int>): (c: Option<nat>)
    requires |ok| == |score|
    ensures c.None? <==> forall j | 0 <= j < |ok| :: !ok[j]
    ensures c.Some? ==> IsLastBest(ok, score, c.value)
  {
    if ok == [] then None
    else
      var n := |ok| - 1;
      var best := LastBest(ok[..n], score[..n]);
      if ok[n] && (best.None? || score[best.value] <= score[n]) then Some(n) else best
  }

  function FeasibleNodes(p: Pod, nodes: seq<Node>, pods: seq<Pod>): (ok: seq<bool>)
    ensures |ok| == |nodes|
    ensures forall i | 0 <= i < |nodes| :: ok[i] == Feasible(p, nodes[i], nodes, pods)
  {
    seq(|nodes|, i requires 0 <= i < |nodes| => Feasible(p, nodes[i], nodes, pods))
  }

  function Scores(p: Pod, nodes: seq<Node>, pods: seq<Pod>, s: ScoringStrategy): (scores: seq<int>)
    ensures |scores| == |nodes|
    ensures forall i | 0 <= i < |nodes| :: scores[i] == Score(p, nodes[i], pods, s)
  {
    seq(|nodes|, i requires 0 <= i < |nodes| => Score(p, nodes[i], pods, s))
  }

  /** The node the scheduler picks, by position: none exactly when no node is
      feasible, otherwise the last feasible node of maximal score. */
  function Choice(p: Pod, nodes: seq<Node>, pods: seq<Pod>, s: ScoringStrategy): (c: Option<nat>)
    ensures c.None? <==> forall j | 0 <= j < |nodes| :: !Feasible(p, nodes[j], nodes, pods)
    ensures c.Some? ==> c.value < |nodes| && Feasible(p, nodes[c.value], nodes, pods)
    ensures c.Some? ==> forall j | 0 <= j < |nodes| && Feasible(p, nodes[j], nodes, pods) ::
      Score(p, nodes[j], pods, s) <= Score(p, nodes[c.value], pods, s) &&
      (c.value < j ==> Score(p, nodes[j], pods, s) < Score(p, nodes[c.value], pods, s))
  {
    LastBest(FeasibleNodes(p, nodes, pods), Scores(p, nodes, pods, s))
  }

  // ---------------------------------------------------------------------
  // The scheduler's own computations
  // ---------------------------------------------------------------------

  /** Saturating addition of saturated sums saturates the exact sum. */
  lemma SaturatesOnce(a: nat, b: nat)
    ensures Q.SaturatingAdd(Saturate(a), Saturate(b)) == Saturate(a + b)
  {
  }

  method SumPodRequests(pod: Pod) returns (cpu: Q.U64, mem: Q.U64)
    ensures cpu == Saturate(PodRequest(pod, Cpu)) && mem == Saturate(PodRequest(pod, Memory))
  {
    cpu, mem := 0, 0;
    var cs := pod.containers;
    for i := 0 to |cs|
      invariant cpu == Saturate(ContainersRequest(cs[..i], Cpu))
      invariant mem == Saturate(ContainersRequest(cs[..i], Memory))
    {
      assert cs[..i + 1][..i] == cs[..i];
      if Cpu in cs[i].requests {
        cpu := Q.SaturatingAdd(cpu, cs[i].requests[Cpu]);
      }
      if Memory in cs[i].requests {
        mem := Q.SaturatingAdd(mem, cs[i].requests[Memory]);
      }
    }
    assert cs[..|cs|] == cs;
  }

  method SumUsedOnNode(node: Node, pods: seq<Pod>) returns (cpu: Q.U64, mem: Q.U64)
    ensures cpu == Saturate(Load(pods, node.name, Cpu)) && mem == Saturate(Load(pods, node.name, Memory))
  {
    cpu, mem := 0, 0;
    for i := 0 to |pods|
      invariant cpu == Saturate(Load(pods[..i], node.name, Cpu))
      invariant mem == Saturate(Load(pods[..i], node.name, Memory))
    {
      assert pods[..i + 1][..i] == pods[..i];
      if pods[i].nodeName != Some(node.name) {
        continue;
      }
      if pods[i].phase == Some(Succeeded) || pods[i].phase == Some(Failed) {
        continue;
      }
      var c, m := SumPodRequests(pods[i]);
      cpu := Q.SaturatingAdd(cpu, c);
      mem := Q.SaturatingAdd(mem, m);
    }
    assert pods[..|pods|] == pods;
  }

  method NodeFits(node: Node, pods: seq<Pod>, ghost pod: Pod, podCpu: Q.U64, podMem: Q.U64) returns (fits: bool)
    requires podCpu == Saturate(PodRequest(pod, Cpu)) && podMem == Saturate(PodRequest(pod, Memory))
    ensures fits <==> FitsResource(node, pods, pod, Cpu) && FitsResource(node, pods, pod, Memory)
  {
    var usedCpu, usedMem := SumUsedOnNode(node, pods);
    if podCpu > 0 && Allocatable(node, Cpu).Some? {
      if Q.SaturatingAdd(usedCpu, podCpu) > Allocatable(node, Cpu).value {
        return false;
      }
    }
    if podMem > 0 && Allocatable(node, Memory).Some? {
      if Q.SaturatingAdd(usedMem, podMem) > Allocatable(node, Memory).value {
        return false;
      }
    }
    return true;
  }

  function Min(a: nat, b: nat): nat {
    if a < b then a else b
  }

  /** One resource's contribution: saturated, clamped, and still exact. */
  method PercentAfter(used: Q.U64, podRequest: Q.U64, capacity: Q.U64, strategy: ScoringStrategy, ghost load: nat,
                      ghost request: nat)
    returns (pct: real)
    requires 0 < capacity && used == Saturate(load) && podRequest == Saturate(request)
    ensures pct == StrategyPercent(load + request, capacity, strategy)
  {
    var usedAfter := Min(Q.SaturatingAdd(used, podRequest), capacity);
    assert usedAfter == if load + request < capacity then load + request else capacity;
    var usedPct := usedAfter as real / capacity as real * 100.0;
    pct := if strategy == LeastAllocated then 100.0 - usedPct else usedPct;
  }

  method ScoreNode(node: Node, pods: seq<Pod>, ghost pod: Pod, podCpu: Q.U64, podMem: Q.U64, strategy: ScoringStrategy)
    returns (score: int)
    requires podCpu == Saturate(PodRequest(pod, Cpu)) && podMem == Saturate(PodRequest(pod, Memory))
    ensures score == Score(pod, node, pods, strategy)
  {
    var usedCpu, usedMem := SumUsedOnNode(node, pods);
    score := AveragePercent(Allocatable(node, Cpu), Allocatable(node, Memory), usedCpu, usedMem, podCpu, podMem,
                            strategy, Load(pods, node.name, Cpu), Load(pods, node.name, Memory),
                            PodRequest(pod, Cpu), PodRequest(pod, Memory));
  }

  method AveragePercent(
    allocCpu: Option<Q.U64>, allocMem: Option<Q.U64>, usedCpu: Q.U64, usedMem: Q.U64, podCpu: Q.U64, podMem: Q.U64,
    strategy: ScoringStrategy, ghost cpuLoad: nat, ghost memLoad: nat, ghost cpuRequest: nat, ghost memRequest: nat)
    returns (score: int)
    requires usedCpu == Saturate(cpuLoad) && usedMem == Saturate(memLoad)
    requires podCpu == Saturate(cpuRequest) && podMem == Saturate(memRequest)
    ensures score == ScoreOf(cpuLoad + cpuRequest, allocCpu, memLoad + memRequest, allocMem, strategy)
  {
    var sum, n := 0.0, 0;
    if Usable(allocCpu) {
      var pct := PercentAfter(usedCpu, podCpu, allocCpu.value, strategy, cpuLoad, cpuRequest);
      sum, n := sum + pct, n + 1;
    }
    if Usable(allocMem) {
      var pct := PercentAfter(usedMem, podMem, allocMem.value, strategy, memLoad, memRequest);
      sum, n := sum + pct, n + 1;
    }
    if n == 0 {
      return 0;
    }
    assert n == 1 ==> sum / n as real == sum;
    assert n == 2 ==> sum / n as real == sum / 2.0;
    score := Round(sum / n as real);
  }

  /** The candidate list holds exactly the acceptable positions, in order. */
  predicate ListsAcceptable(candidates: seq<nat>, ok: seq<bool>) {
    (forall c | 0 <= c < |candidates| :: candidates[c] < |ok| && ok[candidates[c]]) &&
    (forall c, d | 0 <= c < d < |candidates| :: candidates[c] < candidates[d]) &&
    (forall j | 0 <= j < |ok| && ok[j] :: j in candidates)
  }

  method FilterNodes(pod: Pod, nodes: seq<Node>, pods: seq<Pod>, podCpu: Q.U64, podMem: Q.U64)
    returns (candidates: seq<nat>)
    requires podCpu == Saturate(PodRequest(pod, Cpu)) && podMem == Saturate(PodRequest(pod, Memory))
    ensures ListsAcceptable(candidates, FeasibleNodes(pod, nodes, pods))
  {
    ghost var ok := FeasibleNodes(pod, nodes, pods);
    candidates := [];
    for k := 0 to |nodes|
      invariant ListsAcceptable(candidates, ok[..k])
    {
      var feasible := CheckNode(pod, nodes[k], nodes, pods, podCpu, podMem);
      ghost var before := candidates;
      if feasible {
        candidates := candidates + [k];
        assert candidates[|candidates| - 1] == k;
      }
      assert forall j :: j in before ==> j in candidates;
    }
    assert ok[..|nodes|] == ok;
  }

  /** Rust's `max_by_key`: a later candidate replaces the best so far when its
      key is at least as large. */
  method LastMaximum(candidates: seq<nat>, keys: seq<int>, ghost ok: seq<bool>, ghost score: seq<int>)
    returns (best: nat)
    requires candidates != [] && |keys| == |candidates| && |ok| == |score|
    requires ListsAcceptable(candidates, ok)
    requires forall c | 0 <= c < |candidates| :: keys[c] == score[candidates[c]]
    ensures IsLastBest(ok, score, best)
  {
    var b := 0;
    for c := 1 to |candidates|
      invariant b < c
      invariant forall d | 0 <= d < c :: keys[d] <= keys[b] && (b < d ==> keys[d] < keys[b])
    {
      if keys[c] >= keys[b] {
        b := c;
      }
    }
    best := candidates[b];
    forall j | 0 <= j < |ok| && ok[j]
      ensures score[j] <= score[best] && (best < j ==> score[j] < score[best])
    {
      var d :| 0 <= d < |candidates| && candidates[d] == j;
      assert best < j ==> b < d;
    }
  }

  method ScoreCandidates(candidates: seq<nat>, pod: Pod, nodes: seq<Node>, pods: seq<Pod>, podCpu: Q.U64,
                         podMem: Q.U64, strategy: ScoringStrategy)
    returns (keys: seq<int>)
    requires forall c | 0 <= c < |candidates| :: candidates[c] < |nodes|
    requires podCpu == Saturate(PodRequest(pod, Cpu)) && podMem == Saturate(PodRequest(pod, Memory))
    ensures |keys| == |candidates|
    ensures forall c | 0 <= c < |candidates| :: keys[c] == Scores(pod, nodes, pods, strategy)[candidates[c]]
  {
    keys := [];
    for c := 0 to |candidates|
      invariant |keys| == c
      invariant forall d | 0 <= d < c :: keys[d] == Scores(pod, nodes, pods, strategy)[candidates[d]]
    {
      var key := ScoreNode(nodes[candidates[c]], pods, pod, podCpu, podMem, strategy);
      keys := keys + [key];
    }
  }

  /** Filter the nodes, score the survivors, keep the last of the best. */
  method FindNodeForPod(pod: Pod, nodes: seq<Node>, pods: seq<Pod>, strategy: ScoringStrategy)
    returns (found: Option<nat>)
    ensures found == Choice(pod, nodes, pods, strategy)
  {
    var podCpu, podMem := SumPodRequests(pod);
    var candidates := FilterNodes(pod, nodes, pods, podCpu, podMem);
    ghost var ok, scores := FeasibleNodes(pod, nodes, pods), Scores(pod, nodes, pods, strategy);
    if candidates == [] {
      assert forall j | 0 <= j < |ok| :: !ok[j];
      return None;
    }
    var keys := ScoreCandidates(candidates, pod, nodes, pods, podCpu, podMem, strategy);
    var best := LastMaximum(candidates, keys, ok, scores);
    LastBestIsUnique(ok, scores, best);
    found := Some(best);
  }

  lemma LastBestIsUnique(ok: seq<bool>, score: seq<int>, i: nat)
    requires |ok| == |score| && IsLastBest(ok, score, i)
    ensures LastBest(ok, score) == Some(i)
  {
    var c := LastBest(ok, score);
    assert c.Some? && IsLastBest(ok, score, c.value);
  }

  /** The filter one node goes through, in the source's order. */
  method CheckNode(pod: Pod, node: Node, nodes: seq<Node>, pods: seq<Pod>, podCpu: Q.U64, podMem: Q.U64)
    returns (ok: bool)
    requires podCpu == Saturate(PodRequest(pod, Cpu)) && podMem == Saturate(PodRequest(pod, Memory))
    ensures ok <==> Feasible(pod, node, nodes, pods)
  {
    if !IsReady(node) || !SelectedNode(pod, node) || !NodeAffine(pod, node) {
      return false;
    }
    if pod.affinity.Some? {
      var affine := CheckTerms(node, nodes, pods, pod.affinity.value.podTerms, pod.namespace, true);
      if !affine {
        return false;
      }
      var antiAffine := CheckTerms(node, nodes, pods, pod.affinity.value.antiTerms, pod.namespace, false);
      if !antiAffine {
        return false;
      }
    }
    ok := NodeFits(node, pods, pod, podCpu, podMem);
  }

  method CheckTerms(node: Node, nodes: seq<Node>, pods: seq<Pod>, terms: seq<PodAffinityTerm>, ns: string,
                    affinity: bool)
    returns (allSatisfied: bool)
    ensures allSatisfied <==> forall i | 0 <= i < |terms| ::
      PodAffinitySatisfied(node, nodes, pods, terms[i], ns, affinity)
  {
    allSatisfied := true;
    for i := 0 to |terms|
      invariant allSatisfied
      invariant forall k | 0 <= k < i :: PodAffinitySatisfied(node, nodes, pods, terms[k], ns, affinity)
    {
      if !PodAffinitySatisfied(node, nodes, pods, terms[i], ns, affinity) {
        return false;
      }
    }
  }
}
