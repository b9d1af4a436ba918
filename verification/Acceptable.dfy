/** What a node the scheduler chooses offers a pod, said of the objects' own
    fields, and the scheduler's predicates shown to mean it. */
module Acceptable {
  import opened Wrappers
  import opened Cluster
  import opened Placement
  import opened Text
  import Q = Quantity

  // ---------------------------------------------------------------------
  // Labels
  // ---------------------------------------------------------------------

  /** The object carries the label. */
  ghost predicate Carries(labels: Option<Labels>, key: string, value: string) {
    labels.Some? && key in labels.value && labels.value[key] == value
  }

  /** The label an expression asks for is among the values. */
  ghost predicate HasOneOf(labels: Option<Labels>, key: string, values: seq<string>) {
    exists i :: 0 <= i < |values| && Carries(labels, key, values[i])
  }

  ghost predicate Has(labels: Option<Labels>, key: string) {
    labels.Some? && key in labels.value
  }

  /** The numbers of the label and of the first value, if both are numbers. */
  ghost predicate Numbers(labels: Option<Labels>, key: string, values: seq<string>, a: int, b: int) {
    Has(labels, key) && values != [] && Q.ParseI64(labels.value[key]) == Some(a) && Q.ParseI64(values[0]) == Some(b)
  }

  /** A node requirement that is met; an operator that is not known asks nothing. */
  ghost predicate Meets(n: Node, req: Requirement) {
    (req.operator == "In" ==> HasOneOf(n.labels, req.key, req.values)) &&
    (req.operator == "NotIn" ==> !HasOneOf(n.labels, req.key, req.values)) &&
    (req.operator == "Exists" ==> Has(n.labels, req.key)) &&
    (req.operator == "DoesNotExist" ==> !Has(n.labels, req.key)) &&
    (req.operator == "Gt" ==> exists a, b :: Numbers(n.labels, req.key, req.values, a, b) && a > b) &&
    (req.operator == "Lt" ==> exists a, b :: Numbers(n.labels, req.key, req.values, a, b) && a < b)
  }

  lemma MeetsIs(n: Node, req: Requirement)
    ensures MatchExpression(req, LabelsOf(n)) <==> Meets(n, req)
  {
    var labels := LabelsOf(n);
    if req.operator == "In" || req.operator == "NotIn" {
      OneOfIs(n.labels, req.key, req.values);
    } else if req.operator == "Gt" || req.operator == "Lt" {
      if req.key in labels && req.values != [] {
        var a, b := Q.ParseI64(labels[req.key]), Q.ParseI64(req.values[0]);
        if a.Some? && b.Some? {
          assert Numbers(n.labels, req.key, req.values, a.value, b.value);
        }
      }
    }
  }

  lemma OneOfIs(labels: Option<Labels>, key: string, values: seq<string>)
    ensures HasOneOf(labels, key, values) <==> Has(labels, key) && labels.value[key] in values
  {
    if Has(labels, key) && labels.value[key] in values {
      var i :| 0 <= i < |values| && values[i] == labels.value[key];
      assert Carries(labels, key, values[i]);
    }
  }

  function InRange(v: int): Option<int> {
    if IsI64(v) then Some(v) else None
  }

  /** How a number with a sign is read, given its digits. */
  lemma SignedSteps(s: string, t: string, v: int)
    requires s != [] && (s[0] == '+' || s[0] == '-') && s[1..] == t
    requires t != [] && Q.LeadingDigits(t) == |t| && AllDigits(t)
    requires v == if s[0] == '-' then 0 - DigitsValue(t) else DigitsValue(t)
    ensures Q.ParseI64(s) == InRange(v)
  {
    assert t[..|t|] == t;
  }

  lemma BareReads(t: string)
    requires AllDigits(t) && t != []
    ensures Q.ParseI64(t) == InRange(DigitsValue(t))
  {
    Q.LeadingDigitsOfDigits(t);
    assert IsDigit(t[0]);
  }

  lemma PlusReads(t: string)
    requires AllDigits(t) && t != []
    ensures Q.ParseI64("+" + t) == InRange(DigitsValue(t))
  {
    Q.LeadingDigitsOfDigits(t);
    assert ("+" + t)[1..] == t;
    SignedSteps("+" + t, t, DigitsValue(t));
  }

  lemma MinusReads(t: string, v: int)
    requires AllDigits(t) && t != [] && v == 0 - DigitsValue(t)
    ensures Q.ParseI64("-" + t) == InRange(v)
  {
    Q.LeadingDigitsOfDigits(t);
    assert ("-" + t)[1..] == t;
    SignedSteps("-" + t, t, v);
  }

  /** A printed number is read as itself, if it is an i64, with or without a plus sign
      before it. */
  lemma PrintedIntParses(n: int)
    ensures Q.ParseI64(ShowInt(n)) == if IsI64(n) then Some(n) else None
    ensures n >= 0 ==> Q.ParseI64("+" + ShowInt(n)) == if IsI64(n) then Some(n) else None
  {
    if n < 0 {
      ShowNatParses(-n);
      MinusReads(ShowNat(-n), n);
    } else {
      ShowNatParses(n);
      BareReads(ShowNat(n));
      PlusReads(ShowNat(n));
    }
  }

  predicate IsI64(n: int) {
    -0x8000_0000_0000_0000 <= n < 0x8000_0000_0000_0000
  }

  /** On numbers `Gt` and `Lt` compare the label with the value, in that order. */
  lemma NumbersCompare(n: Node, key: string, a: int, b: int, more: seq<string>)
    requires IsI64(a) && IsI64(b)
    requires Carries(n.labels, key, ShowInt(a))
    ensures MatchExpression(Requirement(key, "Gt", [ShowInt(b)] + more), LabelsOf(n)) <==> a > b
    ensures MatchExpression(Requirement(key, "Lt", [ShowInt(b)] + more), LabelsOf(n)) <==> a < b
  {
    PrintedIntParses(a);
    PrintedIntParses(b);
  }

  /** The pod's labels fall under a label selector; no selector selects all. */
  ghost predicate FallsUnder(q: Pod, selector: Option<LabelSelector>) {
    selector.Some? ==> PairsHold(q, selector.value.matchLabels) && ExpressionsHold(q, selector.value.matchExpressions)
  }

  ghost predicate PairsHold(q: Pod, pairs: Option<Labels>) {
    pairs.Some? ==> forall k | k in pairs.value :: Carries(q.labels, k, pairs.value[k])
  }

  ghost predicate ExpressionsHold(q: Pod, exprs: Option<seq<LabelRequirement>>) {
    exprs.Some? ==> forall i | 0 <= i < |exprs.value| :: ExpressionHolds(q, exprs.value[i])
  }

  ghost predicate ExpressionHolds(q: Pod, req: LabelRequirement) {
    var values := if req.values.Some? then req.values.value else [];
    (req.operator == "In" ==> HasOneOf(q.labels, req.key, values)) &&
    (req.operator == "NotIn" ==> !HasOneOf(q.labels, req.key, values)) &&
    (req.operator == "Exists" ==> Has(q.labels, req.key)) &&
    (req.operator == "DoesNotExist" ==> !Has(q.labels, req.key))
  }

  lemma FallsUnderIs(q: Pod, selector: Option<LabelSelector>)
    ensures SelectorMatches(selector, q.labels.GetOr(map[])) <==> FallsUnder(q, selector)
  {
    if selector.Some? && selector.value.matchExpressions.Some? {
      var exprs := selector.value.matchExpressions.value;
      forall i | 0 <= i < |exprs|
        ensures MatchLabelExpression(exprs[i], q.labels.GetOr(map[])) <==> ExpressionHolds(q, exprs[i])
      {
        OneOfIs(q.labels, exprs[i].key, exprs[i].values.GetOr([]));
      }
    }
  }

  // ---------------------------------------------------------------------
  // Company
  // ---------------------------------------------------------------------

  /** `nodes[i]` is the node of this name; of two the later one counts. */
  ghost predicate IsNamed(nodes: seq<Node>, i: nat, name: string) {
    i < |nodes| && nodes[i].name == name && forall j | i < j < |nodes| :: nodes[j].name != name
  }

  /** The two nodes carry one value of the topology key. */
  ghost predicate ShareValue(n: Node, m: Node, key: string) {
    exists value :: Carries(n.labels, key, value) && Carries(m.labels, key, value)
  }

  /** `q`, on the listed node at `i`, is in the same place as `n`, and the term is
      about `q`. */
  ghost predicate IsCompany(n: Node, nodes: seq<Node>, t: PodAffinityTerm, ns: string, q: Pod, i: nat) {
    (if t.namespaces == [] then q.namespace == ns else q.namespace in t.namespaces) &&
    FallsUnder(q, t.labelSelector) &&
    q.nodeName.Some? && IsNamed(nodes, i, q.nodeName.value) && ShareValue(n, nodes[i], t.topologyKey)
  }

  /** Some pod is. */
  ghost predicate InCompany(n: Node, nodes: seq<Node>, pods: seq<Pod>, t: PodAffinityTerm, ns: string) {
    exists k, i :: 0 <= k < |pods| && 0 <= i < |nodes| && IsCompany(n, nodes, t, ns, pods[k], i)
  }

  lemma {:induction false} NamedNode(nodes: seq<Node>, name: string) returns (i: nat)
    ensures i < |nodes| ==> IsNamed(nodes, i, name)
    ensures i >= |nodes| ==> forall j | 0 <= j < |nodes| :: nodes[j].name != name
  {
    if nodes == [] {
      return 0;
    }
    var n := |nodes| - 1;
    if nodes[n].name == name {
      return n;
    }
    i := NamedNode(nodes[..n], name);
    if i >= n {
      i := |nodes|;
    }
  }

  lemma {:induction false} TopologyIs(nodes: seq<Node>, name: string, key: string)
    ensures forall i: nat | IsNamed(nodes, i, name) :: TopologyOf(nodes, name, key) == TopologyValue(nodes[i], key)
    ensures (forall j | 0 <= j < |nodes| :: nodes[j].name != name) ==> TopologyOf(nodes, name, key) == None
  {
    if nodes != [] {
      var n := |nodes| - 1;
      TopologyIs(nodes[..n], name, key);
      forall i: nat | IsNamed(nodes, i, name)
        ensures TopologyOf(nodes, name, key) == TopologyValue(nodes[i], key)
      {
        if i < n {
          assert IsNamed(nodes[..n], i, name);
        }
      }
    }
  }

  lemma ShareValueIs(n: Node, m: Node, key: string)
    ensures ShareValue(n, m, key) <==> TopologyValue(n, key).Some? && TopologyValue(n, key) == TopologyValue(m, key)
  {
    if TopologyValue(n, key).Some? && TopologyValue(n, key) == TopologyValue(m, key) {
      assert Carries(n.labels, key, TopologyValue(n, key).value);
    }
  }

  lemma SharesTopologyIs(n: Node, nodes: seq<Node>, key: string, q: Pod)
    requires q.nodeName.Some?
    ensures SharesTopology(n, nodes, key, q) <==>
      exists i :: 0 <= i < |nodes| && IsNamed(nodes, i, q.nodeName.value) && ShareValue(n, nodes[i], key)
  {
    var name := q.nodeName.value;
    TopologyIs(nodes, name, key);
    var at := NamedNode(nodes, name);
    if at < |nodes| {
      ShareValueIs(n, nodes[at], key);
      forall i | 0 <= i < |nodes| && IsNamed(nodes, i, name)
        ensures i == at
      {
      }
    }
  }

  lemma CompanyIs(n: Node, nodes: seq<Node>, t: PodAffinityTerm, ns: string, q: Pod)
    ensures TermSelects(t, ns, q) && SharesTopology(n, nodes, t.topologyKey, q)
       <==> exists i :: 0 <= i < |nodes| && IsCompany(n, nodes, t, ns, q, i)
  {
    FallsUnderIs(q, t.labelSelector);
    if q.nodeName.Some? {
      SharesTopologyIs(n, nodes, t.topologyKey, q);
    }
    if TermSelects(t, ns, q) && SharesTopology(n, nodes, t.topologyKey, q) {
      var i :| 0 <= i < |nodes| && IsNamed(nodes, i, q.nodeName.value) && ShareValue(n, nodes[i], t.topologyKey);
      assert IsCompany(n, nodes, t, ns, q, i);
    }
  }

  lemma InCompanyIs(n: Node, nodes: seq<Node>, pods: seq<Pod>, t: PodAffinityTerm, ns: string)
    ensures PodAffinitySatisfied(n, nodes, pods, t, ns, true) <==> InCompany(n, nodes, pods, t, ns)
    ensures PodAffinitySatisfied(n, nodes, pods, t, ns, false) <==> !InCompany(n, nodes, pods, t, ns)
  {
    forall k | 0 <= k < |pods|
      ensures TermSelects(t, ns, pods[k]) && SharesTopology(n, nodes, t.topologyKey, pods[k])
         <==> exists i :: 0 <= i < |nodes| && IsCompany(n, nodes, t, ns, pods[k], i)
    {
      CompanyIs(n, nodes, t, ns, pods[k]);
    }
  }

  // ---------------------------------------------------------------------
  // Room
  // ---------------------------------------------------------------------

  function Total(s: seq<nat>): nat {
    if s == [] then 0 else s[0] + Total(s[1..])
  }

  lemma {:induction false} TotalAppend(s: seq<nat>, x: nat)
    ensures Total(s + [x]) == Total(s) + x
  {
    if s == [] {
      assert s + [x] == [x] && [x][1..] == [];
    } else {
      assert (s + [x])[1..] == s[1..] + [x];
      TotalAppend(s[1..], x);
    }
  }

  /** What each container asks for. */
  function Requests(cs: seq<Container>, r: Resource): seq<nat> {
    seq(|cs|, i requires 0 <= i < |cs| => if r in cs[i].requests then cs[i].requests[r] else 0)
  }

  /** What the pod asks for. */
  function Asked(p: Pod, r: Resource): nat {
    Total(Requests(p.containers, r))
  }

  /** What each pod takes of the node that it runs on, or is still to run on. */
  function Shares(pods: seq<Pod>, name: string, r: Resource): seq<nat> {
    seq(|pods|, i requires 0 <= i < |pods| =>
      if pods[i].nodeName == Some(name) && pods[i].phase !in {Some(Succeeded), Some(Failed)} then Asked(pods[i], r)
      else 0)
  }

  /** What the pods take of the node. */
  function Taken(pods: seq<Pod>, name: string, r: Resource): nat {
    Total(Shares(pods, name, r))
  }

  lemma {:induction false} AskedIs(cs: seq<Container>, r: Resource)
    ensures Total(Requests(cs, r)) == ContainersRequest(cs, r)
  {
    if cs != [] {
      var n := |cs| - 1;
      AskedIs(cs[..n], r);
      TotalAppend(Requests(cs[..n], r), Requests(cs, r)[n]);
      assert Requests(cs, r) == Requests(cs[..n], r) + [Requests(cs, r)[n]];
    }
  }

  lemma {:induction false} TakenIs(pods: seq<Pod>, name: string, r: Resource)
    ensures Taken(pods, name, r) == Load(pods, name, r)
  {
    if pods != [] {
      var n := |pods| - 1;
      TakenIs(pods[..n], name, r);
      AskedIs(pods[n].containers, r);
      TotalAppend(Shares(pods[..n], name, r), Shares(pods, name, r)[n]);
      assert Shares(pods, name, r) == Shares(pods[..n], name, r) + [Shares(pods, name, r)[n]];
    }
  }

  /** A resource the pod asks for, and the node states, suffices for both; the
      largest number a node can state is no limit. */
  ghost predicate HasRoom(n: Node, pods: seq<Pod>, p: Pod, r: Resource) {
    Asked(p, r) > 0 && r in n.allocatable && n.allocatable[r] < 0xFFFF_FFFF_FFFF_FFFF ==>
      Taken(pods, n.name, r) + Asked(p, r) <= n.allocatable[r]
  }

  // ---------------------------------------------------------------------
  // The whole
  // ---------------------------------------------------------------------

  /** The node says nothing of its conditions, or says that it is Ready. */
  ghost predicate SaysReady(n: Node) {
    n.conditions.Some? ==>
      exists i :: 0 <= i < |n.conditions.value| && n.conditions.value[i].kind == "Ready" &&
        n.conditions.value[i].status == "True"
  }

  /** The node takes the pod. */
  ghost predicate Takes(n: Node, nodes: seq<Node>, pods: seq<Pod>, p: Pod) {
    SaysReady(n) &&
    (p.nodeSelector.Some? ==> forall k | k in p.nodeSelector.value :: Carries(n.labels, k, p.nodeSelector.value[k])) &&
    (p.affinity.Some? ==> Suits(n, nodes, pods, p.affinity.value, p.namespace)) &&
    HasRoom(n, pods, p, Cpu) && HasRoom(n, pods, p, Memory)
  }

  /** One of the node terms is met, every term of company finds some, and no term of
      avoidance does. */
  ghost predicate Suits(n: Node, nodes: seq<Node>, pods: seq<Pod>, a: Affinity, ns: string) {
    (a.nodeTerms.Some? ==> exists i :: 0 <= i < |a.nodeTerms.value| && MeetsAll(n, a.nodeTerms.value[i])) &&
    (forall i | 0 <= i < |a.podTerms| :: InCompany(n, nodes, pods, a.podTerms[i], ns)) &&
    (forall i | 0 <= i < |a.antiTerms| :: !InCompany(n, nodes, pods, a.antiTerms[i], ns))
  }

  ghost predicate MeetsAll(n: Node, term: seq<Requirement>) {
    forall i | 0 <= i < |term| :: Meets(n, term[i])
  }

  lemma MeetsAllIs(n: Node, term: seq<Requirement>)
    ensures NodeMatchesTerm(n, term) <==> MeetsAll(n, term)
  {
    forall i | 0 <= i < |term|
      ensures MatchExpression(term[i], LabelsOf(n)) <==> Meets(n, term[i])
    {
      MeetsIs(n, term[i]);
    }
  }

  lemma SuitsIs(n: Node, nodes: seq<Node>, pods: seq<Pod>, p: Pod)
    requires p.affinity.Some?
    ensures NodeAffine(p, n) && PodAffine(p, n, nodes, pods) && PodAntiAffine(p, n, nodes, pods)
       <==> Suits(n, nodes, pods, p.affinity.value, p.namespace)
  {
    var a := p.affinity.value;
    forall i | a.nodeTerms.Some? && 0 <= i < |a.nodeTerms.value|
      ensures NodeMatchesTerm(n, a.nodeTerms.value[i]) <==> MeetsAll(n, a.nodeTerms.value[i])
    {
      MeetsAllIs(n, a.nodeTerms.value[i]);
    }
    forall i | 0 <= i < |a.podTerms|
      ensures PodAffinitySatisfied(n, nodes, pods, a.podTerms[i], p.namespace, true)
         <==> InCompany(n, nodes, pods, a.podTerms[i], p.namespace)
    {
      InCompanyIs(n, nodes, pods, a.podTerms[i], p.namespace);
    }
    forall i | 0 <= i < |a.antiTerms|
      ensures PodAffinitySatisfied(n, nodes, pods, a.antiTerms[i], p.namespace, false)
         <==> !InCompany(n, nodes, pods, a.antiTerms[i], p.namespace)
    {
      InCompanyIs(n, nodes, pods, a.antiTerms[i], p.namespace);
    }
  }

  lemma RoomIs(n: Node, pods: seq<Pod>, p: Pod, r: Resource)
    ensures FitsResource(n, pods, p, r) <==> HasRoom(n, pods, p, r)
  {
    AskedIs(p.containers, r);
    TakenIs(pods, n.name, r);
  }

  lemma TakesIs(n: Node, nodes: seq<Node>, pods: seq<Pod>, p: Pod)
    ensures Feasible(p, n, nodes, pods) <==> Takes(n, nodes, pods, p)
  {
    RoomIs(n, pods, p, Cpu);
    RoomIs(n, pods, p, Memory);
    if p.affinity.Some? {
      SuitsIs(n, nodes, pods, p);
    }
  }

  /** The chosen node takes the pod, and a node is chosen whenever one does. */
  lemma ChosenTakes(p: Pod, nodes: seq<Node>, pods: seq<Pod>, s: ScoringStrategy)
    ensures
      var c := Choice(p, nodes, pods, s);
      (c.Some? ==> c.value < |nodes| && Takes(nodes[c.value], nodes, pods, p)) &&
      (c.None? ==> forall i | 0 <= i < |nodes| :: !Takes(nodes[i], nodes, pods, p))
  {
    forall i | 0 <= i < |nodes|
      ensures Feasible(p, nodes[i], nodes, pods) <==> Takes(nodes[i], nodes, pods, p)
    {
      TakesIs(nodes[i], nodes, pods, p);
    }
  }

  /** Required company: the chosen node has some for every term, and a term that finds
      none anywhere keeps the pod waiting. */
  lemma RequiredCompany(p: Pod, nodes: seq<Node>, pods: seq<Pod>, s: ScoringStrategy, t: PodAffinityTerm)
    requires p.affinity.Some? && t in p.affinity.value.podTerms
    ensures var c := Choice(p, nodes, pods, s); c.Some? ==> InCompany(nodes[c.value], nodes, pods, t, p.namespace)
    ensures (forall i | 0 <= i < |nodes| :: !InCompany(nodes[i], nodes, pods, t, p.namespace)) ==>
              Choice(p, nodes, pods, s).None?
  {
    ChosenTakes(p, nodes, pods, s);
    var c := Choice(p, nodes, pods, s);
    if c.Some? {
      var j :| 0 <= j < |p.affinity.value.podTerms| && p.affinity.value.podTerms[j] == t;
      assert InCompany(nodes[c.value], nodes, pods, t, p.namespace);
    }
  }

  // ---------------------------------------------------------------------
  // Scores
  // ---------------------------------------------------------------------

  function Least(a: nat, b: nat): nat {
    if a < b then a else b
  }

  /** The whole number nearest to num / den, a half going up. */
  ghost predicate IsNearest(score: int, num: int, den: int) {
    (2 * score - 1) * den <= 2 * num < (2 * score + 1) * den
  }

  lemma ProductGrows(a: int, b: int, d: int)
    requires a <= b && d >= 0
    ensures a * d <= b * d
  {
  }

  lemma RealProductGrows(a: real, b: real, d: real)
    requires a < b && d > 0.0
    ensures a * d < b * d
  {
  }

  lemma OneNearest(x: int, y: int, num: int, den: int)
    requires den > 0 && IsNearest(x, num, den) && IsNearest(y, num, den)
    ensures x == y
  {
    if x < y {
      ProductGrows(2 * x + 1, 2 * y - 1, den);
    } else if y < x {
      ProductGrows(2 * y + 1, 2 * x - 1, den);
    }
  }

  lemma Scaled(a: int, d: int)
    ensures a as real * d as real == (a * d) as real
  {
  }

  /** A real between two whole numbers, scaled. */
  lemma Below(y: real, b: int, num: int, d: int)
    requires d > 0 && y * d as real == num as real
    ensures y < b as real ==> num < b * d
    ensures y >= b as real ==> num >= b * d
  {
    Scaled(b, d);
    if y < b as real {
      RealProductGrows(y, b as real, d as real);
    } else if y > b as real {
      RealProductGrows(b as real, y, d as real);
    }
  }

  lemma NearestIs(x: real, num: nat, den: nat)
    requires den > 0 && x * den as real == num as real
    ensures IsNearest(Round(x), num, den)
  {
    var k := Round(x);
    Below(x, 0, num, den);
    assert 2.0 * x * den as real == (2 * num) as real;
    Below(2.0 * x, 2 * k - 1, 2 * num, den);
    Below(2.0 * x, 2 * k + 1, 2 * num, den);
  }

  /** A hundred times what counts of the capacity: what is taken, or what is left. */
  function Share(load: nat, capacity: nat, s: ScoringStrategy): nat {
    100 * if s == MostAllocated then Least(load, capacity) else capacity - Least(load, capacity)
  }

  lemma PercentIs(load: nat, capacity: nat, s: ScoringStrategy)
    requires capacity > 0
    ensures StrategyPercent(load, capacity, s) * capacity as real == Share(load, capacity, s) as real
  {
  }

  lemma AverageIs(x: real, y: real, a: nat, c: nat, b: nat, d: nat)
    requires x * c as real == a as real && y * d as real == b as real
    ensures (x + y) / 2.0 * (2 * c * d) as real == (a * d + b * c) as real
  {
    var rc, rd := c as real, d as real;
    assert (2 * c * d) as real == 2.0 * (rc * rd);
    assert (x + y) / 2.0 * (2.0 * (rc * rd)) == (x + y) * (rc * rd);
    assert (x + y) * (rc * rd) == x * rc * rd + y * rd * rc;
    assert (a * d + b * c) as real == (a as real) * rd + (b as real) * rc;
  }

  lemma AverageNearest(x: real, y: real, a: nat, c: nat, b: nat, d: nat)
    requires c > 0 && d > 0 && x * c as real == a as real && y * d as real == b as real
    ensures IsNearest(Round((x + y) / 2.0), a * d + b * c, 2 * c * d)
  {
    AverageIs(x, y, a, c, b, d);
    ProductGrows(1, c, d);
    ProductGrows(0, a, d);
    ProductGrows(0, b, c);
    NearestIs((x + y) / 2.0, a * d + b * c, 2 * c * d);
  }

  lemma TwoResourceScore(cpuLoad: nat, cpu: nat, memLoad: nat, mem: nat, s: ScoringStrategy)
    requires cpu > 0 && mem > 0
    ensures IsNearest(ScoreOf(cpuLoad, Some(cpu), memLoad, Some(mem), s),
                      Share(cpuLoad, cpu, s) * mem + Share(memLoad, mem, s) * cpu, 2 * cpu * mem)
  {
    PercentIs(cpuLoad, cpu, s);
    PercentIs(memLoad, mem, s);
    AverageNearest(StrategyPercent(cpuLoad, cpu, s), StrategyPercent(memLoad, mem, s), Share(cpuLoad, cpu, s), cpu,
                   Share(memLoad, mem, s), mem);
  }

  lemma OneResourceScore(load: nat, capacity: nat, s: ScoringStrategy)
    requires capacity > 0
    ensures IsNearest(Round(StrategyPercent(load, capacity, s)), Share(load, capacity, s), capacity)
  {
    PercentIs(load, capacity, s);
    NearestIs(StrategyPercent(load, capacity, s), Share(load, capacity, s), capacity);
  }

  /** What the node states of a resource; a resource it does not state is as good as
      none. */
  function Stated(n: Node, r: Resource): nat {
    if r in n.allocatable then n.allocatable[r] else 0
  }

  /** The score is the percentage of the node that is taken, or left, once the pod is
      there: the average over the resources the node has, to the nearest whole. */
  ghost predicate Rates(n: Node, pods: seq<Pod>, p: Pod, s: ScoringStrategy, score: int) {
    var cpu, mem := Stated(n, Cpu), Stated(n, Memory);
    var c := Share(Taken(pods, n.name, Cpu) + Asked(p, Cpu), cpu, s);
    var m := Share(Taken(pods, n.name, Memory) + Asked(p, Memory), mem, s);
    if cpu > 0 && mem > 0 then IsNearest(score, c * mem + m * cpu, 2 * cpu * mem)
    else if cpu > 0 then IsNearest(score, c, cpu)
    else if mem > 0 then IsNearest(score, m, mem)
    else score == 0
  }

  lemma ScoreRates(p: Pod, n: Node, pods: seq<Pod>, s: ScoringStrategy)
    ensures Rates(n, pods, p, s, Score(p, n, pods, s))
  {
    var cpu, mem := Stated(n, Cpu), Stated(n, Memory);
    TakenIs(pods, n.name, Cpu);
    TakenIs(pods, n.name, Memory);
    AskedIs(p.containers, Cpu);
    AskedIs(p.containers, Memory);
    var c := Taken(pods, n.name, Cpu) + Asked(p, Cpu);
    var m := Taken(pods, n.name, Memory) + Asked(p, Memory);
    if cpu > 0 && mem > 0 {
      TwoResourceScore(c, cpu, m, mem, s);
    } else if cpu > 0 {
      OneResourceScore(c, cpu, s);
    } else if mem > 0 {
      OneResourceScore(m, mem, s);
    }
  }

  /** Two scores of one node are the same. */
  lemma OneRating(n: Node, pods: seq<Pod>, p: Pod, s: ScoringStrategy, x: int, y: int)
    requires Rates(n, pods, p, s, x) && Rates(n, pods, p, s, y)
    ensures x == y
  {
    var cpu, mem := Stated(n, Cpu), Stated(n, Memory);
    if cpu > 0 && mem > 0 {
      ProductGrows(1, cpu, mem);
      OneNearest(x, y, Share(Taken(pods, n.name, Cpu) + Asked(p, Cpu), cpu, s) * mem +
                       Share(Taken(pods, n.name, Memory) + Asked(p, Memory), mem, s) * cpu, 2 * cpu * mem);
    } else if cpu > 0 {
      OneNearest(x, y, Share(Taken(pods, n.name, Cpu) + Asked(p, Cpu), cpu, s), cpu);
    } else if mem > 0 {
      OneNearest(x, y, Share(Taken(pods, n.name, Memory) + Asked(p, Memory), mem, s), mem);
    }
  }

  /** Among the nodes that take the pod the chosen one rates highest, and is the last
      in the list to rate so. */
  lemma ChosenRatesBest(p: Pod, nodes: seq<Node>, pods: seq<Pod>, s: ScoringStrategy, j: nat, best: int, other: int)
    requires Choice(p, nodes, pods, s).Some? && j < |nodes| && Takes(nodes[j], nodes, pods, p)
    requires Rates(nodes[Choice(p, nodes, pods, s).value], pods, p, s, best)
    requires Rates(nodes[j], pods, p, s, other)
    ensures other <= best && (other == best ==> j <= Choice(p, nodes, pods, s).value)
  {
    var c := Choice(p, nodes, pods, s).value;
    TakesIs(nodes[j], nodes, pods, p);
    ScoreRates(p, nodes[c], pods, s);
    ScoreRates(p, nodes[j], pods, s);
    OneRating(nodes[c], pods, p, s, best, Score(p, nodes[c], pods, s));
    OneRating(nodes[j], pods, p, s, other, Score(p, nodes[j], pods, s));
  }
}
