/** Which patterns of bind outcomes a scheduling tick can bear: capacity and
    anti-affinity hold in every tick with these outcomes, or they do not. */
module LostAnswers {
  import opened Wrappers
  import opened Cluster
  import opened Placement
  import opened SchedulerTick
  import Q = Quantity

  /** A bind loses its answer, and a later one is executed. */
  predicate LostThenExecuted(fates: seq<Fate>) {
    exists i, j :: 0 <= i < j < |fates| && fates[i] == AnswerLost && fates[j] != NotExecuted
  }

  /** A tick whose listing succeeded. */
  predicate SightedTick(views: seq<View>, batch: seq<Pod>, nodes: seq<Node>, s: ScoringStrategy,
                        targets: seq<Option<Node>>, fates: seq<Fate>)
  {
    IsTick(views, batch, nodes, s, targets, fates) && views[0].seen == views[0].rows && UniqueNames(nodes) &&
    IsBatch(batch, views[0].rows)
  }

  // ---------------------------------------------------------------------
  // Capacity
  // ---------------------------------------------------------------------

  /** At every turn of every such tick the node stays within its allocatable, or
      where it started. */
  ghost predicate KeepsCapacity(fates: seq<Fate>, n: Node, r: Resource, a: nat) {
    forall views: seq<View>, batch: seq<Pod>, nodes: seq<Node>, s: ScoringStrategy, targets: seq<Option<Node>>, i: nat |
      SightedTick(views, batch, nodes, s, targets, fates) && n in nodes && i <= |batch| ::
      Load(views[i].rows, n.name, r) <= Max(a, Load(views[0].rows, n.name, r))
  }

  /** A bind that fits next to the pods seen fits in the table, if they load the
      node alike. */
  lemma FittingBindFits(v: View, p: Pod, target: Option<Node>, fate: Fate, n: Node, r: Resource, a: nat, bound: nat)
    requires UniqueKeys(v.rows) && p in v.rows && Unscheduled(p) && TurnFits(v, p, target, n, r)
    requires Load(v.rows, n.name, r) == Load(v.seen, n.name, r) && Load(v.rows, n.name, r) <= bound
    requires Allocatable(n, r) == Some(a) && a < Q.U64_MAX && a <= bound
    ensures Load(Settle(v, p, target, fate).rows, n.name, r) <= bound
  {
    if target.Some? && fate != NotExecuted {
      BindAddsLoad(v.rows, p, target.value.name, n.name, r);
    }
  }

  /** Turns whose binds are not executed change nothing. */
  lemma {:induction false} NothingExecuted(views: seq<View>, batch: seq<Pod>, targets: seq<Option<Node>>,
                                           fates: seq<Fate>, i: nat, j: nat)
    requires Follows(views, batch, targets, fates) && i <= j <= |batch|
    requires forall k | i <= k < j :: fates[k] == NotExecuted
    ensures views[j] == views[i]
  {
    if i < j {
      NothingExecuted(views, batch, targets, fates, i, j - 1);
      assert Turned(views[j - 1], views[j], batch[j - 1], targets[j - 1], fates[j - 1]);
    }
  }

  /** The turn of the first lost answer. */
  lemma FirstLostTurn(views: seq<View>, batch: seq<Pod>, nodes: seq<Node>, s: ScoringStrategy,
                      targets: seq<Option<Node>>, fates: seq<Fate>, k: nat, n: Node, r: Resource, a: nat)
    requires SightedTick(views, batch, nodes, s, targets, fates) && n in nodes && k < |batch|
    requires forall j | 0 <= j < k :: fates[j] != AnswerLost
    requires Allocatable(n, r) == Some(a) && a < Q.U64_MAX
    ensures Load(views[k + 1].rows, n.name, r) <= Max(a, Load(views[0].rows, n.name, r))
  {
    var bound := Max(a, Load(views[0].rows, n.name, r));
    TickKeepsBooks(views, batch, targets, fates, k, n.name, r);
    NothingLost(batch, targets, fates, k, n.name, r);
    SeenWithinCapacity(views, batch, nodes, s, targets, fates, k, n, r, a);
    NextIsRow(views, batch, targets, fates, k);
    ChosenFits(views[k], batch[k], nodes, s, n, r);
    FittingBindFits(views[k], batch[k], targets[k], fates[k], n, r, a, bound);
  }

  lemma CapacityBeforeLoss(views: seq<View>, batch: seq<Pod>, nodes: seq<Node>, s: ScoringStrategy,
                           targets: seq<Option<Node>>, fates: seq<Fate>, i: nat, n: Node, r: Resource, a: nat)
    requires SightedTick(views, batch, nodes, s, targets, fates) && n in nodes && i <= |batch|
    requires !LostThenExecuted(fates) && Allocatable(n, r) == Some(a) && a < Q.U64_MAX
    ensures Load(views[i].rows, n.name, r) <= Max(a, Load(views[0].rows, n.name, r))
  {
    if k :| 0 <= k < i && fates[k] == AnswerLost {
      FirstLostTurn(views, batch, nodes, s, targets, fates, k, n, r, a);
      NothingExecuted(views, batch, targets, fates, k + 1, i);
    } else {
      CapacityRespected(views, batch, nodes, s, targets, fates, views[0].rows, n, r, a, i);
    }
  }

  // ---------------------------------------------------------------------
  // A tick in which two pods are placed, and one does not know of the other
  // ---------------------------------------------------------------------

  function Name(k: nat): (s: string)
    ensures |s| == k
  {
    seq(k, _ => 'p')
  }

  /** A pod whose node selector the node does not meet. */
  function Barred(k: nat, n: Node): Pod {
    var value := if "bar" in LabelsOf(n) then LabelsOf(n)["bar"] + "!" else "";
    Pod("", Name(k), None, [], [], Some(map["bar" := value]), None, None, Some(Pending))
  }

  lemma BarredIsInfeasible(k: nat, n: Node, pods: seq<Pod>)
    ensures !Feasible(Barred(k, n), n, [n], pods)
  {
    var value := Barred(k, n).nodeSelector.value["bar"];
    assert "bar" in LabelsOf(n) ==> |LabelsOf(n)["bar"]| < |value|;
  }

  /** A pod for turn `k`. */
  predicate TakesTurn(p: Pod, k: nat) {
    p.namespace == "" && p.name == Name(k) && Unscheduled(p)
  }

  /** All pods barred but two. */
  function PairBatch(m: nat, n: Node, i: nat, j: nat, p: Pod, q: Pod): (batch: seq<Pod>)
    ensures |batch| == m
  {
    seq(m, k requires 0 <= k < m => if k == i then p else if k == j then q else Barred(k, n))
  }

  function PairTargets(m: nat, n: Node, i: nat, j: nat): (targets: seq<Option<Node>>)
    ensures |targets| == m
  {
    seq(m, k requires 0 <= k < m => if k == i || k == j then Some(n) else None)
  }

  function PairViews(m: nat, i: nat, j: nat, v0: View, v1: View, v2: View): (views: seq<View>)
    ensures |views| == m + 1
  {
    seq(m + 1, k requires 0 <= k <= m => if k <= i then v0 else if k <= j then v1 else v2)
  }

  lemma PairIsBatch(m: nat, n: Node, i: nat, j: nat, p: Pod, q: Pod)
    requires i < j < m && TakesTurn(p, i) && TakesTurn(q, j)
    ensures
      var batch := PairBatch(m, n, i, j, p, q);
      IsBatch(batch, batch) && p in batch && q in batch && (forall k | 0 <= k < m :: TakesTurn(batch[k], k))
  {
    var batch := PairBatch(m, n, i, j, p, q);
    assert batch[i] == p && batch[j] == q;
    forall k | 0 <= k < m
      ensures TakesTurn(batch[k], k)
    {
    }
    forall k, l | 0 <= k < l < m
      ensures !SameKey(batch[k], batch[l])
    {
      assert TakesTurn(batch[k], k) && TakesTurn(batch[l], l);
      assert |batch[k].name| == k && |batch[l].name| == l;
    }
  }

  lemma NoOneElse(v: View, k: nat, n: Node, s: ScoringStrategy)
    ensures Target(v, Barred(k, n), [n], s).None?
  {
    BarredIsInfeasible(k, n, v.seen);
  }

  /** The turns of such a tick. */
  lemma PairFollows(m: nat, n: Node, i: nat, j: nat, p: Pod, q: Pod, fates: seq<Fate>, v0: View, v1: View, v2: View)
    requires i < j < m == |fates| && UniqueKeys(v0.rows)
    requires v1 == Settle(v0, p, Some(n), fates[i]) && v2 == Settle(v1, q, Some(n), fates[j])
    ensures Follows(PairViews(m, i, j, v0, v1, v2), PairBatch(m, n, i, j, p, q), PairTargets(m, n, i, j), fates)
  {
    var views, batch, targets := PairViews(m, i, j, v0, v1, v2), PairBatch(m, n, i, j, p, q), PairTargets(m, n, i, j);
    forall k | 0 <= k < m
      ensures Turned(views[k], views[k + 1], batch[k], targets[k], fates[k])
    {
      if k == i {
        assert views[k] == v0 && views[k + 1] == v1 && batch[k] == p;
      } else if k == j {
        assert views[k] == v1 && views[k + 1] == v2 && batch[k] == q;
      } else {
        assert views[k] == views[k + 1] && targets[k] == None;
      }
    }
  }

  /** Its targets are the scheduler's choices. */
  lemma PairChooses(m: nat, n: Node, i: nat, j: nat, p: Pod, q: Pod, s: ScoringStrategy, v0: View, v1: View, v2: View)
    requires i < j < m && Feasible(p, n, [n], v0.seen) && Feasible(q, n, [n], v1.seen)
    ensures Chooses(PairViews(m, i, j, v0, v1, v2), PairBatch(m, n, i, j, p, q), [n], s, PairTargets(m, n, i, j))
  {
    var views, batch, targets := PairViews(m, i, j, v0, v1, v2), PairBatch(m, n, i, j, p, q), PairTargets(m, n, i, j);
    forall k | 0 <= k < m
      ensures IsTarget(targets[k], views[k], batch[k], [n], s)
    {
      if k == i {
        OnlyNode(v0, p, n, s);
      } else if k == j {
        OnlyNode(v1, q, n, s);
      } else {
        NoOneElse(views[k], k, n, s);
      }
    }
  }

  /** With the first answer of the two lost, both pods are placed on the node: the
      second is chosen against the same pods as the first. */
  lemma PairTick(n: Node, s: ScoringStrategy, fates: seq<Fate>, i: nat, j: nat, p: Pod, q: Pod)
    returns (views: seq<View>, batch: seq<Pod>, targets: seq<Option<Node>>)
    requires i < j < |fates| && fates[i] == AnswerLost && fates[j] != NotExecuted
    requires TakesTurn(p, i) && TakesTurn(q, j)
    requires
      var start := PairBatch(|fates|, n, i, j, p, q);
      Feasible(p, n, [n], start) && Feasible(q, n, [n], start)
    ensures SightedTick(views, batch, [n], s, targets, fates) && batch == PairBatch(|fates|, n, i, j, p, q)
    ensures views[0].rows == batch && batch[i] == p && batch[j] == q && targets[i] == Some(n) && targets[j] == Some(n)
    ensures views[j].rows == BindRow(batch, p.namespace, p.name, n.name)
    ensures views[|batch|].rows == BindRow(views[j].rows, q.namespace, q.name, n.name)
  {
    var m := |fates|;
    batch, targets := PairBatch(m, n, i, j, p, q), PairTargets(m, n, i, j);
    PairIsBatch(m, n, i, j, p, q);
    var v0 := View(batch, batch);
    var v1 := Settle(v0, p, Some(n), fates[i]);
    var v2 := Settle(v1, q, Some(n), fates[j]);
    views := PairViews(m, i, j, v0, v1, v2);
    PairFollows(m, n, i, j, p, q, fates, v0, v1, v2);
    PairChooses(m, n, i, j, p, q, s, v0, v1, v2);
    assert views[0] == v0 && views[j] == v1 && views[m] == v2;
  }

  /** Two pods as large as the allocatable. */
  lemma LossOverloads(fates: seq<Fate>, i: nat, j: nat, n: Node, r: Resource, a: nat, s: ScoringStrategy)
    requires i < j < |fates| && fates[i] == AnswerLost && fates[j] != NotExecuted
    requires IsReady(n) && Allocatable(n, r) == Some(a) && 0 < a < Q.U64_MAX
    ensures !KeepsCapacity(fates, n, r, a)
  {
    var p, q := PodRequesting(Name(i), a, r, None), PodRequesting(Name(j), a, r, None);
    var start := PairBatch(|fates|, n, i, j, p, q);
    PairIsBatch(|fates|, n, i, j, p, q);
    UnboundLoadsNothing(start, n.name, r);
    RequestingFits(Name(i), n, start, r, a);
    RequestingFits(Name(j), n, start, r, a);
    var views, batch, targets := PairTick(n, s, fates, i, j, p, q);
    PairLoads(batch, p, q, n, r, a);
    Overloaded(views, batch, [n], s, targets, fates, n, r, a);
  }

  lemma RequestingFits(name: string, n: Node, pods: seq<Pod>, r: Resource, a: nat)
    requires IsReady(n) && Allocatable(n, r) == Some(a) && a < Q.U64_MAX && Load(pods, n.name, r) == 0
    ensures Feasible(PodRequesting(name, a, r, None), n, [n], pods)
  {
  }

  lemma PairLoads(batch: seq<Pod>, p: Pod, q: Pod, n: Node, r: Resource, a: nat)
    requires UniqueKeys(batch) && p in batch && q in batch && !SameKey(p, q) && Unscheduled(p) && Unscheduled(q)
    requires Load(batch, n.name, r) == 0 && PodRequest(p, r) == a && PodRequest(q, r) == a
    ensures
      var once := BindRow(batch, p.namespace, p.name, n.name);
      Load(BindRow(once, q.namespace, q.name, n.name), n.name, r) == 2 * a
  {
    BindAddsLoad(batch, p, n.name, n.name, r);
    BindKeepsOthers(batch, p, n.name, q);
    BindAddsLoad(BindRow(batch, p.namespace, p.name, n.name), q, n.name, n.name, r);
  }

  lemma Overloaded(views: seq<View>, batch: seq<Pod>, nodes: seq<Node>, s: ScoringStrategy,
                   targets: seq<Option<Node>>, fates: seq<Fate>, n: Node, r: Resource, a: nat)
    requires SightedTick(views, batch, nodes, s, targets, fates) && n in nodes && Load(views[0].rows, n.name, r) == 0
    requires Load(views[|batch|].rows, n.name, r) > a
    ensures !KeepsCapacity(fates, n, r, a)
  {
  }

  /** On a Ready node that offers the resource, every tick with these outcomes keeps
      capacity if and only if no lost answer is followed by an executed bind. */
  lemma KeepsCapacityIff(fates: seq<Fate>, n: Node, r: Resource, a: nat)
    requires IsReady(n) && Allocatable(n, r) == Some(a) && 0 < a < Q.U64_MAX
    ensures KeepsCapacity(fates, n, r, a) <==> !LostThenExecuted(fates)
  {
    if LostThenExecuted(fates) {
      var i, j :| 0 <= i < j < |fates| && fates[i] == AnswerLost && fates[j] != NotExecuted;
      LossOverloads(fates, i, j, n, r, a, LeastAllocated);
    } else {
      forall views: seq<View>, batch: seq<Pod>, nodes: seq<Node>, s: ScoringStrategy, targets: seq<Option<Node>>,
          i: nat |
        SightedTick(views, batch, nodes, s, targets, fates) && n in nodes && i <= |batch|
        ensures Load(views[i].rows, n.name, r) <= Max(a, Load(views[0].rows, n.name, r))
      {
        CapacityBeforeLoss(views, batch, nodes, s, targets, fates, i, n, r, a);
      }
    }
  }

  // ---------------------------------------------------------------------
  // Anti-affinity
  // ---------------------------------------------------------------------

  /** The pod of turn `k`, if its bind is executed, lands apart from every row that
      is bound by then and selected by one of its terms. */
  ghost predicate LandsApart(views: seq<View>, batch: seq<Pod>, nodes: seq<Node>, targets: seq<Option<Node>>,
                             fates: seq<Fate>, k: nat)
    requires k < |batch| && k < |views| && k < |targets| && k < |fates|
  {
    targets[k].Some? && fates[k] != NotExecuted && batch[k].affinity.Some? ==>
      forall t, q, np | t in batch[k].affinity.value.antiTerms && q in views[k].rows && np in nodes ::
        TermSelects(t, batch[k].namespace, q) && q.nodeName == Some(np.name) ==>
        Apart(targets[k].value, np, t.topologyKey)
  }

  /** In every such tick every pod lands apart. */
  ghost predicate KeepsApart(fates: seq<Fate>) {
    forall views: seq<View>, batch: seq<Pod>, nodes: seq<Node>, s: ScoringStrategy, targets: seq<Option<Node>>, k: nat |
      SightedTick(views, batch, nodes, s, targets, fates) &&
      k < |batch| :: LandsApart(views, batch, nodes, targets, fates, k)
  }

  /** A lost row is that of a turn with a lost answer. */
  lemma {:induction false} LostRowTurn(batch: seq<Pod>, targets: seq<Option<Node>>, fates: seq<Fate>, i: nat, q: Pod)
    returns (k: nat)
    requires i <= |batch| && i <= |targets| && i <= |fates| && LostRow(batch, targets, fates, i, q)
    ensures k < i && fates[k] == AnswerLost
  {
    if IsLostBind(batch[i - 1], targets[i - 1], fates[i - 1], q) {
      k := i - 1;
    } else {
      k := LostRowTurn(batch, targets, fates, i - 1, q);
    }
  }

  lemma ApartBeforeLoss(views: seq<View>, batch: seq<Pod>, nodes: seq<Node>, s: ScoringStrategy,
                        targets: seq<Option<Node>>, fates: seq<Fate>, k: nat)
    requires SightedTick(views, batch, nodes, s, targets, fates) && k < |batch| && !LostThenExecuted(fates)
    ensures LandsApart(views, batch, nodes, targets, fates, k)
  {
    if targets[k].Some? && fates[k] != NotExecuted && batch[k].affinity.Some? {
      forall t, q, np | t in batch[k].affinity.value.antiTerms && q in views[k].rows && np in nodes &&
          TermSelects(t, batch[k].namespace, q) && q.nodeName == Some(np.name)
        ensures Apart(targets[k].value, np, t.topologyKey)
      {
        if LostRow(batch, targets, fates, k, q) {
          var l := LostRowTurn(batch, targets, fates, k, q);
          assert LostThenExecuted(fates);
        } else {
          AntiAffinityHolds(views, batch, nodes, s, targets, fates, k, t, q, np);
        }
      }
    }
  }

  /** A zone with one node, and pods that keep a zone to themselves. */
  function Zoned(): Node {
    Node("n", Some(map["zone" := "z"]), map[], None)
  }

  function Alone(): PodAffinityTerm {
    PodAffinityTerm(Some(LabelSelector(Some(map["app" := "a"]), None)), [], "zone")
  }

  function Loner(k: nat): Pod {
    Pod("", Name(k), Some(map["app" := "a"]), [], [], None, Some(Affinity(None, [], [Alone()])), None, Some(Pending))
  }

  lemma LonerFits(k: nat, pods: seq<Pod>)
    requires forall l | 0 <= l < |pods| :: pods[l].nodeName.None?
    ensures Feasible(Loner(k), Zoned(), [Zoned()], pods)
  {
    assert forall r :: PodRequest(Loner(k), r) == 0;
  }

  lemma LonersRepel(i: nat, j: nat)
    ensures Loner(j).affinity.Some? && Alone() in Loner(j).affinity.value.antiTerms
    ensures TermSelects(Alone(), Loner(j).namespace, Bound(Loner(i), "n")) &&
      !Apart(Zoned(), Zoned(), Alone().topologyKey)
  {
    assert [Alone()][0] == Alone();
  }

  lemma PairOfLoners(fates: seq<Fate>, i: nat, j: nat, s: ScoringStrategy)
    returns (views: seq<View>, batch: seq<Pod>, targets: seq<Option<Node>>)
    requires i < j < |fates| && fates[i] == AnswerLost && fates[j] != NotExecuted
    ensures SightedTick(views, batch, [Zoned()], s, targets, fates)
    ensures batch[j] == Loner(j) && targets[j] == Some(Zoned()) && Bound(Loner(i), "n") in views[j].rows
  {
    var start := PairBatch(|fates|, Zoned(), i, j, Loner(i), Loner(j));
    PairIsBatch(|fates|, Zoned(), i, j, Loner(i), Loner(j));
    LonerFits(i, start);
    LonerFits(j, start);
    views, batch, targets := PairTick(Zoned(), s, fates, i, j, Loner(i), Loner(j));
    BindsLast(views, batch, targets, fates, i, j);
  }

  lemma LossCrowds(fates: seq<Fate>, i: nat, j: nat, s: ScoringStrategy)
    requires i < j < |fates| && fates[i] == AnswerLost && fates[j] != NotExecuted
    ensures !KeepsApart(fates)
  {
    LonersRepel(i, j);
    var views, batch, targets := PairOfLoners(fates, i, j, s);
    assert Zoned() in [Zoned()];
    Crowded(views, batch, [Zoned()], s, targets, fates, j, Alone(), Bound(Loner(i), "n"), Zoned());
  }

  lemma Crowded(views: seq<View>, batch: seq<Pod>, nodes: seq<Node>, s: ScoringStrategy, targets: seq<Option<Node>>,
                fates: seq<Fate>, k: nat, t: PodAffinityTerm, q: Pod, np: Node)
    requires SightedTick(views, batch, nodes, s, targets, fates) && k < |batch| && targets[k].Some?
    requires fates[k] != NotExecuted && batch[k].affinity.Some? && t in batch[k].affinity.value.antiTerms
    requires q in views[k].rows && np in nodes && TermSelects(t, batch[k].namespace, q) && q.nodeName == Some(np.name)
    requires !Apart(targets[k].value, np, t.topologyKey)
    ensures !KeepsApart(fates)
  {
    assert !LandsApart(views, batch, nodes, targets, fates, k);
  }

  /** Every tick with these outcomes keeps anti-affinity if and only if no lost
      answer is followed by an executed bind. */
  lemma KeepsApartIff(fates: seq<Fate>)
    ensures KeepsApart(fates) <==> !LostThenExecuted(fates)
  {
    if LostThenExecuted(fates) {
      var i, j :| 0 <= i < j < |fates| && fates[i] == AnswerLost && fates[j] != NotExecuted;
      LossCrowds(fates, i, j, LeastAllocated);
    } else {
      forall views: seq<View>, batch: seq<Pod>, nodes: seq<Node>, s: ScoringStrategy, targets: seq<Option<Node>>,
          k: nat |
        SightedTick(views, batch, nodes, s, targets, fates) && k < |batch|
        ensures LandsApart(views, batch, nodes, targets, fates, k)
      {
        ApartBeforeLoss(views, batch, nodes, s, targets, fates, k);
      }
    }
  }
}
