/** One scheduling tick: every unscheduled pod in turn is placed against the
    pods listed at the start plus the bindings the tick has made so far. */
module SchedulerTick {
  import opened Wrappers
  import opened Cluster
  import opened Placement
  import opened Rows
  import Q = Quantity

  /** The pods table, and the pods the tick counts with. */
  datatype View = View(rows: seq<Pod>, seen: seq<Pod>)

  function Bound(p: Pod, node: string): Pod {
    p.(nodeName := Some(node))
  }

  /** The node the scheduler picks for a pod, if any. */
  function Target(v: View, pod: Pod, nodes: seq<Node>, s: ScoringStrategy): Option<Node> {
    var c := Choice(pod, nodes, v.seen, s);
    if c.None? then None else Some(nodes[c.value])
  }

  /** Bind a pod to its target. A statement that is not executed changes nothing;
      one that is changes the pod's row; the copy that joins the pods seen needs
      the answer. */
  function Settle(v: View, pod: Pod, target: Option<Node>, fate: Fate): (v': View)
    requires UniqueKeys(v.rows)
    ensures UniqueKeys(v'.rows)
  {
    if target.None? || fate == NotExecuted then v
    else
      var node := target.value.name;
      View(BindRow(v.rows, pod.namespace, pod.name, node),
           if fate == Answered then v.seen + [Bound(pod, node)] else v.seen)
  }

  predicate Turned(v: View, v': View, pod: Pod, target: Option<Node>, fate: Fate) {
    UniqueKeys(v.rows) && v' == Settle(v, pod, target, fate)
  }

  /** The tick's views, turn by turn; `fates[k]` says what happens to the k-th
      bind statement. */
  predicate Follows(views: seq<View>, batch: seq<Pod>, targets: seq<Option<Node>>, fates: seq<Fate>) {
    |views| == |batch| + 1 && |targets| == |batch| && |fates| == |batch| && UniqueKeys(views[0].rows) &&
    forall k | 0 <= k < |batch| :: Turned(views[k], views[k + 1], batch[k], targets[k], fates[k])
  }

  predicate IsTarget(target: Option<Node>, v: View, pod: Pod, nodes: seq<Node>, s: ScoringStrategy) {
    target == Target(v, pod, nodes, s)
  }

  /** Every target is the scheduler's choice against the pods seen by then. */
  predicate Chooses(views: seq<View>, batch: seq<Pod>, nodes: seq<Node>, s: ScoringStrategy,
                    targets: seq<Option<Node>>)
  {
    |views| == |batch| + 1 && |targets| == |batch| &&
    forall k | 0 <= k < |batch| :: IsTarget(targets[k], views[k], batch[k], nodes, s)
  }

  predicate IsTick(views: seq<View>, batch: seq<Pod>, nodes: seq<Node>, s: ScoringStrategy,
                   targets: seq<Option<Node>>, fates: seq<Fate>)
  {
    Follows(views, batch, targets, fates) && Chooses(views, batch, nodes, s, targets)
  }

  /** The first `i` turns of a tick. */
  predicate Begun(views: seq<View>, batch: seq<Pod>, nodes: seq<Node>, s: ScoringStrategy,
                  targets: seq<Option<Node>>, fates: seq<Fate>, i: nat)
  {
    i <= |batch| && |batch| == |fates| && IsTick(views, batch[..i], nodes, s, targets, fates[..i])
  }

  lemma TurnExtends(views: seq<View>, batch: seq<Pod>, nodes: seq<Node>, s: ScoringStrategy,
                    targets: seq<Option<Node>>, fates: seq<Fate>, i: nat, v: View, target: Option<Node>)
    requires Begun(views, batch, nodes, s, targets, fates, i) && i < |batch|
    requires Turned(views[i], v, batch[i], target, fates[i]) && IsTarget(target, views[i], batch[i], nodes, s)
    ensures Begun(views + [v], batch, nodes, s, targets + [target], fates, i + 1)
  {
    var views', targets' := views + [v], targets + [target];
    forall k | 0 <= k < i + 1
      ensures Turned(views'[k], views'[k + 1], batch[..i + 1][k], targets'[k], fates[..i + 1][k])
      ensures IsTarget(targets'[k], views'[k], batch[..i + 1][k], nodes, s)
    {
      assert k < i ==> Turned(views[k], views[k + 1], batch[..i][k], targets[k], fates[..i][k]);
      assert k < i ==> IsTarget(targets[k], views[k], batch[..i][k], nodes, s);
    }
  }

  /** The scheduler of one server over the shared table. */
  class Scheduler {
    const table: PodTable
    const strategy: ScoringStrategy

    constructor (table: PodTable, strategy: ScoringStrategy)
      ensures this.table == table && this.strategy == strategy
    {
      this.table, this.strategy := table, strategy;
    }

    /** `nodes` is the Ready listing; `listOk` says whether listing the bound
        pods succeeded (a failure is read as an empty list). The table goes
        through a tick over the unscheduled pods. */
    method SchedulePendingPods(nodes: seq<Node>, listOk: bool, fates: seq<Fate>)
      returns (ghost views: seq<View>, ghost targets: seq<Option<Node>>)
      requires table.Valid() && |fates| == |ListUnscheduled(table.rows)|
      modifies table
      ensures table.Valid()
      ensures nodes == [] ==> table.rows == old(table.rows)
      ensures nodes != [] ==>
        var batch := ListUnscheduled(old(table.rows));
        IsTick(views, batch, nodes, strategy, targets, fates) && table.rows == views[|batch|].rows &&
        views[0] == View(old(table.rows), if listOk then old(table.rows) else [])
    {
      var pods := ListUnscheduled(table.rows);
      var existing := [];
      if listOk {
        existing := table.List(None, None);
        ListsEverything(table.rows);
      }
      if pods == [] || nodes == [] {
        return [View(table.rows, existing)], [];
      }
      views, targets := PlaceInTurn(pods, nodes, existing, fates);
    }

    /** Every pod in turn, each bind answered joining the pods seen. */
    method PlaceInTurn(pods: seq<Pod>, nodes: seq<Node>, listed: seq<Pod>, fates: seq<Fate>)
      returns (ghost views: seq<View>, ghost targets: seq<Option<Node>>)
      requires table.Valid() && |fates| == |pods|
      modifies table
      ensures table.Valid() && IsTick(views, pods, nodes, strategy, targets, fates)
      ensures views[0] == View(old(table.rows), listed) && table.rows == views[|pods|].rows
    {
      var existing := listed;
      views, targets := [View(table.rows, existing)], [];
      for i := 0 to |pods|
        invariant table.Valid() && Begun(views, pods, nodes, strategy, targets, fates, i)
        invariant views[0] == View(old(table.rows), listed) && views[i] == View(table.rows, existing)
      {
        var node, target := SchedulePod(pods[i], nodes, existing, fates[i]);
        if node.Some? {
          existing := existing + [Bound(pods[i], node.value)];
        }
        TurnExtends(views, pods, nodes, strategy, targets, fates, i, View(table.rows, existing), target);
        views, targets := views + [View(table.rows, existing)], targets + [target];
      }
      assert pods[..|pods|] == pods && fates[..|pods|] == fates;
    }

    /** Choose a node and bind the pod to it; the node when the bind was answered. */
    method SchedulePod(pod: Pod, nodes: seq<Node>, existing: seq<Pod>, fate: Fate)
      returns (node: Option<string>, ghost target: Option<Node>)
      requires table.Valid()
      modifies table
      ensures table.Valid() && target == Target(View(old(table.rows), existing), pod, nodes, strategy)
      ensures View(table.rows, if node.Some? then existing + [Bound(pod, node.value)] else existing)
           == Settle(View(old(table.rows), existing), pod, target, fate)
    {
      var found := FindNodeForPod(pod, nodes, existing, strategy);
      if found.None? {
        return None, None;
      }
      target := Some(nodes[found.value]);
      var name := nodes[found.value].name;
      if fate != NotExecuted {
        table.BindToNode(pod.namespace, pod.name, name);
      }
      node := if fate == Answered then Some(name) else None;
    }
  }

  lemma {:induction false} ListsEverything(rows: seq<Pod>)
    ensures ListPods(rows, None, None) == rows
  {
    if rows != [] {
      ListsEverything(rows[..|rows| - 1]);
    }
  }

  // ---------------------------------------------------------------------
  // What a batch is
  // ---------------------------------------------------------------------

  /** A listing of the unscheduled rows, each once, in any order. */
  predicate IsBatch(batch: seq<Pod>, rows: seq<Pod>) {
    (forall i | 0 <= i < |batch| :: batch[i] in rows && Unscheduled(batch[i])) && UniqueKeys(batch)
  }

  /** Listing the unscheduled rows yields a batch. */
  lemma ListingIsBatch(rows: seq<Pod>)
    requires UniqueKeys(rows)
    ensures IsBatch(ListUnscheduled(rows), rows)
  {
    FilterUnique(rows, Unscheduled);
    var f := Filter(rows, Unscheduled);
    var r := ListUnscheduled(rows);
    forall i | 0 <= i < |r|
      ensures r[i] in rows && Unscheduled(r[i])
    {
      assert r[i] == f[|f| - 1 - i];
      assert f[|f| - 1 - i] in f;
    }
    forall i, j | 0 <= i < j < |r|
      ensures !SameKey(r[i], r[j])
    {
      assert r[i] == f[|f| - 1 - i] && r[j] == f[|f| - 1 - j];
    }
  }

  // ---------------------------------------------------------------------
  // Loads
  // ---------------------------------------------------------------------

  lemma LoadAppends(pods: seq<Pod>, p: Pod, node: string, r: Resource)
    ensures Load(pods + [p], node, r) == Load(pods, node, r) + PodLoad(p, node, r)
  {
    assert (pods + [p])[..|pods|] == pods;
  }

  lemma {:induction false} LoadUpdates(rows: seq<Pod>, i: nat, p: Pod, node: string, r: Resource)
    requires i < |rows|
    ensures Load(rows[i := p], node, r) == Load(rows, node, r) - PodLoad(rows[i], node, r) + PodLoad(p, node, r)
  {
    var n := |rows| - 1;
    if i == n {
      assert rows[i := p][..n] == rows[..n];
    } else {
      assert rows[i := p][..n] == rows[..n][i := p];
      LoadUpdates(rows[..n], i, p, node, r);
    }
  }

  /** Binding an unbound row adds the pod's requests to its node, and nothing else. */
  lemma BindAddsLoad(rows: seq<Pod>, p: Pod, target: string, node: string, r: Resource)
    requires UniqueKeys(rows) && p in rows && Unscheduled(p)
    ensures Load(BindRow(rows, p.namespace, p.name, target), node, r)
         == Load(rows, node, r) + if node == target then PodRequest(p, r) else 0
  {
    FindsRow(rows, p);
    LoadUpdates(rows, Find(rows, p.namespace, p.name), Bound(p, target), node, r);
  }

  lemma BindKeepsOthers(rows: seq<Pod>, p: Pod, target: string, q: Pod)
    requires UniqueKeys(rows) && p in rows && q in rows && !SameKey(p, q)
    ensures q in BindRow(rows, p.namespace, p.name, target)
  {
    FindsRow(rows, p);
    var k :| 0 <= k < |rows| && rows[k] == q;
    assert BindRow(rows, p.namespace, p.name, target)[k] == q;
  }

  /** The target is a listed node the pod fits. */
  lemma TargetFits(v: View, p: Pod, nodes: seq<Node>, s: ScoringStrategy)
    ensures
      var target := Target(v, p, nodes, s);
      target.Some? ==> target.value in nodes && forall r :: FitsResource(target.value, v.seen, p, r)
  {
    forall r | Target(v, p, nodes, s).Some?
      ensures FitsResource(Target(v, p, nodes, s).value, v.seen, p, r)
    {
      assert r == Cpu || r == Memory;
    }
  }

  /** The pods still to come are unbound rows, each once. */
  lemma SettleKeepsBatch(v: View, rest: seq<Pod>, target: Option<Node>, fate: Fate)
    requires rest != [] && UniqueKeys(v.rows) && IsBatch(rest, v.rows)
    ensures IsBatch(rest[1..], Settle(v, rest[0], target, fate).rows)
  {
    if target.Some? && fate != NotExecuted {
      forall i | 0 <= i < |rest| - 1
        ensures rest[1..][i] in BindRow(v.rows, rest[0].namespace, rest[0].name, target.value.name)
      {
        BindKeepsOthers(v.rows, rest[0], target.value.name, rest[i + 1]);
      }
    }
  }

  lemma {:induction false} TickKeepsBatch(views: seq<View>, batch: seq<Pod>, targets: seq<Option<Node>>,
                                          fates: seq<Fate>, i: nat)
    requires Follows(views, batch, targets, fates) && IsBatch(batch, views[0].rows) && i <= |batch|
    ensures IsBatch(batch[i..], views[i].rows) && UniqueKeys(views[i].rows)
  {
    if i > 0 {
      TickKeepsBatch(views, batch, targets, fates, i - 1);
      assert batch[i - 1..][1..] == batch[i..];
      assert Turned(views[i - 1], views[i], batch[i - 1], targets[i - 1], fates[i - 1]);
      SettleKeepsBatch(views[i - 1], batch[i - 1..], targets[i - 1], fates[i - 1]);
    }
  }

  /** The next pod of the batch is an unbound row. */
  lemma NextIsRow(views: seq<View>, batch: seq<Pod>, targets: seq<Option<Node>>, fates: seq<Fate>, i: nat)
    requires Follows(views, batch, targets, fates) && IsBatch(batch, views[0].rows) && i < |batch|
    ensures UniqueKeys(views[i].rows) && batch[i] in views[i].rows && Unscheduled(batch[i])
    ensures Turned(views[i], views[i + 1], batch[i], targets[i], fates[i])
  {
    TickKeepsBatch(views, batch, targets, fates, i);
    assert batch[i..][0] == batch[i];
  }

  predicate Listed(target: Option<Node>, nodes: seq<Node>) {
    target.Some? ==> target.value in nodes
  }

  lemma TargetsAreListed(views: seq<View>, batch: seq<Pod>, nodes: seq<Node>, s: ScoringStrategy,
                         targets: seq<Option<Node>>)
    requires Chooses(views, batch, nodes, s, targets)
    ensures forall k | 0 <= k < |batch| :: Listed(targets[k], nodes)
  {
    forall k | 0 <= k < |batch|
      ensures Listed(targets[k], nodes)
    {
      TargetFits(views[k], batch[k], nodes, s);
    }
  }

  // ---------------------------------------------------------------------
  // Capacity
  // ---------------------------------------------------------------------

  /** What a turn puts on a node without the tick learning of it. */
  function LostBy(pod: Pod, target: Option<Node>, fate: Fate, node: string, r: Resource): nat {
    if fate == AnswerLost && target.Some? && target.value.name == node then PodRequest(pod, r) else 0
  }

  /** The exact requests of the binds on a node that executed unanswered. */
  function LostOn(batch: seq<Pod>, targets: seq<Option<Node>>, fates: seq<Fate>, i: nat, node: string, r: Resource): nat
    requires i <= |batch| && i <= |targets| && i <= |fates|
  {
    if i == 0 then 0
    else LostOn(batch, targets, fates, i - 1, node, r) + LostBy(batch[i - 1], targets[i - 1], fates[i - 1], node, r)
  }

  lemma {:induction false} NothingLost(batch: seq<Pod>, targets: seq<Option<Node>>, fates: seq<Fate>, i: nat,
                                       node: string, r: Resource)
    requires i <= |batch| && i <= |targets| && i <= |fates| && forall k | 0 <= k < i :: fates[k] != AnswerLost
    ensures LostOn(batch, targets, fates, i, node, r) == 0
  {
    if i > 0 {
      NothingLost(batch, targets, fates, i - 1, node, r);
    }
  }

  /** The table has gained what the pods seen have gained and what was lost. */
  predicate Booked(start: View, v: View, lost: nat, node: string, r: Resource) {
    Load(v.rows, node, r) - Load(start.rows, node, r) == Load(v.seen, node, r) - Load(start.seen, node, r) + lost
  }

  lemma SettleBooks(start: View, v: View, lost: nat, p: Pod, target: Option<Node>, fate: Fate, node: string,
                    r: Resource)
    requires UniqueKeys(v.rows) && p in v.rows && Unscheduled(p) && Booked(start, v, lost, node, r)
    ensures Booked(start, Settle(v, p, target, fate), lost + LostBy(p, target, fate, node, r), node, r)
  {
    if target.Some? && fate != NotExecuted {
      BindAddsLoad(v.rows, p, target.value.name, node, r);
      LoadAppends(v.seen, Bound(p, target.value.name), node, r);
    }
  }

  /** The pods seen stay within a bound that is at least the allocatable. */
  lemma SettleFits(v: View, p: Pod, target: Option<Node>, fate: Fate, n: Node, r: Resource, a: nat, bound: nat)
    requires UniqueKeys(v.rows) && Unscheduled(p) && Allocatable(n, r) == Some(a) && a < Q.U64_MAX
    requires TurnFits(v, p, target, n, r) && a <= bound && Load(v.seen, n.name, r) <= bound
    ensures Load(Settle(v, p, target, fate).seen, n.name, r) <= bound
  {
    if target.Some? {
      LoadAppends(v.seen, Bound(p, target.value.name), n.name, r);
    }
  }

  function Max(a: nat, b: nat): nat {
    if a < b then b else a
  }

  /** Throughout the tick, on every node and from any listing, the table's load
      is the load the tick counts with, plus what the listing missed, plus what
      was bound with a lost answer. */
  lemma {:induction false} TickKeepsBooks(views: seq<View>, batch: seq<Pod>, targets: seq<Option<Node>>,
                                          fates: seq<Fate>, i: nat, node: string, r: Resource)
    requires Follows(views, batch, targets, fates) && IsBatch(batch, views[0].rows) && i <= |batch|
    ensures Booked(views[0], views[i], LostOn(batch, targets, fates, i, node, r), node, r)
  {
    if i > 0 {
      TickKeepsBooks(views, batch, targets, fates, i - 1, node, r);
      NextIsRow(views, batch, targets, fates, i - 1);
      SettleBooks(views[0], views[i - 1], LostOn(batch, targets, fates, i - 1, node, r),
                  batch[i - 1], targets[i - 1], fates[i - 1], node, r);
    }
  }

  /** A target fits next to the pods seen, and is the node if it has its name. */
  predicate TurnFits(v: View, p: Pod, target: Option<Node>, n: Node, r: Resource) {
    target.Some? ==> FitsResource(target.value, v.seen, p, r) && (target.value.name == n.name ==> target.value == n)
  }

  lemma ChosenFits(v: View, p: Pod, nodes: seq<Node>, s: ScoringStrategy, n: Node, r: Resource)
    requires UniqueNames(nodes) && n in nodes
    ensures TurnFits(v, p, Target(v, p, nodes, s), n, r)
  {
    TargetFits(v, p, nodes, s);
  }

  /** The pods seen stay within a bound that is at least the allocatable. */
  lemma {:induction false} FittingStaysWithin(views: seq<View>, batch: seq<Pod>, targets: seq<Option<Node>>,
                                              fates: seq<Fate>, i: nat, n: Node, r: Resource, a: nat, bound: nat)
    requires Follows(views, batch, targets, fates) && IsBatch(batch, views[0].rows) && i <= |batch|
    requires forall k | 0 <= k < |batch| :: TurnFits(views[k], batch[k], targets[k], n, r)
    requires Allocatable(n, r) == Some(a) && a < Q.U64_MAX && a <= bound && Load(views[0].seen, n.name, r) <= bound
    ensures Load(views[i].seen, n.name, r) <= bound
  {
    if i > 0 {
      FittingStaysWithin(views, batch, targets, fates, i - 1, n, r, a, bound);
      NextIsRow(views, batch, targets, fates, i - 1);
      SettleFits(views[i - 1], batch[i - 1], targets[i - 1], fates[i - 1], n, r, a, bound);
    }
  }

  /** The load the tick counts with stays within the allocatable, or where the
      listing had it. */
  lemma SeenWithinCapacity(views: seq<View>, batch: seq<Pod>, nodes: seq<Node>, s: ScoringStrategy,
                           targets: seq<Option<Node>>, fates: seq<Fate>,
                           i: nat, n: Node, r: Resource, a: nat)
    requires IsTick(views, batch, nodes, s, targets, fates) && IsBatch(batch, views[0].rows) && UniqueNames(nodes) &&
      i <= |batch|
    requires n in nodes && Allocatable(n, r) == Some(a) && a < Q.U64_MAX
    ensures Load(views[i].seen, n.name, r) <= Max(a, Load(views[0].seen, n.name, r))
  {
    forall k | 0 <= k < |batch|
      ensures TurnFits(views[k], batch[k], targets[k], n, r)
    {
      ChosenFits(views[k], batch[k], nodes, s, n, r);
    }
    FittingStaysWithin(views, batch, targets, fates, i, n, r, a, Max(a, Load(views[0].seen, n.name, r)));
  }

  /** Over a whole tick, for any batch order and any fate of every bind: at no turn
      does a listed node hold more than its allocatable, or what it started with,
      plus the requests bound to it with a lost answer. With no answer lost that
      is the capacity guarantee. */
  lemma CapacityRespected(views: seq<View>, batch: seq<Pod>, nodes: seq<Node>, s: ScoringStrategy,
                          targets: seq<Option<Node>>, fates: seq<Fate>,
                          rows: seq<Pod>, n: Node, r: Resource, a: nat, i: nat)
    requires IsTick(views, batch, nodes, s, targets, fates) && views[0] == View(rows, rows) && IsBatch(batch, rows)
    requires UniqueNames(nodes) && n in nodes && Allocatable(n, r) == Some(a) && a < Q.U64_MAX && i <= |batch|
    ensures
      var load, bound := Load(views[i].rows, n.name, r), Max(a, Load(rows, n.name, r));
      load <= bound + LostOn(batch, targets, fates, i, n.name, r) &&
      ((forall k | 0 <= k < i :: fates[k] != AnswerLost) ==> load <= bound)
  {
    TickKeepsBooks(views, batch, targets, fates, i, n.name, r);
    SeenWithinCapacity(views, batch, nodes, s, targets, fates, i, n, r, a);
    if forall k | 0 <= k < i :: fates[k] != AnswerLost {
      NothingLost(batch, targets, fates, i, n.name, r);
    }
  }

  // ---------------------------------------------------------------------
  // A lost answer
  // ---------------------------------------------------------------------

  /** A single feasible node is the target. */
  lemma OnlyNode(v: View, p: Pod, n: Node, s: ScoringStrategy)
    requires Feasible(p, n, [n], v.seen)
    ensures Target(v, p, [n], s) == Some(n)
  {
    assert Feasible(p, [n][0], [n], v.seen);
  }

  /** Two pods, one node that takes either, and the first answer lost: the tick
      sends both to the node. */
  lemma TwoTurns(p: Pod, q: Pod, n: Node, s: ScoringStrategy) returns (views: seq<View>)
    requires !SameKey(p, q) && Unscheduled(p) && Unscheduled(q)
    requires Feasible(p, n, [n], [p, q]) && Feasible(q, n, [n], [p, q])
    ensures IsTick(views, [p, q], [n], s, [Some(n), Some(n)], [AnswerLost, Answered])
    ensures views[0] == View([p, q], [p, q]) && IsBatch([p, q], [p, q])
    ensures views[2].seen == [p, q] + [Bound(q, n.name)]
  {
    var rows := [p, q];
    assert rows[0] in rows && rows[1] in rows;
    var start := View(rows, rows);
    var once := Settle(start, p, Some(n), AnswerLost);
    views := [start, once, Settle(once, q, Some(n), Answered)];
    assert Follows(views, rows, [Some(n), Some(n)], [AnswerLost, Answered]);
    assert Chooses(views, rows, [n], s, [Some(n), Some(n)]) by {
      OnlyNode(start, p, n, s);
      OnlyNode(once, q, n, s);
    }
  }

  /** The lost requests are really there: two pods that fit a free node one at a
      time both end on it when the first answer is lost. */
  lemma LostAnswerOvercommits(p: Pod, q: Pod, n: Node, s: ScoringStrategy, r: Resource) returns (views: seq<View>)
    requires !SameKey(p, q) && Unscheduled(p) && Unscheduled(q)
    requires Feasible(p, n, [n], [p, q]) && Feasible(q, n, [n], [p, q])
    ensures IsTick(views, [p, q], [n], s, [Some(n), Some(n)], [AnswerLost, Answered]) &&
      views[0] == View([p, q], [p, q])
    ensures Load(views[2].rows, n.name, r) == PodRequest(p, r) + PodRequest(q, r)
  {
    views := TwoTurns(p, q, n, s);
    TickKeepsBooks(views, [p, q], [Some(n), Some(n)], [AnswerLost, Answered], 2, n.name, r);
    OneLost(p, q, n, r);
    LoadAppends([p, q], Bound(q, n.name), n.name, r);
    UnboundLoadsNothing([p, q], n.name, r);
  }

  lemma OneLost(p: Pod, q: Pod, n: Node, r: Resource)
    ensures LostOn([p, q], [Some(n), Some(n)], [AnswerLost, Answered], 2, n.name, r) == PodRequest(p, r)
  {
    var batch, targets, fates := [p, q], [Some(n), Some(n)], [AnswerLost, Answered];
    assert LostBy(batch[0], targets[0], fates[0], n.name, r) == PodRequest(p, r);
    assert LostBy(batch[1], targets[1], fates[1], n.name, r) == 0;
    assert LostOn(batch, targets, fates, 1, n.name, r)
        == LostOn(batch, targets, fates, 0, n.name, r) + PodRequest(p, r);
  }

  lemma {:induction false} UnboundLoadsNothing(rows: seq<Pod>, node: string, r: Resource)
    requires forall i | 0 <= i < |rows| :: rows[i].nodeName.None?
    ensures Load(rows, node, r) == 0
  {
    if rows != [] {
      UnboundLoadsNothing(rows[..|rows| - 1], node, r);
    }
  }

  // ---------------------------------------------------------------------
  // A failed listing, read as an empty one
  // ---------------------------------------------------------------------

  /** Then a node takes at most its allocatable on top of what it runs. */
  lemma FailedListingAddsAtMost(views: seq<View>, batch: seq<Pod>, nodes: seq<Node>, s: ScoringStrategy,
                                targets: seq<Option<Node>>,
                                fates: seq<Fate>, rows: seq<Pod>, n: Node, r: Resource, a: nat, i: nat)
    requires IsTick(views, batch, nodes, s, targets, fates) && views[0] == View(rows, []) && IsBatch(batch, rows)
    requires UniqueNames(nodes) && n in nodes && Allocatable(n, r) == Some(a) && a < Q.U64_MAX && i <= |batch|
    ensures Load(views[i].rows, n.name, r) <= Load(rows, n.name, r) + a + LostOn(batch, targets, fates, i, n.name, r)
  {
    TickKeepsBooks(views, batch, targets, fates, i, n.name, r);
    SeenWithinCapacity(views, batch, nodes, s, targets, fates, i, n, r, a);
  }

  /** A tick on an empty listing in which no answer is lost. */
  predicate BlindTick(views: seq<View>, batch: seq<Pod>, nodes: seq<Node>, s: ScoringStrategy,
                      targets: seq<Option<Node>>, fates: seq<Fate>)
  {
    IsTick(views, batch, nodes, s, targets, fates) && views[0].seen == [] && IsBatch(batch, views[0].rows) &&
    UniqueNames(nodes) &&
    forall k | 0 <= k < |batch| :: fates[k] != AnswerLost
  }

  /** Every such tick keeps a node that starts with this load within its
      allocatable, or where it was. */
  ghost predicate Harmless(n: Node, r: Resource, a: nat, load: nat) {
    forall views: seq<View>, batch: seq<Pod>, nodes: seq<Node>, s: ScoringStrategy, targets: seq<Option<Node>>,
        fates: seq<Fate> |
      BlindTick(views, batch, nodes, s, targets, fates) && n in nodes && Load(views[0].rows, n.name, r) == load ::
      Load(views[|batch|].rows, n.name, r) <= Max(a, load)
  }

  /** Containers that request `total` of a resource and nothing else. */
  function Requesting(total: nat, r: Resource): (cs: seq<Container>)
    ensures ContainersRequest(cs, r) == total
    ensures forall o | o != r :: ContainersRequest(cs, o) == 0
  {
    if total <= Q.U64_MAX then
      var cs := [Container(map[r := total])];
      assert cs[..0] == [];
      assert forall o :: ContainersRequest(cs, o) == ContainersRequest([], o) + ContainerRequest(cs[0], o);
      cs
    else
      var rest := Requesting(total - Q.U64_MAX, r);
      var cs := rest + [Container(map[r := Q.U64_MAX])];
      assert cs[..|rest|] == rest;
      cs
  }

  function PodRequesting(name: string, total: nat, r: Resource, node: Option<string>): Pod {
    Pod("", name, None, [], Requesting(total, r), None, None, node, Some(Pending))
  }

  /** A table with a bound pod `x` and an unscheduled pod `p`. */
  lemma BoundAndWaiting(x: Pod, p: Pod, node: string, r: Resource)
    requires !SameKey(x, p) && Occupies(x, node) && Unscheduled(p)
    ensures UniqueKeys([x, p]) && IsBatch([p], [x, p]) && p in [x, p]
    ensures Load([x, p], node, r) == PodRequest(x, r)
    ensures Load(BindRow([x, p], p.namespace, p.name, node), node, r) == PodRequest(x, r) + PodRequest(p, r)
  {
    var rows := [x, p];
    assert rows[1] == p && rows[..1] == [x] && [x][..0] == [];
    assert Load(rows, node, r) == Load([x], node, r) + PodLoad(p, node, r);
    assert Load([x], node, r) == Load([], node, r) + PodLoad(x, node, r);
    BindAddsLoad(rows, p, node, node, r);
  }

  lemma Refutes(views: seq<View>, batch: seq<Pod>, nodes: seq<Node>, s: ScoringStrategy, targets: seq<Option<Node>>,
                fates: seq<Fate>, n: Node, r: Resource, a: nat, load: nat)
    requires BlindTick(views, batch, nodes, s, targets, fates) && n in nodes && Load(views[0].rows, n.name, r) == load
    requires Load(views[|batch|].rows, n.name, r) > Max(a, load)
    ensures !Harmless(n, r, a, load)
  {
  }

  /** A loaded node with room on paper is overcommitted by a pod as large as its
      allocatable. */
  lemma LoadedNodeIsHarmed(n: Node, r: Resource, a: nat, load: nat, s: ScoringStrategy)
    requires IsReady(n) && Allocatable(n, r) == Some(a) && a < Q.U64_MAX && a > 0 && load > 0
    ensures !Harmless(n, r, a, load)
  {
    var x, p := PodRequesting("x", load, r, Some(n.name)), PodRequesting("p", a, r, None);
    assert x.name[0] != p.name[0];
    BoundAndWaiting(x, p, n.name, r);
    var start := View([x, p], []);
    var end := Settle(start, p, Some(n), Answered);
    OneTurn(start, p, n, r, a, s);
    Refutes([start, end], [p], [n], s, [Some(n)], [Answered], n, r, a, load);
  }

  /** On an empty listing a pod that requests nothing else, and no more than a
      Ready node offers, goes to that node. */
  lemma OneTurn(start: View, p: Pod, n: Node, r: Resource, a: nat, s: ScoringStrategy)
    requires IsReady(n) && Allocatable(n, r) == Some(a) && start.seen == [] && UniqueKeys(start.rows) &&
      IsBatch([p], start.rows)
    requires p == PodRequesting("p", a, r, None) && a < Q.U64_MAX
    ensures BlindTick([start, Settle(start, p, Some(n), Answered)], [p], [n], s, [Some(n)], [Answered])
  {
    OnlyNode(start, p, n, s);
  }

  /** On a Ready node whose allocatable is `a`, an empty listing is harmless if and
      only if the node runs nothing that requests the resource, or offers none. */
  lemma FailedListingHarmlessIff(n: Node, r: Resource, a: nat, load: nat)
    requires IsReady(n) && Allocatable(n, r) == Some(a) && a < Q.U64_MAX
    ensures Harmless(n, r, a, load) <==> load == 0 || a == 0
  {
    if load == 0 || a == 0 {
      forall views: seq<View>, batch: seq<Pod>, nodes: seq<Node>, s: ScoringStrategy, targets: seq<Option<Node>>,
          fates: seq<Fate> |
        BlindTick(views, batch, nodes, s, targets, fates) && n in nodes && Load(views[0].rows, n.name, r) == load
        ensures Load(views[|batch|].rows, n.name, r) <= Max(a, load)
      {
        FailedListingAddsAtMost(views, batch, nodes, s, targets, fates, views[0].rows, n, r, a, |batch|);
        NothingLost(batch, targets, fates, |batch|, n.name, r);
      }
    } else {
      LoadedNodeIsHarmed(n, r, a, load, LeastAllocated);
    }
  }

  // ---------------------------------------------------------------------
  // What a tick writes
  // ---------------------------------------------------------------------

  /** A row is as it was, or was unscheduled and is now bound to a listed node. */
  predicate OnlyBound(before: Pod, after: Pod, nodes: seq<Node>) {
    after == before ||
    (Unscheduled(before) && exists k | 0 <= k < |nodes| :: after == Bound(before, nodes[k].name))
  }

  /** The table differs from `before` only by such bindings. */
  predicate OnlyBindings(before: seq<Pod>, after: seq<Pod>, nodes: seq<Node>) {
    |after| == |before| && forall k | 0 <= k < |before| :: OnlyBound(before[k], after[k], nodes)
  }

  lemma BindOnlyBinds(rows: seq<Pod>, now: seq<Pod>, p: Pod, nodes: seq<Node>, target: Node)
    requires UniqueKeys(now) && p in now && Unscheduled(p) && target in nodes && OnlyBindings(rows, now, nodes)
    ensures OnlyBindings(rows, BindRow(now, p.namespace, p.name, target.name), nodes)
  {
    FindsRow(now, p);
    var at := Find(now, p.namespace, p.name);
    assert rows[at] == p;
    var k :| 0 <= k < |nodes| && nodes[k] == target;
    assert BindRow(now, p.namespace, p.name, target.name)[at] == Bound(rows[at], nodes[k].name);
  }

  lemma SettleOnlyBinds(rows: seq<Pod>, v: View, p: Pod, nodes: seq<Node>, target: Option<Node>, fate: Fate)
    requires UniqueKeys(v.rows) && p in v.rows && Unscheduled(p) && OnlyBindings(rows, v.rows, nodes)
    requires target.Some? ==> target.value in nodes
    ensures OnlyBindings(rows, Settle(v, p, target, fate).rows, nodes)
  {
    if target.Some? && fate != NotExecuted {
      BindOnlyBinds(rows, v.rows, p, nodes, target.value);
    }
  }

  lemma {:induction false} ListedOnlyBind(views: seq<View>, batch: seq<Pod>, targets: seq<Option<Node>>,
                                          fates: seq<Fate>, i: nat, nodes: seq<Node>)
    requires Follows(views, batch, targets, fates) && IsBatch(batch, views[0].rows) && i <= |batch|
    requires forall k | 0 <= k < |batch| :: Listed(targets[k], nodes)
    ensures OnlyBindings(views[0].rows, views[i].rows, nodes)
  {
    if i > 0 {
      ListedOnlyBind(views, batch, targets, fates, i - 1, nodes);
      NextIsRow(views, batch, targets, fates, i - 1);
      assert Listed(targets[i - 1], nodes);
      SettleOnlyBinds(views[0].rows, views[i - 1], batch[i - 1], nodes, targets[i - 1], fates[i - 1]);
    }
  }

  /** A tick adds and removes no row, and changes no row but by binding an
      unscheduled pod to a listed node. */
  lemma TickOnlyBinds(views: seq<View>, batch: seq<Pod>, nodes: seq<Node>, s: ScoringStrategy,
                      targets: seq<Option<Node>>, fates: seq<Fate>, i: nat)
    requires IsTick(views, batch, nodes, s, targets, fates) && IsBatch(batch, views[0].rows) && i <= |batch|
    ensures OnlyBindings(views[0].rows, views[i].rows, nodes)
  {
    TargetsAreListed(views, batch, nodes, s, targets);
    ListedOnlyBind(views, batch, targets, fates, i, nodes);
  }

  /** The row of a turn's bind, of which the tick does not learn. */
  predicate IsLostBind(p: Pod, target: Option<Node>, fate: Fate, q: Pod) {
    fate == AnswerLost && target.Some? && q == Bound(p, target.value.name)
  }

  /** The row of such a bind among the first `i` turns. */
  predicate LostRow(batch: seq<Pod>, targets: seq<Option<Node>>, fates: seq<Fate>, i: nat, q: Pod)
    requires i <= |batch| && i <= |targets| && i <= |fates|
  {
    i > 0 && (LostRow(batch, targets, fates, i - 1, q) || IsLostBind(batch[i - 1], targets[i - 1], fates[i - 1], q))
  }

  /** The rows after a bind are the old ones, but for the pod's, which is bound. */
  lemma RowsAfterBind(rows: seq<Pod>, p: Pod, target: string, q: Pod)
    requires UniqueKeys(rows) && p in rows
    ensures q in BindRow(rows, p.namespace, p.name, target) <==> q == Bound(p, target) || (q in rows && q != p)
  {
    FindsRow(rows, p);
    var at, after := Find(rows, p.namespace, p.name), BindRow(rows, p.namespace, p.name, target);
    assert after[at] == Bound(p, target);
    if q in after {
      var k :| 0 <= k < |after| && after[k] == q;
      assert k != at ==> rows[k] == q && !SameKey(rows[k], rows[at]);
    }
    if q in rows && q != p {
      KeyDecides(rows, q, p);
      BindKeepsOthers(rows, p, target, q);
    }
  }

  /** A bound row is one the tick counts with, or one whose answer was lost. */
  predicate SeenOrLost(v: View, lost: bool, q: Pod) {
    q in v.rows && q.nodeName.Some? ==> q in v.seen || lost
  }

  lemma SettleSeenOrLost(v: View, p: Pod, target: Option<Node>, fate: Fate, lost: bool, q: Pod)
    requires UniqueKeys(v.rows) && p in v.rows && SeenOrLost(v, lost, q)
    ensures SeenOrLost(Settle(v, p, target, fate), lost || IsLostBind(p, target, fate, q), q)
  {
    if target.Some? && fate != NotExecuted {
      RowsAfterBind(v.rows, p, target.value.name, q);
    }
  }

  lemma {:induction false} BoundRowsAreSeenOrLost(views: seq<View>, batch: seq<Pod>, targets: seq<Option<Node>>,
                                                  fates: seq<Fate>, i: nat, q: Pod)
    requires Follows(views, batch, targets, fates) && views[0].seen == views[0].rows &&
      IsBatch(batch, views[0].rows) && i <= |batch|
    ensures SeenOrLost(views[i], LostRow(batch, targets, fates, i, q), q)
  {
    if i > 0 {
      BoundRowsAreSeenOrLost(views, batch, targets, fates, i - 1, q);
      NextIsRow(views, batch, targets, fates, i - 1);
      SettleSeenOrLost(views[i - 1], batch[i - 1], targets[i - 1], fates[i - 1],
                       LostRow(batch, targets, fates, i - 1, q), q);
    }
  }

  lemma SettleKeepsBound(v: View, p: Pod, target: Option<Node>, fate: Fate, q: Pod)
    requires UniqueKeys(v.rows) && p in v.rows && Unscheduled(p) && q in v.rows && q.nodeName.Some?
    ensures q in Settle(v, p, target, fate).rows
  {
    if target.Some? && fate != NotExecuted {
      RowsAfterBind(v.rows, p, target.value.name, q);
    }
  }

  /** A row that is bound stays in the table through the rest of the tick. */
  lemma {:induction false} BoundRowsStay(views: seq<View>, batch: seq<Pod>, targets: seq<Option<Node>>,
                                         fates: seq<Fate>, i: nat, j: nat, q: Pod)
    requires Follows(views, batch, targets, fates) && IsBatch(batch, views[0].rows) && i <= j <= |batch|
    requires q in views[i].rows && q.nodeName.Some?
    ensures q in views[j].rows
  {
    if i < j {
      BoundRowsStay(views, batch, targets, fates, i, j - 1, q);
      NextIsRow(views, batch, targets, fates, j - 1);
      SettleKeepsBound(views[j - 1], batch[j - 1], targets[j - 1], fates[j - 1], q);
    }
  }

  /** What a turn binds is in the table from then on, answered or not. */
  lemma BindsLast(views: seq<View>, batch: seq<Pod>, targets: seq<Option<Node>>, fates: seq<Fate>, k: nat, i: nat)
    requires Follows(views, batch, targets, fates) && IsBatch(batch, views[0].rows) && k < i <= |batch|
    requires targets[k].Some? && fates[k] != NotExecuted
    ensures Bound(batch[k], targets[k].value.name) in views[i].rows
  {
    var q := Bound(batch[k], targets[k].value.name);
    NextIsRow(views, batch, targets, fates, k);
    RowsAfterBind(views[k].rows, batch[k], targets[k].value.name, q);
    BoundRowsStay(views, batch, targets, fates, k + 1, i, q);
  }

  /** The copy recorded at position `k` is a batch pod, and the table has it. */
  predicate IsStoredBinding(v: View, batch: seq<Pod>, k: nat) {
    k < |v.seen| && v.seen[k] in v.rows && v.seen[k].nodeName.Some? && v.seen[k].(nodeName := None) in batch
  }

  lemma SettleKeepsStored(v: View, batch: seq<Pod>, p: Pod, target: Option<Node>, fate: Fate, k: nat)
    requires UniqueKeys(v.rows) && p in batch && p in v.rows && Unscheduled(p)
    requires k < |Settle(v, p, target, fate).seen|
    requires k < |v.seen| ==> IsStoredBinding(v, batch, k)
    ensures IsStoredBinding(Settle(v, p, target, fate), batch, k)
  {
    if target.Some? && fate != NotExecuted {
      RowsAfterBind(v.rows, p, target.value.name, Settle(v, p, target, fate).seen[k]);
      assert Bound(p, target.value.name).(nodeName := None) == p;
    }
  }

  /** The pods seen beyond the initial listing are bindings the tick made, and the
      table agrees with every one of them. */
  lemma {:induction false} SeenBindingsAreStored(views: seq<View>, batch: seq<Pod>, targets: seq<Option<Node>>,
                                                 fates: seq<Fate>, i: nat, k: nat)
    requires Follows(views, batch, targets, fates) && IsBatch(batch, views[0].rows) && i <= |batch|
    requires |views[0].seen| <= k < |views[i].seen|
    ensures IsStoredBinding(views[i], batch, k)
  {
    if i > 0 {
      NextIsRow(views, batch, targets, fates, i - 1);
      if k < |views[i - 1].seen| {
        SeenBindingsAreStored(views, batch, targets, fates, i - 1, k);
      }
      SettleKeepsStored(views[i - 1], batch, batch[i - 1], targets[i - 1], fates[i - 1], k);
    }
  }

  // ---------------------------------------------------------------------
  // Anti-affinity within a tick
  // ---------------------------------------------------------------------

  lemma {:induction false} TopologyOfListed(nodes: seq<Node>, n: Node, key: string)
    requires UniqueNames(nodes) && n in nodes
    ensures TopologyOf(nodes, n.name, key) == TopologyValue(n, key)
  {
    var last := |nodes| - 1;
    if nodes[last] != n {
      assert n in nodes[..last];
      var k :| 0 <= k < last && nodes[k] == n;
      TopologyOfListed(nodes[..last], n, key);
    }
  }

  /** The two nodes do not share a value of the topology key. */
  predicate Apart(n: Node, m: Node, key: string) {
    TopologyValue(n, key).Some? ==> TopologyValue(n, key) != TopologyValue(m, key)
  }

  /** A target shares no topology value with a pod its anti-affinity selects. */
  lemma TargetAvoids(v: View, p: Pod, nodes: seq<Node>, s: ScoringStrategy, t: PodAffinityTerm, q: Pod, np: Node)
    requires UniqueNames(nodes) && np in nodes && q in v.seen && Target(v, p, nodes, s).Some?
    requires p.affinity.Some? && t in p.affinity.value.antiTerms
    requires TermSelects(t, p.namespace, q) && q.nodeName == Some(np.name)
    ensures Apart(Target(v, p, nodes, s).value, np, t.topologyKey)
  {
    var nq := Target(v, p, nodes, s).value;
    assert PodAntiAffine(p, nq, nodes, v.seen);
    var k :| 0 <= k < |p.affinity.value.antiTerms| && p.affinity.value.antiTerms[k] == t;
    assert PodAffinitySatisfied(nq, nodes, v.seen, t, p.namespace, false);
    TopologyOfListed(nodes, np, t.topologyKey);
  }

  /** The pod of turn `k`, bound to its target whether or not the answer came
      back, shares no value of its anti-affinity term's topology key with any row
      the term selects that was bound before it, be it at the start of the tick or
      earlier within it, unless that row's own answer was lost. */
  lemma AntiAffinityHolds(views: seq<View>, batch: seq<Pod>, nodes: seq<Node>, s: ScoringStrategy,
                          targets: seq<Option<Node>>, fates: seq<Fate>,
                          k: nat, t: PodAffinityTerm, q: Pod, np: Node)
    requires IsTick(views, batch, nodes, s, targets, fates) && views[0].seen == views[0].rows &&
      IsBatch(batch, views[0].rows)
    requires UniqueNames(nodes) && np in nodes && k < |batch| && targets[k].Some?
    requires batch[k].affinity.Some? && t in batch[k].affinity.value.antiTerms && TermSelects(t, batch[k].namespace, q)
    requires q in views[k].rows && q.nodeName == Some(np.name) && !LostRow(batch, targets, fates, k, q)
    ensures Apart(targets[k].value, np, t.topologyKey)
  {
    BoundRowsAreSeenOrLost(views, batch, targets, fates, k, q);
    TargetAvoids(views[k], batch[k], nodes, s, t, q, np);
  }

  /** The exception is needed: two pods that repel each other end on one node when
      the first answer is lost. */
  lemma LostAnswerBreaksAntiAffinity(p: Pod, q: Pod, n: Node, s: ScoringStrategy, t: PodAffinityTerm)
    returns (views: seq<View>)
    requires !SameKey(p, q) && Unscheduled(p) && Unscheduled(q)
    requires Feasible(p, n, [n], [p, q]) && Feasible(q, n, [n], [p, q])
    requires q.affinity.Some? && t in q.affinity.value.antiTerms && TermSelects(t, q.namespace, p)
    ensures IsTick(views, [p, q], [n], s, [Some(n), Some(n)], [AnswerLost, Answered]) &&
      views[0] == View([p, q], [p, q])
    ensures Bound(p, n.name) in views[2].rows && Bound(q, n.name) in views[2].rows
  {
    views := TwoTurns(p, q, n, s);
    var batch, targets, fates := [p, q], [Some(n), Some(n)], [AnswerLost, Answered];
    BindsLast(views, batch, targets, fates, 0, 2);
    BindsLast(views, batch, targets, fates, 1, 2);
  }
}
