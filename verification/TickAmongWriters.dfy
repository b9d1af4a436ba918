/** The scheduling tick while other writers change the pods table between its
    statements: the agent reports phases, users and controllers delete pods and
    create unbound ones. */
module TickAmongWriters {
  import opened Wrappers
  import opened Cluster
  import opened Placement
  import opened SchedulerTick
  import Q = Quantity

  /** What is left of a pod of the batch: its row, if there still is one, requests
      no more than the pod did when it was listed. */
  predicate StillFits(rows: seq<Pod>, p: Pod) {
    var row := RowAt(rows, p.namespace, p.name);
    row.Some? ==> forall r :: PodRequest(row.value, r) <= PodRequest(p, r)
  }

  predicate AllStillFit(rows: seq<Pod>, rest: seq<Pod>) {
    forall i | 0 <= i < |rest| :: StillFits(rows, rest[i])
  }

  /** A change by others that loads no node further and swaps no pod of the batch
      for a larger one. */
  ghost predicate Calm(before: seq<Pod>, after: seq<Pod>, rest: seq<Pod>) {
    (forall node, r :: Load(after, node, r) <= Load(before, node, r)) &&
    (AllStillFit(before, rest) ==> AllStillFit(after, rest))
  }

  // ---------------------------------------------------------------------
  // Runs
  // ---------------------------------------------------------------------

  /** The tick's next turn, or a change of the table by others. */
  datatype Move = Turn(target: Option<Node>, fate: Fate) | Others(rows: seq<Pod>)

  /** `placed` pods of the batch have had their turn; `lost` holds what was bound
      with a lost answer, as pods with their nodes. */
  datatype Busy = Busy(view: View, placed: nat, lost: seq<Pod>)

  function Next(b: Busy, batch: seq<Pod>, m: Move): Busy
    requires UniqueKeys(b.view.rows)
  {
    match m
    case Others(rows) => b.(view := b.view.(rows := rows))
    case Turn(target, fate) => if b.placed < |batch| then TakeTurn(b, batch[b.placed], target, fate) else b
  }

  function TakeTurn(b: Busy, p: Pod, target: Option<Node>, fate: Fate): Busy
    requires UniqueKeys(b.view.rows)
  {
    Busy(Settle(b.view, p, target, fate), b.placed + 1,
         if target.Some? && fate == AnswerLost then b.lost + [Bound(p, target.value.name)] else b.lost)
  }

  /** Each state follows from the one before; others keep the table's constraint. */
  predicate IsRun(states: seq<Busy>, batch: seq<Pod>, moves: seq<Move>) {
    |states| == |moves| + 1 && forall k | 0 <= k < |moves| :: IsMove(states[k], states[k + 1], batch, moves[k])
  }

  predicate IsMove(b: Busy, b': Busy, batch: seq<Pod>, m: Move) {
    UniqueKeys(b.view.rows) && b' == Next(b, batch, m) && b.placed <= |batch| && (m.Others? ==> UniqueKeys(m.rows))
  }

  /** What others change is calm towards the pods still to come. */
  ghost predicate CalmMove(b: Busy, batch: seq<Pod>, m: Move) {
    m.Others? && b.placed <= |batch| ==> Calm(b.view.rows, m.rows, batch[b.placed..])
  }

  /** A turn's target is the scheduler's choice against the pods it has seen. */
  predicate Chooses(b: Busy, batch: seq<Pod>, nodes: seq<Node>, s: ScoringStrategy, m: Move) {
    m.Turn? && b.placed < |batch| ==> m.target == Target(b.view, batch[b.placed], nodes, s)
  }

  /** The turns of a tick. */
  function Turns(targets: seq<Option<Node>>, fates: seq<Fate>): (moves: seq<Move>)
    requires |targets| == |fates|
    ensures |moves| == |targets|
  {
    seq(|targets|, k requires 0 <= k < |targets| => Turn(targets[k], fates[k]))
  }

  /** A run of the first `n` turns of the tick, its views those of the tick. */
  ghost predicate RunsAs(states: seq<Busy>, views: seq<View>, batch: seq<Pod>, nodes: seq<Node>, s: ScoringStrategy,
                         moves: seq<Move>, n: nat)
    requires n <= |moves| && |views| > |moves|
  {
    IsRun(states, batch, moves[..n]) && states[0] == Busy(views[0], 0, []) &&
    (forall k | 0 <= k <= n :: states[k].view == views[k] && states[k].placed == k) &&
    (forall k | 0 <= k < n :: Chooses(states[k], batch, nodes, s, moves[k]))
  }

  lemma OneTurn(b: Busy, views: seq<View>, batch: seq<Pod>, nodes: seq<Node>, s: ScoringStrategy,
                targets: seq<Option<Node>>, fates: seq<Fate>, n: nat)
    requires IsTick(views, batch, nodes, s, targets, fates) && n < |batch| && b.view == views[n] && b.placed == n
    ensures
      var move := Turn(targets[n], fates[n]);
      UniqueKeys(b.view.rows) && Chooses(b, batch, nodes, s, move) && IsMove(b, Next(b, batch, move), batch, move) &&
      Next(b, batch, move).view == views[n + 1] && Next(b, batch, move).placed == n + 1
  {
    assert Turned(views[n], views[n + 1], batch[n], targets[n], fates[n]);
    assert IsTarget(targets[n], views[n], batch[n], nodes, s);
  }

  lemma RunExtends(states: seq<Busy>, b: Busy, batch: seq<Pod>, moves: seq<Move>, n: nat)
    requires n < |moves| && |states| == n + 1 && IsRun(states, batch, moves[..n])
    requires IsMove(states[n], b, batch, moves[n])
    ensures IsRun(states + [b], batch, moves[..n + 1])
  {
    forall k | 0 <= k < n + 1
      ensures IsMove((states + [b])[k], (states + [b])[k + 1], batch, moves[..n + 1][k])
    {
      if k < n {
        assert IsMove(states[k], states[k + 1], batch, moves[..n][k]);
      }
    }
  }

  lemma RunsOn(states: seq<Busy>, views: seq<View>, batch: seq<Pod>, nodes: seq<Node>, s: ScoringStrategy,
               targets: seq<Option<Node>>, fates: seq<Fate>, n: nat) returns (more: seq<Busy>)
    requires IsTick(views, batch, nodes, s, targets, fates) && n < |batch|
    requires RunsAs(states, views, batch, nodes, s, Turns(targets, fates), n)
    ensures RunsAs(more, views, batch, nodes, s, Turns(targets, fates), n + 1)
  {
    OneTurn(states[n], views, batch, nodes, s, targets, fates, n);
    var next := Next(states[n], batch, Turn(targets[n], fates[n]));
    RunExtends(states, next, batch, Turns(targets, fates), n);
    more := states + [next];
  }

  /** Every tick is a run in which the others do nothing. */
  lemma {:induction false} TickIsRun(views: seq<View>, batch: seq<Pod>, nodes: seq<Node>, s: ScoringStrategy,
                                     targets: seq<Option<Node>>, fates: seq<Fate>, n: nat)
    returns (states: seq<Busy>)
    requires IsTick(views, batch, nodes, s, targets, fates) && n <= |batch|
    ensures RunsAs(states, views, batch, nodes, s, Turns(targets, fates), n)
  {
    if n == 0 {
      return [Busy(views[0], 0, [])];
    }
    states := TickIsRun(views, batch, nodes, s, targets, fates, n - 1);
    states := RunsOn(states, views, batch, nodes, s, targets, fates, n - 1);
  }

  // ---------------------------------------------------------------------
  // Capacity
  // ---------------------------------------------------------------------

  /** The table holds no more than the tick counts with and what was lost. */
  predicate Covered(b: Busy, node: string, r: Resource) {
    Load(b.view.rows, node, r) <= Load(b.view.seen, node, r) + Load(b.lost, node, r)
  }

  /** And the tick counts with no more than the bound. */
  predicate Bounded(b: Busy, batch: seq<Pod>, node: string, r: Resource, bound: nat) {
    UniqueKeys(b.view.rows) && b.placed <= |batch| && AllStillFit(b.view.rows, batch[b.placed..]) &&
    Covered(b, node, r) && Load(b.view.seen, node, r) <= bound
  }

  /** Binding whatever row stands under a key adds at most that row's requests. */
  lemma BindAddsAtMost(rows: seq<Pod>, p: Pod, target: string, node: string, r: Resource)
    requires UniqueKeys(rows) && StillFits(rows, p)
    ensures Load(BindRow(rows, p.namespace, p.name, target), node, r)
         <= Load(rows, node, r) + if node == target then PodRequest(p, r) else 0
  {
    var i := Find(rows, p.namespace, p.name);
    if i < |rows| {
      LoadUpdates(rows, i, Bound(rows[i], target), node, r);
    }
  }

  /** A bind changes no row's requests. */
  lemma BindKeepsFits(rows: seq<Pod>, p: Pod, target: string, q: Pod)
    requires UniqueKeys(rows) && StillFits(rows, q)
    ensures StillFits(BindRow(rows, p.namespace, p.name, target), q)
  {
    BindRowAt(rows, p.namespace, p.name, target, q.namespace, q.name);
  }

  lemma SettleKeepsFits(v: View, p: Pod, target: Option<Node>, fate: Fate, rest: seq<Pod>)
    requires UniqueKeys(v.rows) && AllStillFit(v.rows, rest)
    ensures AllStillFit(Settle(v, p, target, fate).rows, rest)
  {
    if target.Some? && fate != NotExecuted {
      forall i | 0 <= i < |rest|
        ensures StillFits(BindRow(v.rows, p.namespace, p.name, target.value.name), rest[i])
      {
        BindKeepsFits(v.rows, p, target.value.name, rest[i]);
      }
    }
  }

  /** What a bind to `name` puts on `node`. */
  function Share(p: Pod, name: string, node: string, r: Resource): nat {
    if node == name then PodRequest(p, r) else 0
  }

  lemma CopyLoads(pods: seq<Pod>, p: Pod, name: string, node: string, r: Resource)
    requires Unscheduled(p)
    ensures Load(pods + [Bound(p, name)], node, r) == Load(pods, node, r) + Share(p, name, node, r)
  {
    LoadAppends(pods, Bound(p, name), node, r);
  }

  /** An executed bind joins what the tick counts with, or what was lost. */
  lemma TurnCounts(b: Busy, p: Pod, n: Node, fate: Fate, node: string, r: Resource)
    requires UniqueKeys(b.view.rows) && Unscheduled(p) && fate != NotExecuted
    ensures
      var after := TakeTurn(b, p, Some(n), fate);
      Load(after.view.seen, node, r) + Load(after.lost, node, r)
        == Load(b.view.seen, node, r) + Load(b.lost, node, r) + Share(p, n.name, node, r)
  {
    if fate == Answered {
      CopyLoads(b.view.seen, p, n.name, node, r);
    } else {
      CopyLoads(b.lost, p, n.name, node, r);
    }
  }

  /** And adds no more to the table. */
  lemma TurnLoads(b: Busy, p: Pod, n: Node, fate: Fate, node: string, r: Resource)
    requires UniqueKeys(b.view.rows) && StillFits(b.view.rows, p) && fate != NotExecuted
    ensures Load(TakeTurn(b, p, Some(n), fate).view.rows, node, r)
         <= Load(b.view.rows, node, r) + Share(p, n.name, node, r)
  {
    BindAddsAtMost(b.view.rows, p, n.name, node, r);
  }

  lemma TurnCovered(b: Busy, p: Pod, target: Option<Node>, fate: Fate, node: string, r: Resource)
    requires UniqueKeys(b.view.rows) && StillFits(b.view.rows, p) && Unscheduled(p) && Covered(b, node, r)
    ensures Covered(TakeTurn(b, p, target, fate), node, r)
  {
    if target.Some? && fate != NotExecuted {
      TurnCounts(b, p, target.value, fate, node, r);
      TurnLoads(b, p, target.value, fate, node, r);
    }
  }

  /** What a turn's target guarantees for one node and resource. */
  predicate Sound(b: Busy, batch: seq<Pod>, m: Move, n: Node, r: Resource) {
    m.Turn? && b.placed < |batch| ==> TurnFits(b.view, batch[b.placed], m.target, n, r)
  }

  lemma MoveBounded(b: Busy, b': Busy, batch: seq<Pod>, m: Move, n: Node, r: Resource, a: nat, bound: nat)
    requires Bounded(b, batch, n.name, r, bound) && IsMove(b, b', batch, m) && Sound(b, batch, m, n, r)
    requires CalmMove(b, batch, m)
    requires AllWaiting(batch) && Allocatable(n, r) == Some(a) && a < Q.U64_MAX && a <= bound
    ensures Bounded(b', batch, n.name, r, bound)
  {
    if m.Turn? && b.placed < |batch| {
      var p, rest := batch[b.placed], batch[b.placed..];
      assert rest[0] == p && rest[1..] == batch[b.placed + 1..];
      assert AllStillFit(b.view.rows, rest[1..]) by {
        assert forall i | 0 <= i < |rest| - 1 :: rest[1..][i] == rest[i + 1];
      }
      assert StillFits(b.view.rows, rest[0]);
      SettleFits(b.view, p, m.target, m.fate, n, r, a, bound);
      SettleKeepsFits(b.view, p, m.target, m.fate, rest[1..]);
      TurnCovered(b, p, m.target, m.fate, n.name, r);
    }
  }

  predicate AllWaiting(batch: seq<Pod>) {
    forall i | 0 <= i < |batch| :: Unscheduled(batch[i])
  }

  lemma {:induction false} RunBounded(states: seq<Busy>, batch: seq<Pod>, moves: seq<Move>, k: nat, n: Node,
                                      r: Resource, a: nat, bound: nat)
    requires IsRun(states, batch, moves) && k <= |moves| && Bounded(states[0], batch, n.name, r, bound) &&
      AllWaiting(batch)
    requires forall j | 0 <= j < |moves| :: Sound(states[j], batch, moves[j], n, r)
    requires forall j | 0 <= j < |moves| :: CalmMove(states[j], batch, moves[j])
    requires Allocatable(n, r) == Some(a) && a < Q.U64_MAX && a <= bound
    ensures Bounded(states[k], batch, n.name, r, bound)
  {
    if k > 0 {
      RunBounded(states, batch, moves, k - 1, n, r, a, bound);
      MoveBounded(states[k - 1], states[k], batch, moves[k - 1], n, r, a, bound);
    }
  }

  lemma ChosenIsSound(b: Busy, batch: seq<Pod>, nodes: seq<Node>, s: ScoringStrategy, m: Move, n: Node, r: Resource)
    requires Chooses(b, batch, nodes, s, m) && UniqueNames(nodes) && n in nodes
    ensures Sound(b, batch, m, n, r)
  {
    if m.Turn? && b.placed < |batch| {
      ChosenFits(b.view, batch[b.placed], nodes, s, n, r);
    }
  }

  /** The batch was listed first, then the bound pods as `rows`; by then and ever
      after others delete pods, move phases on and create unbound pods. At every
      moment no listed node holds more than its allocatable, or its load in the
      listing, plus what the tick bound to it with a lost answer. */
  lemma CapacityAmongWriters(rows: seq<Pod>, states: seq<Busy>, batch: seq<Pod>, nodes: seq<Node>, s: ScoringStrategy,
                             moves: seq<Move>,
                             k: nat, n: Node, r: Resource, a: nat)
    requires IsRun(states, batch, moves) && k <= |moves| && states[0] == Busy(View(rows, rows), 0, [])
    requires forall j | 0 <= j < |moves| :: Chooses(states[j], batch, nodes, s, moves[j])
    requires forall j | 0 <= j < |moves| :: CalmMove(states[j], batch, moves[j])
    requires UniqueKeys(rows) && AllStillFit(rows, batch) && AllWaiting(batch)
    requires UniqueNames(nodes) && n in nodes && Allocatable(n, r) == Some(a) && a < Q.U64_MAX
    ensures Load(states[k].view.rows, n.name, r) <= Max(a, Load(rows, n.name, r)) + Load(states[k].lost, n.name, r)
  {
    forall j | 0 <= j < |moves|
      ensures Sound(states[j], batch, moves[j], n, r)
    {
      ChosenIsSound(states[j], batch, nodes, s, moves[j], n, r);
    }
    assert batch[0..] == batch;
    RunBounded(states, batch, moves, k, n, r, a, Max(a, Load(rows, n.name, r)));
  }

  // ---------------------------------------------------------------------
  // Anti-affinity
  // ---------------------------------------------------------------------

  /** The same pod, on the same node, perhaps in another phase. */
  predicate Alike(p: Pod, q: Pod) {
    p.(phase := None) == q.(phase := None)
  }

  predicate SomeAlike(pods: seq<Pod>, q: Pod) {
    exists p :: p in pods && Alike(p, q)
  }

  /** The row of a pod of the batch, if there still is one, is that pod. */
  predicate StillItself(rows: seq<Pod>, p: Pod) {
    var row := RowAt(rows, p.namespace, p.name);
    row.Some? ==> Alike(row.value, p)
  }

  predicate AllStillThemselves(rows: seq<Pod>, rest: seq<Pod>) {
    forall i | 0 <= i < |rest| :: StillItself(rows, rest[i])
  }

  /** A change by others that binds no pod, and gives no pod of the batch's name to
      another pod. */
  ghost predicate Gentle(before: seq<Pod>, after: seq<Pod>, rest: seq<Pod>) {
    (forall q | q in after && q.nodeName.Some? :: SomeAlike(before, q)) &&
    (AllStillThemselves(before, rest) ==> AllStillThemselves(after, rest))
  }

  ghost predicate GentleMove(b: Busy, batch: seq<Pod>, m: Move) {
    m.Others? && b.placed <= |batch| ==> Gentle(b.view.rows, m.rows, batch[b.placed..])
  }

  /** A bound row is one the tick counts with, or one that was bound unanswered. */
  predicate Known(b: Busy, q: Pod) {
    q in b.view.rows && q.nodeName.Some? ==> SomeAlike(b.view.seen, q) || SomeAlike(b.lost, q)
  }

  ghost predicate AllKnown(b: Busy, batch: seq<Pod>) {
    UniqueKeys(b.view.rows) && b.placed <= |batch| && AllStillThemselves(b.view.rows, batch[b.placed..]) &&
    forall q :: Known(b, q)
  }

  lemma AlikeAgain(p: Pod, q: Pod, x: Pod)
    requires Alike(p, q) && Alike(q, x)
    ensures Alike(p, x)
  {
  }

  /** Others reveal no bound row that was not known. */
  lemma OthersKnown(b: Busy, rows: seq<Pod>, rest: seq<Pod>, q: Pod)
    requires (forall x :: Known(b, x)) && Gentle(b.view.rows, rows, rest)
    ensures Known(b.(view := b.view.(rows := rows)), q)
  {
    if q in rows && q.nodeName.Some? {
      var p :| p in b.view.rows && Alike(p, q);
      assert Known(b, p);
      if SomeAlike(b.view.seen, p) {
        var x :| x in b.view.seen && Alike(x, p);
        AlikeAgain(x, p, q);
      } else {
        var x :| x in b.lost && Alike(x, p);
        AlikeAgain(x, p, q);
      }
    }
  }

  lemma AppendedAlike(pods: seq<Pod>, p: Pod, q: Pod)
    ensures SomeAlike(pods, q) || Alike(p, q) ==> SomeAlike(pods + [p], q)
  {
    if SomeAlike(pods, q) {
      var x :| x in pods && Alike(x, q);
      assert x in pods + [p];
    } else {
      assert p in pods + [p];
    }
  }

  /** A row after a bind is an old one, or the row of the key with the node. */
  lemma BoundRow(rows: seq<Pod>, p: Pod, target: string, q: Pod)
    requires UniqueKeys(rows) && StillItself(rows, p) && q in BindRow(rows, p.namespace, p.name, target)
    ensures q in rows || Alike(Bound(p, target), q)
  {
    var i, after := Find(rows, p.namespace, p.name), BindRow(rows, p.namespace, p.name, target);
    var k :| 0 <= k < |after| && after[k] == q;
    if k != i {
      assert rows[k] == q;
    }
  }

  lemma TurnKnown(b: Busy, p: Pod, target: Option<Node>, fate: Fate, q: Pod)
    requires UniqueKeys(b.view.rows) && StillItself(b.view.rows, p) && Known(b, q)
    ensures Known(TakeTurn(b, p, target, fate), q)
  {
    if target.Some? && fate != NotExecuted && q in TakeTurn(b, p, target, fate).view.rows {
      var name := target.value.name;
      BoundRow(b.view.rows, p, name, q);
      AppendedAlike(b.view.seen, Bound(p, name), q);
      AppendedAlike(b.lost, Bound(p, name), q);
    }
  }

  /** A bind leaves the rows of the other pods of the batch alone. */
  lemma TurnKeepsThemselves(v: View, p: Pod, target: Option<Node>, fate: Fate, rest: seq<Pod>)
    requires UniqueKeys(v.rows) && AllStillThemselves(v.rows, rest)
    requires forall i | 0 <= i < |rest| :: !SameKey(rest[i], p)
    ensures AllStillThemselves(Settle(v, p, target, fate).rows, rest)
  {
    if target.Some? && fate != NotExecuted {
      forall i | 0 <= i < |rest|
        ensures StillItself(BindRow(v.rows, p.namespace, p.name, target.value.name), rest[i])
      {
        BindRowAt(v.rows, p.namespace, p.name, target.value.name, rest[i].namespace, rest[i].name);
      }
    }
  }

  lemma MoveKnown(b: Busy, b': Busy, batch: seq<Pod>, m: Move)
    requires AllKnown(b, batch) && IsMove(b, b', batch, m) && GentleMove(b, batch, m) && UniqueKeys(batch)
    ensures AllKnown(b', batch)
  {
    match m
    case Others(rows) =>
      forall q
        ensures Known(b', q)
      {
        OthersKnown(b, rows, batch[b.placed..], q);
      }
    case Turn(target, fate) =>
      if b.placed < |batch| {
        var p, rest := batch[b.placed], batch[b.placed..];
        assert rest[0] == p && rest[1..] == batch[b.placed + 1..];
        assert AllStillThemselves(b.view.rows, rest[1..]) by {
          assert forall i | 0 <= i < |rest| - 1 :: rest[1..][i] == rest[i + 1];
        }
        assert StillItself(b.view.rows, rest[0]);
        assert forall i | 0 <= i < |rest| - 1 :: rest[1..][i] == batch[b.placed + 1 + i];
        TurnKeepsThemselves(b.view, p, target, fate, rest[1..]);
        forall q
          ensures Known(b', q)
        {
          TurnKnown(b, p, target, fate, q);
        }
      }
  }

  lemma {:induction false} RunKnown(states: seq<Busy>, batch: seq<Pod>, moves: seq<Move>, k: nat)
    requires IsRun(states, batch, moves) && k <= |moves| && AllKnown(states[0], batch) && UniqueKeys(batch)
    requires forall j | 0 <= j < |moves| :: GentleMove(states[j], batch, moves[j])
    ensures AllKnown(states[k], batch)
  {
    if k > 0 {
      RunKnown(states, batch, moves, k - 1);
      MoveKnown(states[k - 1], states[k], batch, moves[k - 1]);
    }
  }

  lemma AlikeIsSelected(t: PodAffinityTerm, ns: string, p: Pod, q: Pod)
    requires Alike(p, q)
    ensures TermSelects(t, ns, p) <==> TermSelects(t, ns, q)
    ensures p.nodeName == q.nodeName
  {
    assert p.labels == p.(phase := None).labels && p.namespace == p.(phase := None).namespace;
    assert p.nodeName == p.(phase := None).nodeName;
  }

  /** Whenever a pod of the batch has its turn, its target shares no value of its
      anti-affinity term's topology key with any row the term selects that is bound
      by then, unless that row was bound in this tick with a lost answer. */
  lemma AntiAffinityAmongWriters(rows: seq<Pod>, states: seq<Busy>, batch: seq<Pod>, nodes: seq<Node>,
                                 s: ScoringStrategy, moves: seq<Move>, k: nat, t: PodAffinityTerm, q: Pod, np: Node)
    requires IsRun(states, batch, moves) && k < |moves| && states[0] == Busy(View(rows, rows), 0, [])
    requires UniqueKeys(rows) && UniqueKeys(batch) && AllStillThemselves(rows, batch)
    requires forall j | 0 <= j < |moves| :: GentleMove(states[j], batch, moves[j])
    requires states[k].placed < |batch| && moves[k].Turn? && moves[k].target.Some?
    requires Chooses(states[k], batch, nodes, s, moves[k]) && UniqueNames(nodes) && np in nodes
    requires
      var p := batch[states[k].placed];
      p.affinity.Some? && t in p.affinity.value.antiTerms && TermSelects(t, p.namespace, q)
    requires q in states[k].view.rows && q.nodeName == Some(np.name) && !SomeAlike(states[k].lost, q)
    ensures Apart(moves[k].target.value, np, t.topologyKey)
  {
    var b := states[k];
    StartKnown(rows, batch);
    RunKnown(states, batch, moves, k);
    assert Known(b, q);
    var x :| x in b.view.seen && Alike(x, q);
    AlikeIsSelected(t, batch[b.placed].namespace, x, q);
    TargetAvoids(b.view, batch[b.placed], nodes, s, t, x, np);
  }

  lemma StartKnown(rows: seq<Pod>, batch: seq<Pod>)
    requires UniqueKeys(rows) && AllStillThemselves(rows, batch)
    ensures AllKnown(Busy(View(rows, rows), 0, []), batch)
  {
    assert batch[0..] == batch;
    forall q
      ensures Known(Busy(View(rows, rows), 0, []), q)
    {
      assert Alike(q, q);
    }
  }

  // ---------------------------------------------------------------------
  // What others do is calm and gentle
  // ---------------------------------------------------------------------

  lemma {:induction false} LoadConcat(a: seq<Pod>, b: seq<Pod>, node: string, r: Resource)
    ensures Load(a + b, node, r) == Load(a, node, r) + Load(b, node, r)
  {
    if b == [] {
      assert a + b == a;
    } else {
      var n := |b| - 1;
      assert (a + b)[..|a| + n] == a + b[..n];
      LoadConcat(a, b[..n], node, r);
    }
  }

  lemma LoadAround(a: seq<Pod>, p: Pod, b: seq<Pod>, node: string, r: Resource)
    ensures Load(a + b, node, r) <= Load(a + [p] + b, node, r)
  {
    LoadConcat(a, b, node, r);
    LoadConcat(a + [p], b, node, r);
    LoadAppends(a, p, node, r);
  }

  lemma RemoveLoadsLess(rows: seq<Pod>, namespace: string, name: string, node: string, r: Resource)
    requires UniqueKeys(rows)
    ensures Load(Remove(rows, namespace, name), node, r) <= Load(rows, node, r)
  {
    var i := Find(rows, namespace, name);
    if i < |rows| {
      LoadAround(rows[..i], rows[i], rows[i + 1..], node, r);
      assert rows == rows[..i] + [rows[i]] + rows[i + 1..];
    }
  }

  /** Deleting a pod. */
  lemma DeletingIsCalm(rows: seq<Pod>, namespace: string, name: string, rest: seq<Pod>)
    requires UniqueKeys(rows)
    ensures Calm(rows, Remove(rows, namespace, name), rest)
  {
    forall node, r
      ensures Load(Remove(rows, namespace, name), node, r) <= Load(rows, node, r)
    {
      RemoveLoadsLess(rows, namespace, name, node, r);
    }
    forall k | 0 <= k < |rest|
      ensures StillFits(rows, rest[k]) ==> StillFits(Remove(rows, namespace, name), rest[k])
    {
      RemoveRow(rows, namespace, name, rest[k].namespace, rest[k].name);
    }
  }

  /** Reporting a phase, short of reviving a pod that has ended. */
  lemma PhaseChangeIsCalm(rows: seq<Pod>, i: nat, phase: PodPhase, rest: seq<Pod>)
    requires UniqueKeys(rows) && i < |rows|
    requires rows[i].phase == Some(Succeeded) || rows[i].phase == Some(Failed) ==> phase == Succeeded || phase == Failed
    ensures Calm(rows, rows[i := rows[i].(phase := Some(phase))], rest)
  {
    var after := rows[i := rows[i].(phase := Some(phase))];
    forall node, r
      ensures Load(after, node, r) <= Load(rows, node, r)
    {
      LoadUpdates(rows, i, after[i], node, r);
    }
    forall k | 0 <= k < |rest|
      ensures StillFits(rows, rest[k]) ==> StillFits(after, rest[k])
    {
      FindAt(after, rest[k].namespace, rest[k].name, Find(rows, rest[k].namespace, rest[k].name));
    }
  }

  lemma PutLoadsLess(rows: seq<Pod>, p: Pod, node: string, r: Resource)
    requires UniqueKeys(rows) && p.nodeName.None?
    ensures Load(Put(rows, p), node, r) <= Load(rows, node, r)
  {
    var i := Find(rows, p.namespace, p.name);
    if i < |rows| {
      LoadUpdates(rows, i, Stored(p), node, r);
    } else {
      LoadConcat([Stored(p)], rows, node, r);
      assert [Stored(p)][..0] == [];
    }
  }

  /** The rows of an upsert are the one it writes and old ones. */
  lemma PutAddsOne(rows: seq<Pod>, p: Pod, q: Pod)
    requires UniqueKeys(rows) && q in Put(rows, p)
    ensures q == Stored(p) || q in rows
  {
    var i, after := Find(rows, p.namespace, p.name), Put(rows, p);
    var k :| 0 <= k < |after| && after[k] == q;
    if i < |rows| {
      assert k != i ==> rows[k] == q;
    }
  }

  /** Creating a pod that names no node, under any key that is not in the batch's: an
      upsert over a bound row unbinds it. */
  lemma CreatingUnboundIsCalm(rows: seq<Pod>, p: Pod, rest: seq<Pod>)
    requires UniqueKeys(rows) && p.nodeName.None?
    requires forall k | 0 <= k < |rest| :: !SameKey(rest[k], p)
    ensures Calm(rows, Put(rows, p), rest)
  {
    forall node, r
      ensures Load(Put(rows, p), node, r) <= Load(rows, node, r)
    {
      PutLoadsLess(rows, p, node, r);
    }
    forall k | 0 <= k < |rest|
      ensures StillFits(rows, rest[k]) ==> StillFits(Put(rows, p), rest[k])
    {
      PutRow(rows, p, rest[k].namespace, rest[k].name);
    }
  }

  lemma DeletingIsGentle(rows: seq<Pod>, namespace: string, name: string, rest: seq<Pod>)
    requires UniqueKeys(rows)
    ensures Gentle(rows, Remove(rows, namespace, name), rest)
  {
    forall q | q in Remove(rows, namespace, name)
      ensures SomeAlike(rows, q)
    {
      assert q in rows && Alike(q, q);
    }
    forall k | 0 <= k < |rest|
      ensures StillItself(rows, rest[k]) ==> StillItself(Remove(rows, namespace, name), rest[k])
    {
      RemoveRow(rows, namespace, name, rest[k].namespace, rest[k].name);
    }
  }

  /** Any phase, a revival included. */
  lemma PhaseChangeIsGentle(rows: seq<Pod>, i: nat, phase: PodPhase, rest: seq<Pod>)
    requires UniqueKeys(rows) && i < |rows|
    ensures Gentle(rows, rows[i := rows[i].(phase := Some(phase))], rest)
  {
    var after := rows[i := rows[i].(phase := Some(phase))];
    forall q | q in after
      ensures SomeAlike(rows, q)
    {
      var k :| 0 <= k < |after| && after[k] == q;
      assert rows[k] in rows && Alike(rows[k], q);
    }
    forall k | 0 <= k < |rest|
      ensures StillItself(rows, rest[k]) ==> StillItself(after, rest[k])
    {
      FindAt(after, rest[k].namespace, rest[k].name, Find(rows, rest[k].namespace, rest[k].name));
    }
  }

  lemma CreatingUnboundIsGentle(rows: seq<Pod>, p: Pod, rest: seq<Pod>)
    requires UniqueKeys(rows) && p.nodeName.None?
    requires forall k | 0 <= k < |rest| :: !SameKey(rest[k], p)
    ensures Gentle(rows, Put(rows, p), rest)
  {
    forall q | q in Put(rows, p) && q.nodeName.Some?
      ensures SomeAlike(rows, q)
    {
      PutAddsOne(rows, p, q);
      assert q in rows && Alike(q, q);
    }
    forall k | 0 <= k < |rest|
      ensures StillItself(rows, rest[k]) ==> StillItself(Put(rows, p), rest[k])
    {
      PutRow(rows, p, rest[k].namespace, rest[k].name);
    }
  }
}
