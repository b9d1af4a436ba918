/** The StatefulSet controller: numbered pods, created in order, trimmed from
    the top. */
module StatefulSets {
  import opened Wrappers
  import opened Cluster
  import Text

  datatype StatefulSet = StatefulSet(
    namespace: string, name: string, uid: string, template: Pod, replicas: Option<int>, parallel: bool)

  function Desired(s: StatefulSet): int {
    s.replicas.GetOr(1)
  }

  function Wanted(s: StatefulSet): nat {
    if Desired(s) < 0 then 0 else Desired(s)
  }

  function PodName(s: StatefulSet, i: int): string {
    s.name + "-" + Text.ShowInt(i)
  }

  /** The pod created from the template for index `i`. */
  function NewPod(s: StatefulSet, i: int): Pod {
    s.template.(namespace := s.namespace, name := PodName(s, i), owners := [s.uid], phase := Some(Pending))
  }

  /** How far above the wanted count a pass looks for pods to delete. */
  const TRIM: nat := 32

  /** What becomes of the statements, by pod index: whether the walk's reads
      succeed, the fates of its creates, whether the trim's reads succeed, and
      whether its deletes take effect, reported or not. */
  datatype Env = Env(readOk: int -> bool, create: int -> Fate, trimReadOk: int -> bool, deleteOk: int -> bool)

  // ---------------------------------------------------------------------
  // The table seen from one set: a pod for each index in use
  // ---------------------------------------------------------------------

  type Slots = imap<int, Pod>

  ghost function SlotsOf(rows: seq<Pod>, s: StatefulSet): Slots {
    imap i: int | RowAt(rows, s.namespace, PodName(s, i)).Some? :: RowAt(rows, s.namespace, PodName(s, i)).value
  }

  ghost predicate Runs(m: Slots, i: int) {
    i in m && IsRunning(m[i])
  }

  /** The row under this key is not one of the set's, or has not changed. */
  ghost predicate RowKept(before: seq<Pod>, after: seq<Pod>, s: StatefulSet, namespace: string, name: string) {
    (namespace == s.namespace && exists i: int :: PodName(s, i) == name) ||
    RowAt(after, namespace, name) == RowAt(before, namespace, name)
  }

  /** No row outside the set's names has changed. */
  ghost predicate OthersKept(before: seq<Pod>, after: seq<Pod>, s: StatefulSet) {
    forall ns, n :: RowKept(before, after, s, ns, n)
  }

  /** Distinct indices have distinct pod names. */
  lemma IndexDecidesName(s: StatefulSet, i: int, j: int)
    ensures PodName(s, i) == PodName(s, j) <==> i == j
  {
    assert PodName(s, i)[|s.name| + 1..] == Text.ShowInt(i) && PodName(s, j)[|s.name| + 1..] == Text.ShowInt(j);
    Text.ShowIntInjective(i, j);
  }

  /** Two slot maps that differ at most at `i`. */
  ghost predicate SlotWritten(before: Slots, after: Slots, i: int, row: Option<Pod>, j: int) {
    if i == j then (j in after <==> row.Some?) && (row.Some? ==> j in after && after[j] == row.value)
    else (j in after <==> j in before) && (j in before ==> j in after && after[j] == before[j])
  }

  lemma CreateSlotAt(rows: seq<Pod>, s: StatefulSet, i: int, j: int)
    requires UniqueKeys(rows)
    ensures SlotWritten(SlotsOf(rows, s), SlotsOf(Put(rows, NewPod(s, i)), s), i, Some(NewPod(s, i)), j)
  {
    PutRow(rows, NewPod(s, i), s.namespace, PodName(s, j));
    IndexDecidesName(s, i, j);
  }

  lemma DeleteSlotAt(rows: seq<Pod>, s: StatefulSet, i: int, j: int)
    requires UniqueKeys(rows)
    ensures SlotWritten(SlotsOf(rows, s), SlotsOf(Remove(rows, s.namespace, PodName(s, i)), s), i, None, j)
  {
    RemoveRow(rows, s.namespace, PodName(s, i), s.namespace, PodName(s, j));
    IndexDecidesName(s, i, j);
  }

  lemma SlotsAgree(before: Slots, after: Slots, i: int, row: Option<Pod>)
    requires forall j: int :: SlotWritten(before, after, i, row, j)
    ensures after == if row.Some? then before[i := row.value] else before - {i}
  {
    var r := if row.Some? then before[i := row.value] else before - {i};
    forall j: int
      ensures j in after <==> j in r
      ensures j in after ==> after[j] == r[j]
    {
      assert SlotWritten(before, after, i, row, j);
    }
  }

  lemma CreateKeepsOthers(rows: seq<Pod>, s: StatefulSet, i: int)
    requires UniqueKeys(rows)
    ensures OthersKept(rows, Put(rows, NewPod(s, i)), s)
  {
    forall ns, n
      ensures RowKept(rows, Put(rows, NewPod(s, i)), s, ns, n)
    {
      PutRow(rows, NewPod(s, i), ns, n);
    }
  }

  lemma DeleteKeepsOthers(rows: seq<Pod>, s: StatefulSet, i: int)
    requires UniqueKeys(rows)
    ensures OthersKept(rows, Remove(rows, s.namespace, PodName(s, i)), s)
  {
    forall ns, n
      ensures RowKept(rows, Remove(rows, s.namespace, PodName(s, i)), s, ns, n)
    {
      RemoveRow(rows, s.namespace, PodName(s, i), ns, n);
    }
  }

  lemma CreateSlot(rows: seq<Pod>, s: StatefulSet, i: int)
    requires UniqueKeys(rows)
    ensures SlotsOf(Put(rows, NewPod(s, i)), s) == SlotsOf(rows, s)[i := NewPod(s, i)]
    ensures OthersKept(rows, Put(rows, NewPod(s, i)), s)
  {
    var before, after, p := SlotsOf(rows, s), SlotsOf(Put(rows, NewPod(s, i)), s), NewPod(s, i);
    forall j: int
      ensures SlotWritten(before, after, i, Some(p), j)
    {
      CreateSlotAt(rows, s, i, j);
    }
    SlotsAgree(before, after, i, Some(p));
    CreateKeepsOthers(rows, s, i);
  }

  lemma DeleteSlot(rows: seq<Pod>, s: StatefulSet, i: int)
    requires UniqueKeys(rows)
    ensures SlotsOf(Remove(rows, s.namespace, PodName(s, i)), s) == SlotsOf(rows, s) - {i}
    ensures OthersKept(rows, Remove(rows, s.namespace, PodName(s, i)), s)
  {
    var before, after := SlotsOf(rows, s), SlotsOf(Remove(rows, s.namespace, PodName(s, i)), s);
    forall j: int
      ensures SlotWritten(before, after, i, None, j)
    {
      DeleteSlotAt(rows, s, i, j);
    }
    SlotsAgree(before, after, i, None);
    DeleteKeepsOthers(rows, s, i);
  }

  lemma OthersKeptAgain(a: seq<Pod>, b: seq<Pod>, c: seq<Pod>, s: StatefulSet)
    requires OthersKept(a, b, s) && OthersKept(b, c, s)
    ensures OthersKept(a, c, s)
  {
    forall ns, n
      ensures RowKept(a, c, s, ns, n)
    {
      assert RowKept(a, b, s, ns, n) && RowKept(b, c, s, ns, n);
    }
  }

  // ---------------------------------------------------------------------
  // One pass
  // ---------------------------------------------------------------------

  /** The walk over 0..desired: the slots, the two counters, and whether it broke off. */
  datatype Walk = Walk(slots: Slots, current: nat, ready: nat, stopped: bool)

  ghost function Visit(s: StatefulSet, env: Env, w: Walk, i: nat): Walk {
    if env.readOk(i) && i in w.slots then
      if Runs(w.slots, i) then w.(current := w.current + 1, ready := w.ready + 1)
      else w.(current := w.current + 1, stopped := !s.parallel)
    else if env.create(i) == NotExecuted then w.(stopped := true)
    else w.(slots := w.slots[i := NewPod(s, i)], stopped := !s.parallel || env.create(i) == AnswerLost)
  }

  /** The walk after at most `n` indices. */
  ghost function WalkTo(m: Slots, s: StatefulSet, env: Env, n: nat): Walk {
    if n == 0 then Walk(m, 0, 0, false)
    else
      var w := WalkTo(m, s, env, n - 1);
      if w.stopped then w else Visit(s, env, w, n - 1)
  }

  ghost function TrimOne(m: Slots, env: Env, i: int): Slots {
    if env.trimReadOk(i) && i in m && env.deleteOk(i) then m - {i} else m
  }

  /** The trim after its first `n` indices, counted down from the highest. */
  ghost function Trim(m: Slots, s: StatefulSet, env: Env, n: nat): Slots {
    if n == 0 then m else TrimOne(Trim(m, s, env, n - 1), env, Desired(s) + TRIM - n)
  }

  ghost function Reconcile(m: Slots, s: StatefulSet, env: Env): Slots {
    Trim(WalkTo(m, s, env, Wanted(s)).slots, s, env, TRIM)
  }

  class ControllerManager {
    const table: PodTable

    constructor (table: PodTable)
      ensures this.table == table
    {
      this.table := table;
    }

    method ReconcileStatefulSet(s: StatefulSet, env: Env) returns (ready: nat, current: nat)
      requires table.Valid()
      modifies table
      ensures table.Valid() && OthersKept(old(table.rows), table.rows, s)
      ensures SlotsOf(table.rows, s) == Reconcile(SlotsOf(old(table.rows), s), s, env)
      ensures var w := WalkTo(SlotsOf(old(table.rows), s), s, env, Wanted(s)); ready == w.ready && current == w.current
    {
      current, ready := CreateInOrder(s, env);
      ghost var walked := table.rows;
      TrimAbove(s, env);
      OthersKeptAgain(old(table.rows), walked, table.rows, s);
    }

    method Read(s: StatefulSet, i: int) returns (pod: Option<Pod>)
      ensures pod.Some? <==> i in SlotsOf(table.rows, s)
      ensures pod.Some? ==> pod.value == SlotsOf(table.rows, s)[i]
    {
      pod := table.Get(s.namespace, PodName(s, i));
    }

    method Create(s: StatefulSet, i: int)
      requires table.Valid()
      modifies table
      ensures table.Valid() && OthersKept(old(table.rows), table.rows, s)
      ensures SlotsOf(table.rows, s) == SlotsOf(old(table.rows), s)[i := NewPod(s, i)]
    {
      CreateSlot(table.rows, s, i);
      table.Create(NewPod(s, i));
    }

    method Delete(s: StatefulSet, i: int)
      requires table.Valid()
      modifies table
      ensures table.Valid() && OthersKept(old(table.rows), table.rows, s)
      ensures SlotsOf(table.rows, s) == SlotsOf(old(table.rows), s) - {i}
    {
      DeleteSlot(table.rows, s, i);
      var _ := table.Delete(s.namespace, PodName(s, i));
    }

    /** The walk at one index: the pod read there, if any, and whether the walk breaks off. */
    method VisitIndex(s: StatefulSet, env: Env, i: nat) returns (pod: Option<Pod>, stopped: bool)
      requires table.Valid()
      modifies table
      ensures Visited(old(table.rows), table.rows, s, env, i, pod, stopped)
    {
      pod := None;
      if env.readOk(i) {
        pod := Read(s, i);
      }
      if pod.Some? {
        stopped := !IsRunning(pod.value) && !s.parallel;
      } else if env.create(i) == NotExecuted {
        stopped := true;
      } else {
        Create(s, i);
        stopped := !s.parallel || env.create(i) == AnswerLost;
      }
    }

    /** The walk over the wanted indices. */
    method CreateInOrder(s: StatefulSet, env: Env) returns (current: nat, ready: nat)
      requires table.Valid()
      modifies table
      ensures Walked(old(table.rows), table.rows, s, env, current, ready)
    {
      current, ready := 0, 0;
      ghost var stopped := false;
      for i := 0 to Wanted(s)
        invariant !stopped && WalkedSoFar(old(table.rows), table.rows, s, env, i, current, ready, stopped)
      {
        ghost var rows := table.rows;
        var pod, halt := VisitIndex(s, env, i);
        WalkStep(old(table.rows), rows, table.rows, s, env, i, current, ready, pod, halt);
        if pod.Some? {
          current := current + 1;
          if IsRunning(pod.value) {
            ready := ready + 1;
          }
        }
        if halt {
          break;
        }
      }
    }

    method TrimIndex(s: StatefulSet, env: Env, i: int)
      requires table.Valid()
      modifies table
      ensures Trimmed(old(table.rows), table.rows, s, env, i)
    {
      if env.trimReadOk(i) {
        var pre := Read(s, i);
        if pre.Some? && env.deleteOk(i) {
          Delete(s, i);
        }
      }
    }

    /** The scale-down, from the highest index looked at. */
    method TrimAbove(s: StatefulSet, env: Env)
      requires table.Valid()
      modifies table
      ensures TrimmedSoFar(old(table.rows), table.rows, s, env, TRIM)
    {
      var i := Desired(s) + TRIM;
      while i > Desired(s)
        invariant Desired(s) <= i <= Desired(s) + TRIM
        invariant TrimmedSoFar(old(table.rows), table.rows, s, env, Desired(s) + TRIM - i)
      {
        i := i - 1;
        ghost var rows := table.rows;
        TrimIndex(s, env, i);
        TrimStep(old(table.rows), rows, table.rows, s, env, Desired(s) + TRIM - i);
      }
    }
  }

  /** What one visit does to the table. */
  ghost predicate Visited(before: seq<Pod>, after: seq<Pod>, s: StatefulSet, env: Env, i: nat, pod: Option<Pod>,
                          stopped: bool)
  {
    UniqueKeys(after) && OthersKept(before, after, s) &&
    Visit(s, env, Walk(SlotsOf(before, s), 0, 0, false), i)
 == Walk(SlotsOf(after, s), if pod.Some? then 1 else 0, if pod.Some? && IsRunning(pod.value) then 1 else 0, stopped)
  }

  ghost predicate WalkedSoFar(before: seq<Pod>, after: seq<Pod>, s: StatefulSet, env: Env, n: nat, current: nat,
                              ready: nat, stopped: bool)
  {
    UniqueKeys(after) && OthersKept(before, after, s) &&
    WalkTo(SlotsOf(before, s), s, env, n) == Walk(SlotsOf(after, s), current, ready, stopped)
  }

  /** The table and the counters are those of the whole walk. */
  ghost predicate Walked(before: seq<Pod>, after: seq<Pod>, s: StatefulSet, env: Env, current: nat, ready: nat) {
    exists stopped :: WalkedSoFar(before, after, s, env, Wanted(s), current, ready, stopped)
  }

  ghost predicate Trimmed(before: seq<Pod>, after: seq<Pod>, s: StatefulSet, env: Env, i: int) {
    UniqueKeys(after) && OthersKept(before, after, s) && SlotsOf(after, s) == TrimOne(SlotsOf(before, s), env, i)
  }

  ghost predicate TrimmedSoFar(before: seq<Pod>, after: seq<Pod>, s: StatefulSet, env: Env, n: nat) {
    UniqueKeys(after) && OthersKept(before, after, s) && SlotsOf(after, s) == Trim(SlotsOf(before, s), s, env, n)
  }

  /** A visit counts the same whatever the counters were. */
  lemma VisitCounts(m: Slots, s: StatefulSet, env: Env, i: nat, before: Slots, after: Slots,
                    current: nat, ready: nat, pod: Option<Pod>, stopped: bool)
    requires i < Wanted(s) && WalkTo(m, s, env, i) == Walk(before, current, ready, false)
    requires Visit(s, env, Walk(before, 0, 0, false), i)
          == Walk(after, if pod.Some? then 1 else 0, if pod.Some? && IsRunning(pod.value) then 1 else 0, stopped)
    ensures
      var c := if pod.Some? then current + 1 else current;
      var r := if pod.Some? && IsRunning(pod.value) then ready + 1 else ready;
      var w := Walk(after, c, r, stopped);
      WalkTo(m, s, env, i + 1) == w && (stopped ==> WalkTo(m, s, env, Wanted(s)) == w)
  {
    WalkEnds(m, s, env, i + 1, Wanted(s));
  }

  lemma WalkStep(first: seq<Pod>, before: seq<Pod>, after: seq<Pod>, s: StatefulSet, env: Env, i: nat,
                 current: nat, ready: nat, pod: Option<Pod>, stopped: bool)
    requires i < Wanted(s) && WalkedSoFar(first, before, s, env, i, current, ready, false)
    requires Visited(before, after, s, env, i, pod, stopped)
    ensures
      var c := if pod.Some? then current + 1 else current;
      var r := if pod.Some? && IsRunning(pod.value) then ready + 1 else ready;
      WalkedSoFar(first, after, s, env, i + 1, c, r, stopped) && (stopped ==> Walked(first, after, s, env, c, r))
  {
    OthersKeptAgain(first, before, after, s);
    VisitCounts(SlotsOf(first, s), s, env, i, SlotsOf(before, s), SlotsOf(after, s), current, ready, pod, stopped);
    assert stopped ==> WalkedSoFar(first, after, s, env, Wanted(s), if pod.Some? then current + 1 else current,
                                   if pod.Some? && IsRunning(pod.value) then ready + 1 else ready, stopped);
  }

  lemma TrimGoesOn(m: Slots, before: Slots, after: Slots, s: StatefulSet, env: Env, n: nat)
    requires n > 0 && before == Trim(m, s, env, n - 1) && after == TrimOne(before, env, Desired(s) + TRIM - n)
    ensures after == Trim(m, s, env, n)
  {
  }

  lemma TrimStep(first: seq<Pod>, before: seq<Pod>, after: seq<Pod>, s: StatefulSet, env: Env, n: nat)
    requires n > 0 && TrimmedSoFar(first, before, s, env, n - 1)
    requires Trimmed(before, after, s, env, Desired(s) + TRIM - n)
    ensures TrimmedSoFar(first, after, s, env, n)
  {
    OthersKeptAgain(first, before, after, s);
    TrimGoesOn(SlotsOf(first, s), SlotsOf(before, s), SlotsOf(after, s), s, env, n);
  }

  lemma {:induction false} WalkEnds(m: Slots, s: StatefulSet, env: Env, n: nat, k: nat)
    requires n <= k
    ensures WalkTo(m, s, env, n).stopped ==> WalkTo(m, s, env, k) == WalkTo(m, s, env, n)
  {
    if n < k {
      WalkEnds(m, s, env, n, k - 1);
    }
  }

  /** The walk leaves the indices it has not reached alone. */
  lemma {:induction false} WalkAhead(m: Slots, s: StatefulSet, env: Env, n: nat, j: int)
    requires j < 0 || n <= j
    ensures j in WalkTo(m, s, env, n).slots <==> j in m
    ensures j in m ==> WalkTo(m, s, env, n).slots[j] == m[j]
  {
    if n > 0 {
      WalkAhead(m, s, env, n - 1, j);
    }
  }

  /** Every index the walk passed without breaking off now exists, and none is lost. */
  lemma {:induction false} WalkFills(m: Slots, s: StatefulSet, env: Env, n: nat, j: nat)
    requires j < n
    ensures j in m || !WalkTo(m, s, env, n).stopped ==> j in WalkTo(m, s, env, n).slots
  {
    if j < n - 1 {
      WalkFills(m, s, env, n - 1, j);
    } else {
      WalkAhead(m, s, env, n - 1, j);
    }
  }

  /** After the trim an index of its window survives only if a statement on it
      failed, and every other index is untouched. */
  lemma {:induction false} TrimSlot(m: Slots, s: StatefulSet, env: Env, n: nat, j: int)
    requires n <= TRIM
    ensures j in Trim(m, s, env, n) <==>
      j in m && !(Desired(s) + TRIM - n <= j < Desired(s) + TRIM && env.trimReadOk(j) && env.deleteOk(j))
    ensures j in Trim(m, s, env, n) ==> Trim(m, s, env, n)[j] == m[j]
  {
    if n > 0 {
      TrimSlot(m, s, env, n - 1, j);
    }
  }

  // ---------------------------------------------------------------------
  // OrderedReady
  // ---------------------------------------------------------------------

  /** The pod was read, and read Running. */
  ghost predicate ReadRunning(m: Slots, env: Env, i: nat) {
    env.readOk(i) && Runs(m, i)
  }

  /** Length of the all-Running prefix of the first `n` indices. */
  ghost function RunningPrefix(m: Slots, env: Env, n: nat): (k: nat)
    ensures k <= n
    ensures forall i: nat | i < k :: ReadRunning(m, env, i)
    ensures k < n ==> !ReadRunning(m, env, k)
  {
    if n == 0 then 0
    else
      var k := RunningPrefix(m, env, n - 1);
      if k == n - 1 && ReadRunning(m, env, k) then n else k
  }

  /** In OrderedReady mode a pass touches at most one index: the first one not
      read Running. It creates that pod if it was not read, and nothing else. */
  lemma {:induction false} OrderedWalk(m: Slots, s: StatefulSet, env: Env, n: nat)
    requires !s.parallel
    ensures
      var w, k := WalkTo(m, s, env, n), RunningPrefix(m, env, n);
      var waits := k < n && env.readOk(k) && k in m;
      w.ready == k && w.current == (if waits then k + 1 else k) && (w.stopped <==> k < n) &&
      w.slots == if k < n && !waits && env.create(k) != NotExecuted then m[k := NewPod(s, k)] else m
  {
    if n > 0 {
      OrderedWalk(m, s, env, n - 1);
    }
  }

  // ---------------------------------------------------------------------
  // Parallel
  // ---------------------------------------------------------------------

  /** There is a pod, and it is read. */
  ghost predicate WasRead(m: Slots, env: Env, i: nat) {
    env.readOk(i) && i in m
  }

  /** How many pods below `n` are read, and how many of them are Running. */
  ghost function ReadBelow(m: Slots, env: Env, n: nat): nat {
    if n == 0 then 0 else ReadBelow(m, env, n - 1) + if WasRead(m, env, n - 1) then 1 else 0
  }

  ghost function RunningBelow(m: Slots, env: Env, n: nat): nat {
    if n == 0 then 0 else RunningBelow(m, env, n - 1) + if ReadRunning(m, env, n - 1) then 1 else 0
  }

  /** What the walk leaves at an index it has passed. */
  ghost predicate Filled(m: Slots, s: StatefulSet, env: Env, w: Walk, i: nat) {
    i in w.slots && w.slots[i] == if WasRead(m, env, i) then m[i] else NewPod(s, i)
  }

  /** In Parallel mode a walk whose creates are all answered passes every index: it
      counts the pods it reads, and the Running ones, and creates each it does not
      read. */
  lemma {:induction false} ParallelWalk(m: Slots, s: StatefulSet, env: Env, n: nat)
    requires s.parallel && forall i: nat | i < n :: WasRead(m, env, i) || env.create(i) == Answered
    ensures
      var w := WalkTo(m, s, env, n);
      !w.stopped && w.current == ReadBelow(m, env, n) && w.ready == RunningBelow(m, env, n) &&
      forall i: nat | i < n :: Filled(m, s, env, w, i)
  {
    if n > 0 {
      ParallelWalk(m, s, env, n - 1);
      WalkAhead(m, s, env, n - 1, n - 1);
      var before, w := WalkTo(m, s, env, n - 1), WalkTo(m, s, env, n);
      forall i: nat | i < n
        ensures Filled(m, s, env, w, i)
      {
        assert i < n - 1 ==> Filled(m, s, env, before, i);
      }
    }
  }

  // ---------------------------------------------------------------------
  // A read that fails is taken for a missing pod
  // ---------------------------------------------------------------------

  /** The walk comes to index `i`, its read fails, and the create is executed. */
  ghost predicate Overwrites(m: Slots, s: StatefulSet, env: Env, i: nat) {
    !WalkTo(m, s, env, i).stopped && !env.readOk(i) && env.create(i) != NotExecuted
  }

  /** What the walk leaves in a slot that was in use. */
  lemma {:induction false} WalkSlot(m: Slots, s: StatefulSet, env: Env, n: nat, i: nat)
    requires i < n && i in m
    ensures i in WalkTo(m, s, env, n).slots
    ensures WalkTo(m, s, env, n).slots[i] == if Overwrites(m, s, env, i) then NewPod(s, i) else m[i]
  {
    if i < n - 1 {
      WalkSlot(m, s, env, n - 1, i);
    } else {
      WalkAhead(m, s, env, n - 1, i);
    }
  }

  /** The trim leaves the wanted indices alone. */
  lemma ReconcileSlot(m: Slots, s: StatefulSet, env: Env, i: nat)
    requires i < Wanted(s) && i in m
    ensures i in Reconcile(m, s, env)
    ensures Reconcile(m, s, env)[i] == if Overwrites(m, s, env, i) then NewPod(s, i) else m[i]
  {
    WalkSlot(m, s, env, Wanted(s), i);
    TrimSlot(WalkTo(m, s, env, Wanted(s)).slots, s, env, TRIM, i);
  }

  /** A pass leaves every wanted pod that exists as it was if and only if no read of
      one fails and is followed by an executed create; a pod that is just as the
      create writes it cannot tell. */
  lemma ExistingKeptIff(m: Slots, s: StatefulSet, env: Env)
    ensures (forall i: nat | i < Wanted(s) && i in m :: i in Reconcile(m, s, env) && Reconcile(m, s, env)[i] == m[i])
      <==> (forall i: nat | i < Wanted(s) && i in m && m[i] != NewPod(s, i) :: !Overwrites(m, s, env, i))
  {
    forall i: nat | i < Wanted(s) && i in m
      ensures i in Reconcile(m, s, env)
      ensures Reconcile(m, s, env)[i] == if Overwrites(m, s, env, i) then NewPod(s, i) else m[i]
    {
      ReconcileSlot(m, s, env, i);
    }
  }

  /** One failed read of the first pod, running and bound, makes it an unscheduled
      pod again, unless the template names a node. */
  lemma FailedReadUnbinds(m: Slots, s: StatefulSet, env: Env)
    requires Wanted(s) > 0 && Runs(m, 0) && m[0].nodeName.Some?
    requires !env.readOk(0) && env.create(0) != NotExecuted && s.template.nodeName.None?
    ensures 0 in Reconcile(m, s, env) && Unscheduled(Reconcile(m, s, env)[0])
  {
    ReconcileSlot(m, s, env, 0);
  }

  // ---------------------------------------------------------------------
  // Gaps and the trim's reach
  // ---------------------------------------------------------------------

  /** An index in use has every smaller one in use. */
  ghost predicate NoGaps(m: Slots) {
    forall i: nat, j: nat | i < j && j in m :: i in m
  }

  /** The walk makes no gaps, whatever fails or goes unanswered, in both modes. */
  lemma {:induction false} WalkKeepsNoGaps(m: Slots, s: StatefulSet, env: Env, n: nat)
    requires NoGaps(m)
    ensures NoGaps(WalkTo(m, s, env, n).slots)
  {
    if n > 0 {
      WalkKeepsNoGaps(m, s, env, n - 1);
      var before := WalkTo(m, s, env, n - 1);
      forall i: nat | i < n - 1
        ensures !before.stopped ==> i in before.slots
      {
        WalkFills(m, s, env, n - 1, i);
      }
    }
  }

  /** The trim's own statements all succeed. */
  ghost predicate TrimSucceeds(s: StatefulSet, env: Env) {
    forall i | Desired(s) <= i < Desired(s) + TRIM :: env.trimReadOk(i) && env.deleteOk(i)
  }

  /** What a pass leaves at an index from the wanted count up. */
  lemma AboveDesired(m: Slots, s: StatefulSet, env: Env, i: int)
    requires TrimSucceeds(s, env) && i >= Desired(s)
    ensures i in Reconcile(m, s, env) <==> i in m && i >= Desired(s) + TRIM
  {
    WalkAhead(m, s, env, Wanted(s), i);
    TrimSlot(WalkTo(m, s, env, Wanted(s)).slots, s, env, TRIM, i);
  }

  /** No index from the wanted count up survives a pass exactly when none was
      beyond the trim's reach. */
  lemma TrimReach(m: Slots, s: StatefulSet, env: Env)
    requires TrimSucceeds(s, env)
    ensures (forall i | i >= Desired(s) :: i !in Reconcile(m, s, env)) <==>
      (forall i | i >= Desired(s) + 32 :: i !in m)
  {
    forall i | i >= Desired(s)
      ensures i in Reconcile(m, s, env) <==> i in m && i >= Desired(s) + TRIM
    {
      AboveDesired(m, s, env, i);
    }
  }

  /** A pass over a set without gaps leaves none exactly when the scale-down is
      within the trim's reach; a larger one punches a hole. */
  lemma NoGapsKept(m: Slots, s: StatefulSet, env: Env)
    requires NoGaps(m) && TrimSucceeds(s, env) && Desired(s) >= 0
    ensures NoGaps(Reconcile(m, s, env)) <==> Desired(s) + 32 !in m
  {
    var d := Desired(s);
    var walked, after := WalkTo(m, s, env, d).slots, Reconcile(m, s, env);
    WalkKeepsNoGaps(m, s, env, d);
    AboveDesired(m, s, env, d);
    AboveDesired(m, s, env, d + TRIM);
    if d + TRIM !in m {
      forall i: nat, j: nat | i < j && j in after
        ensures i in after
      {
        if j >= d {
          AboveDesired(m, s, env, j);
        }
        TrimSlot(walked, s, env, TRIM, i);
        TrimSlot(walked, s, env, TRIM, j);
      }
    }
  }

  // ---------------------------------------------------------------------
  // Convergence
  // ---------------------------------------------------------------------

  /** Two for a missing index, one for one that is not Running. */
  ghost function Cost(m: Slots, i: nat): nat {
    if Runs(m, i) then 0 else if i in m then 1 else 2
  }

  /** Missing plus not-running indices below `n`. */
  ghost function Deficit(m: Slots, n: nat): nat {
    if n == 0 then 0 else Deficit(m, n - 1) + Cost(m, n - 1)
  }

  lemma {:induction false} NoDeficit(m: Slots, n: nat)
    ensures Deficit(m, n) == 0 <==> forall i: nat | i < n :: Runs(m, i)
  {
    if n > 0 {
      NoDeficit(m, n - 1);
    }
  }

  lemma {:induction false} DeficitMonotone(before: Slots, after: Slots, n: nat, k: nat)
    requires forall i: nat | i < n :: Cost(after, i) <= Cost(before, i)
    ensures Deficit(after, n) <= Deficit(before, n)
    ensures k < n && Cost(after, k) < Cost(before, k) ==> Deficit(after, n) < Deficit(before, n)
  {
    if n > 0 {
      DeficitMonotone(before, after, n - 1, k);
    }
  }

  /** Between two passes no pod is lost or added, and each has become Running. */
  ghost predicate PodsStart(before: Slots, after: Slots, s: StatefulSet) {
    forall i: nat | i < Wanted(s) :: (i in after <==> i in before) && (i in before ==> Runs(after, i))
  }

  ghost predicate WalkSucceeds(s: StatefulSet, env: Env) {
    forall i: nat | i < Wanted(s) :: env.readOk(i) && env.create(i) == Answered
  }

  lemma {:induction false} ParallelNeverStops(m: Slots, s: StatefulSet, env: Env, n: nat)
    requires WalkSucceeds(s, env) && n <= Wanted(s) && s.parallel
    ensures !WalkTo(m, s, env, n).stopped
  {
    if n > 0 {
      ParallelNeverStops(m, s, env, n - 1);
    }
  }

  /** A walk without failures fills the first index that does not run. */
  lemma WalkAdvances(m: Slots, s: StatefulSet, env: Env, n: nat)
    requires WalkSucceeds(s, env) && n <= Wanted(s) && RunningPrefix(m, env, n) < n
    ensures RunningPrefix(m, env, n) in WalkTo(m, s, env, n).slots
  {
    if s.parallel {
      ParallelNeverStops(m, s, env, n);
      WalkFills(m, s, env, n, RunningPrefix(m, env, n));
    } else {
      OrderedWalk(m, s, env, n);
    }
  }

  /** One pass without failures followed by its pods starting strictly lowers
      the deficit, in both modes, until every wanted index runs. */
  lemma RoundLowersDeficit(m: Slots, s: StatefulSet, env: Env, next: Slots)
    requires WalkSucceeds(s, env) && PodsStart(Reconcile(m, s, env), next, s)
    ensures Deficit(m, Wanted(s)) > 0 ==> Deficit(next, Wanted(s)) < Deficit(m, Wanted(s))
    ensures Deficit(next, Wanted(s)) <= Deficit(m, Wanted(s))
  {
    var n := Wanted(s);
    var walked, k := WalkTo(m, s, env, n).slots, RunningPrefix(m, env, n);
    forall i: nat | i < n
      ensures i in walked ==> Runs(next, i)
      ensures Cost(next, i) <= Cost(m, i)
    {
      TrimSlot(walked, s, env, TRIM, i);
      WalkFills(m, s, env, n, i);
    }
    DeficitMonotone(m, next, n, k);
    if k < n {
      WalkAdvances(m, s, env, n);
      assert Runs(next, k);
    } else {
      forall i: nat | i < n
        ensures Runs(m, i)
      {
        assert ReadRunning(m, env, i);
      }
      NoDeficit(m, n);
    }
  }

  /** A run of rounds: each state is the last one reconciled, with its pods started. */
  ghost predicate Rounds(states: seq<Slots>, s: StatefulSet, envs: seq<Env>) {
    |states| == |envs| + 1 &&
    forall r | 0 <= r < |envs| :: WalkSucceeds(s, envs[r]) &&
      PodsStart(Reconcile(states[r], s, envs[r]), states[r + 1], s)
  }

  /** After as many rounds as the deficit, every wanted pod runs. */
  lemma {:induction false} StatefulSetConverges(states: seq<Slots>, s: StatefulSet, envs: seq<Env>, r: nat)
    requires Rounds(states, s, envs) && r <= |envs|
    ensures Deficit(states[r], Wanted(s)) + r <= Deficit(states[0], Wanted(s)) || Deficit(states[r], Wanted(s)) == 0
    ensures r >= Deficit(states[0], Wanted(s)) ==> forall i: nat | i < Wanted(s) :: Runs(states[r], i)
  {
    if r > 0 {
      StatefulSetConverges(states, s, envs, r - 1);
      RoundLowersDeficit(states[r - 1], s, envs[r - 1], states[r]);
    }
    NoDeficit(states[r], Wanted(s));
  }
}
