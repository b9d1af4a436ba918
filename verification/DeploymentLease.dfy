/** What the controller lease buys the Deployments. Masters acquire the lease,
    list, and create or delete one pod at a time, all interleaved; no count is
    taken past its target, provided every pass takes its steps within TTL - 2e of
    the clock reading it acquired with. */
module DeploymentLease {
  import opened Wrappers
  import opened Cluster
  import opened Rows
  import opened Deployments
  import opened Lease
  import opened LeasedPasses

  /** What a pass has yet to do for the deployment it has listed. */
  datatype Work = Nothing | Creating(d: Deployment, left: nat) | Deleting(d: Deployment, victims: seq<Pod>)

  datatype State = State(clock: int, lease: map<string, Row>, rows: seq<Pod>, passes: map<string, Pass<Work>>)

  /** `done` says whether a statement takes effect. `Place` is the rest of the
      cluster binding pods and reporting phases. */
  datatype Step =
    | Wait(until: int)
    | Acquire(server: string, now: nat, read: int, fate: Fate)
    | List(server: string, d: Deployment)
    | Create(server: string, suffix: string, done: bool)
    | Delete(server: string, done: bool)
    | Finish(server: string)
    | Place(rows: seq<Pod>)

  const LEASE_NAME: string := "controller/deployment"

  /** The statements a listing leads to. */
  function Plan(rows: seq<Pod>, d: Deployment): Work {
    if Count(rows, d) < Target(d) then Creating(d, Target(d) - Count(rows, d))
    else Deleting(d, OwnedPods(rows, d)[..Count(rows, d) - Target(d)])
  }

  function CreateOne(rows: seq<Pod>, d: Deployment, suffix: string, done: bool): seq<Pod>
    requires UniqueKeys(rows)
  {
    if done then Put(rows, NewPod(d, suffix)) else rows
  }

  function RemoveOne(rows: seq<Pod>, d: Deployment, victim: Pod, done: bool): seq<Pod>
    requires UniqueKeys(rows)
  {
    if done then Remove(rows, d.namespace, victim.name) else rows
  }

  /** Rows that differ in node and phase only. */
  predicate SamePods(rows: seq<Pod>, rows': seq<Pod>) {
    |rows| == |rows'| &&
    forall i | 0 <= i < |rows| :: rows'[i] == rows[i].(nodeName := rows'[i].nodeName, phase := rows'[i].phase)
  }

  /** One step of the masters that reconcile `ds`. */
  ghost predicate Next(st: State, step: Step, st': State, ds: set<Deployment>, ttl: nat, e: nat) {
    UniqueKeys(st.rows) &&
    match step
    case Wait(until) => st.clock <= until && st' == st.(clock := until)
    case Acquire(s, now, read, fate) =>
      st' == st.(lease := st'.lease, passes := st'.passes) &&
      Acquires(st.clock, st.lease, st.passes, LEASE_NAME, s, now, read, fate, Nothing, st'.lease, st'.passes, ttl, e)
    case List(s, d) => s in st.passes && d in ds && st' == Resume(st, s, st.rows, Plan(st.rows, d))
    case Create(s, suffix, done) =>
      s in st.passes && st.passes[s].work.Creating? && st.passes[s].work.left > 0 &&
      var d, left := st.passes[s].work.d, st.passes[s].work.left;
      st' == Resume(st, s, CreateOne(st.rows, d, suffix, done), Creating(d, left - 1))
    case Delete(s, done) =>
      s in st.passes && st.passes[s].work.Deleting? && st.passes[s].work.victims != [] &&
      var d, victims := st.passes[s].work.d, st.passes[s].work.victims;
      st' == Resume(st, s, RemoveOne(st.rows, d, victims[0], done), Deleting(d, victims[1..]))
    case Finish(s) => s in st.passes && st' == st.(passes := st.passes - {s})
    case Place(rows) => SamePods(st.rows, rows) && st' == st.(rows := rows)
  }

  function Resume(st: State, s: string, rows: seq<Pod>, work: Work): State
    requires s in st.passes
  {
    st.(rows := rows, passes := st.passes[s := st.passes[s].(work := work)])
  }

  /** The premises: a pass acts only before its deadline, or `slack` after it, and
      draws unused names. */
  predicate TimelyBy(st: State, step: Step, ttl: nat, e: nat, slack: nat) {
    step.List? || step.Create? || step.Delete? ==>
      step.server in st.passes ==> st.clock <= Deadline(st.passes[step.server], ttl, e) + slack
  }

  predicate DrawsFresh(st: State, step: Step) {
    step.Create? && step.server in st.passes && st.passes[step.server].work.Creating? ==>
      var d := st.passes[step.server].work.d;
      !Present(st.rows, d.namespace, GeneratedName(d.name, step.suffix))
  }

  ghost predicate IsStep(st: State, step: Step, st': State, ds: set<Deployment>, ttl: nat, e: nat, slack: nat) {
    Next(st, step, st', ds, ttl, e) && TimelyBy(st, step, ttl, e, slack) && DrawsFresh(st, step)
  }

  /** A run that starts with no pass under way. */
  ghost predicate IsRun(states: seq<State>, steps: seq<Step>, ds: set<Deployment>, ttl: nat, e: nat, slack: nat) {
    |states| == |steps| + 1 && states[0].passes == map[] &&
    forall i | 0 <= i < |steps| :: IsStep(states[i], steps[i], states[i + 1], ds, ttl, e, slack)
  }

  /** Distinct uids, and no pod carries two of them. */
  predicate OneOwner(rows: seq<Pod>, ds: set<Deployment>) {
    forall d, f | d in ds && f in ds && d != f :: Apart(rows, d, f)
  }

  // ---------------------------------------------------------------------
  // One statement
  // ---------------------------------------------------------------------

  lemma CreateCounts(rows: seq<Pod>, d: Deployment, suffix: string, done: bool, f: Deployment)
    requires UniqueKeys(rows) && !Present(rows, d.namespace, GeneratedName(d.name, suffix))
    ensures Count(rows, f) <= Count(CreateOne(rows, d, suffix, done), f)
    ensures Count(CreateOne(rows, d, suffix, done), f) <= Count(rows, f) + if f.uid == d.uid then 1 else 0
  {
    PutFreshCounts(rows, NewPod(d, suffix), p => Counts(f, p));
  }

  /** The row of the key is there and counted. */
  predicate IsOwned(rows: seq<Pod>, d: Deployment, v: Pod) {
    v.namespace == d.namespace && Present(rows, d.namespace, v.name) && Counts(d, rows[Find(rows, d.namespace, v.name)])
  }

  lemma DeleteCounts(rows: seq<Pod>, d: Deployment, v: Pod, done: bool, f: Deployment)
    requires UniqueKeys(rows) && IsOwned(rows, d, v) && (f == d || Apart(rows, d, f))
    ensures Count(RemoveOne(rows, d, v, done), f) == Count(rows, f) - if done && f == d then 1 else 0
  {
    var p := rows[Find(rows, d.namespace, v.name)];
    assert p in rows;
    RemoveCounts(rows, p, x => Counts(f, x));
  }

  lemma {:induction false} PlaceCounts(rows: seq<Pod>, rows': seq<Pod>, f: Deployment)
    requires SamePods(rows, rows')
    ensures Count(rows', f) == Count(rows, f)
  {
    if rows != [] {
      var n := |rows| - 1;
      PlaceCounts(rows[..n], rows'[..n], f);
      assert Counts(f, rows'[n]) <==> Counts(f, rows[n]);
    }
  }

  // ---------------------------------------------------------------------
  // The invariant
  // ---------------------------------------------------------------------

  /** The plan does not lead past the target, and its victims are there. */
  predicate WorkOk(rows: seq<Pod>, ds: set<Deployment>, work: Work) {
    match work
    case Nothing => true
    case Creating(d, left) => d in ds && (left > 0 ==> Count(rows, d) + left <= Target(d))
    case Deleting(d, victims) =>
      d in ds && UniqueKeys(victims) && (forall k | 0 <= k < |victims| :: IsOwned(rows, d, victims[k])) &&
      (victims != [] ==> Target(d) + |victims| <= Count(rows, d))
  }

  /** A pass that may act holds the lease, and its plan is sound. */
  ghost predicate Inv(st: State, ds: set<Deployment>, ttl: nat, e: nat) {
    UniqueKeys(st.rows) && OneOwner(st.rows, ds) &&
    AllHold(st.clock, st.lease, st.passes, LEASE_NAME, ttl, e) &&
    forall s | Acts(st.clock, st.passes, s, ttl, e) :: WorkOk(st.rows, ds, st.passes[s].work)
  }

  /** Between where it was and the target, neither further off nor past it. */
  predicate Between(c: nat, was: nat, target: nat) {
    (was <= target ==> was <= c <= target) && (target <= was ==> target <= c <= was)
  }

  lemma PlanOk(rows: seq<Pod>, ds: set<Deployment>, d: Deployment)
    requires UniqueKeys(rows) && d in ds
    ensures WorkOk(rows, ds, Plan(rows, d))
  {
    var owned := OwnedPods(rows, d);
    OwnedPodsAreVictims(rows, d);
    if Count(rows, d) >= Target(d) {
      var victims := owned[..Count(rows, d) - Target(d)];
      forall k | 0 <= k < |victims|
        ensures IsOwned(rows, d, victims[k])
      {
        assert victims[k] == owned[k] && owned[k] in owned;
        FindsRow(rows, owned[k]);
      }
    }
  }

  lemma CreateKeepsApart(rows: seq<Pod>, ds: set<Deployment>, d: Deployment, suffix: string, done: bool)
    requires UniqueKeys(rows) && OneOwner(rows, ds) && !Present(rows, d.namespace, GeneratedName(d.name, suffix))
    ensures OneOwner(CreateOne(rows, d, suffix, done), ds)
  {
    forall f, g | f in ds && g in ds && f != g
      ensures Apart(CreateOne(rows, d, suffix, done), f, g)
    {
      assert Apart(rows, f, g);
    }
  }

  lemma DeleteKeepsApart(rows: seq<Pod>, ds: set<Deployment>, d: Deployment, v: Pod, done: bool)
    requires UniqueKeys(rows) && OneOwner(rows, ds)
    ensures OneOwner(RemoveOne(rows, d, v, done), ds)
  {
    forall f, g | f in ds && g in ds && f != g
      ensures Apart(RemoveOne(rows, d, v, done), f, g)
    {
      assert Apart(rows, f, g);
    }
  }

  lemma PlaceKeepsApart(rows: seq<Pod>, rows': seq<Pod>, ds: set<Deployment>)
    requires SamePods(rows, rows') && OneOwner(rows, ds)
    ensures OneOwner(rows', ds)
  {
    forall f, g | f in ds && g in ds && f != g
      ensures Apart(rows', f, g)
    {
      assert Apart(rows, f, g);
      forall p | p in rows'
        ensures !(f.uid in p.owners && g.uid in p.owners)
      {
        var k :| 0 <= k < |rows'| && rows'[k] == p;
        assert rows[k] in rows;
      }
    }
  }

  lemma PlaceKeepsWork(rows: seq<Pod>, rows': seq<Pod>, ds: set<Deployment>, work: Work)
    requires SamePods(rows, rows') && WorkOk(rows, ds, work)
    ensures WorkOk(rows', ds, work)
  {
    if !work.Nothing? {
      PlaceCounts(rows, rows', work.d);
    }
    if work.Deleting? {
      forall k | 0 <= k < |work.victims|
        ensures IsOwned(rows', work.d, work.victims[k])
      {
        var v := work.victims[k];
        assert IsOwned(rows, work.d, v);
        FindAt(rows', work.d.namespace, v.name, Find(rows, work.d.namespace, v.name));
      }
    }
  }

  /** The next victims are still there after one is deleted. */
  lemma DeleteKeepsWork(rows: seq<Pod>, ds: set<Deployment>, d: Deployment, victims: seq<Pod>, done: bool)
    requires UniqueKeys(rows) && victims != [] && WorkOk(rows, ds, Deleting(d, victims))
    ensures WorkOk(RemoveOne(rows, d, victims[0], done), ds, Deleting(d, victims[1..]))
  {
    assert IsOwned(rows, d, victims[0]);
    DeleteCounts(rows, d, victims[0], done, d);
    var rows', rest := RemoveOne(rows, d, victims[0], done), victims[1..];
    forall k | 0 <= k < |rest|
      ensures IsOwned(rows', d, rest[k])
    {
      var v := victims[k + 1];
      assert rest[k] == v && IsOwned(rows, d, v) && !SameKey(victims[0], v);
      if done {
        RemoveRow(rows, d.namespace, victims[0].name, d.namespace, v.name);
      }
    }
  }

  lemma CreateKeepsWork(rows: seq<Pod>, ds: set<Deployment>, d: Deployment, left: nat, suffix: string, done: bool)
    requires UniqueKeys(rows) && left > 0 && WorkOk(rows, ds, Creating(d, left))
    requires !Present(rows, d.namespace, GeneratedName(d.name, suffix))
    ensures WorkOk(CreateOne(rows, d, suffix, done), ds, Creating(d, left - 1))
  {
    CreateCounts(rows, d, suffix, done, d);
  }

  /** A step by the pass that may act: no other pass may. */
  lemma ActorStep(st: State, s: string, rows: seq<Pod>, work: Work, ds: set<Deployment>, ttl: nat, e: nat)
    requires AllHold(st.clock, st.lease, st.passes, LEASE_NAME, ttl, e) && Acts(st.clock, st.passes, s, ttl, e)
    requires UniqueKeys(rows) && OneOwner(rows, ds) && WorkOk(rows, ds, work)
    ensures Inv(Resume(st, s, rows, work), ds, ttl, e)
  {
    var st' := Resume(st, s, rows, work);
    forall q | Acts(st'.clock, st'.passes, q, ttl, e)
      ensures Holds(st'.lease, LEASE_NAME, q, st'.passes[q], ttl, e) && WorkOk(st'.rows, ds, st'.passes[q].work)
    {
      assert Acts(st.clock, st.passes, q, ttl, e);
      OneActs(st.clock, st.lease, st.passes, LEASE_NAME, ttl, e, s, q);
    }
  }

  lemma AcquireStep(st: State, step: Step, st': State, ds: set<Deployment>, ttl: nat, e: nat)
    requires Inv(st, ds, ttl, e) && Next(st, step, st', ds, ttl, e) && step.Acquire?
    ensures Inv(st', ds, ttl, e)
  {
    AcquireKeepsHolding(st.clock, st.lease, st.passes, LEASE_NAME, step.server, step.now, step.read, step.fate, Nothing,
                        st'.lease, st'.passes, ttl, e);
    forall q | Acts(st'.clock, st'.passes, q, ttl, e)
      ensures WorkOk(st'.rows, ds, st'.passes[q].work)
    {
      assert q in st.passes ==> Acts(st.clock, st.passes, q, ttl, e);
    }
  }

  /** Waiting, finishing, and what the rest of the cluster does. */
  lemma OtherStep(st: State, step: Step, st': State, ds: set<Deployment>, ttl: nat, e: nat)
    requires Inv(st, ds, ttl, e) && Next(st, step, st', ds, ttl, e) && (step.Wait? || step.Finish? || step.Place?)
    ensures Inv(st', ds, ttl, e)
  {
    if step.Place? {
      PlaceKeepsApart(st.rows, st'.rows, ds);
    }
    forall q | Acts(st'.clock, st'.passes, q, ttl, e)
      ensures Holds(st'.lease, LEASE_NAME, q, st'.passes[q], ttl, e) && WorkOk(st'.rows, ds, st'.passes[q].work)
    {
      assert Acts(st.clock, st.passes, q, ttl, e);
      if step.Place? {
        PlaceKeepsWork(st.rows, st'.rows, ds, st.passes[q].work);
      }
    }
  }

  lemma InvStep(st: State, step: Step, st': State, ds: set<Deployment>, ttl: nat, e: nat)
    requires Inv(st, ds, ttl, e) && Next(st, step, st', ds, ttl, e)
    requires TimelyBy(st, step, ttl, e, 0) && DrawsFresh(st, step)
    ensures Inv(st', ds, ttl, e)
  {
    match step
    case Acquire(_, _, _, _) => AcquireStep(st, step, st', ds, ttl, e);
    case List(s, d) =>
      PlanOk(st.rows, ds, d);
      ActorStep(st, s, st.rows, Plan(st.rows, d), ds, ttl, e);
    case Create(s, suffix, done) =>
      assert Acts(st.clock, st.passes, s, ttl, e);
      var d, left := st.passes[s].work.d, st.passes[s].work.left;
      CreateKeepsApart(st.rows, ds, d, suffix, done);
      CreateKeepsWork(st.rows, ds, d, left, suffix, done);
      ActorStep(st, s, CreateOne(st.rows, d, suffix, done), Creating(d, left - 1), ds, ttl, e);
    case Delete(s, done) =>
      assert Acts(st.clock, st.passes, s, ttl, e);
      var d, victims := st.passes[s].work.d, st.passes[s].work.victims;
      DeleteKeepsApart(st.rows, ds, d, victims[0], done);
      DeleteKeepsWork(st.rows, ds, d, victims, done);
      ActorStep(st, s, RemoveOne(st.rows, d, victims[0], done), Deleting(d, victims[1..]), ds, ttl, e);
    case _ => OtherStep(st, step, st', ds, ttl, e);
  }

  /** One step moves no count away from its target or past it. */
  lemma StepMovesBetween(st: State, step: Step, st': State, ds: set<Deployment>, ttl: nat, e: nat, d: Deployment)
    requires Inv(st, ds, ttl, e) && Next(st, step, st', ds, ttl, e) && d in ds
    requires TimelyBy(st, step, ttl, e, 0) && DrawsFresh(st, step)
    ensures Between(Count(st'.rows, d), Count(st.rows, d), Target(d))
  {
    match step
    case Create(s, suffix, done) =>
      assert Acts(st.clock, st.passes, s, ttl, e);
      var f := st.passes[s].work.d;
      CreateCounts(st.rows, f, suffix, done, d);
      assert f.uid == d.uid ==> f == d || Apart(st.rows, f, d);
    case Delete(s, done) =>
      assert Acts(st.clock, st.passes, s, ttl, e);
      var f, v := st.passes[s].work.d, st.passes[s].work.victims[0];
      assert IsOwned(st.rows, f, v);
      assert f == d || Apart(st.rows, f, d);
      DeleteCounts(st.rows, f, v, done, d);
    case Place(rows) => PlaceCounts(st.rows, rows, d);
    case _ =>
  }

  lemma {:induction false} InvHolds(states: seq<State>, steps: seq<Step>, ds: set<Deployment>, ttl: nat, e: nat, i: nat)
    requires IsRun(states, steps, ds, ttl, e, 0) && i <= |steps|
    requires UniqueKeys(states[0].rows) && OneOwner(states[0].rows, ds)
    ensures Inv(states[i], ds, ttl, e)
  {
    if i > 0 {
      InvHolds(states, steps, ds, ttl, e, i - 1);
      assert IsStep(states[i - 1], steps[i - 1], states[i], ds, ttl, e, 0);
      InvStep(states[i - 1], steps[i - 1], states[i], ds, ttl, e);
    }
  }

  lemma BetweenAgain(c: nat, b: nat, a: nat, target: nat)
    requires Between(b, a, target) && Between(c, b, target)
    ensures Between(c, a, target)
  {
  }

  /** In every run of any number of masters over any deployments: from any moment
      on, each count stays between what it was and its target. */
  lemma {:induction false} NoOvershoot(states: seq<State>, steps: seq<Step>, ds: set<Deployment>, ttl: nat, e: nat,
                                       d: Deployment, i: nat, j: nat)
    requires IsRun(states, steps, ds, ttl, e, 0) && i <= j <= |steps| && d in ds
    requires UniqueKeys(states[0].rows) && OneOwner(states[0].rows, ds)
    ensures Between(Count(states[j].rows, d), Count(states[i].rows, d), Target(d))
    decreases j
  {
    if i < j {
      NoOvershoot(states, steps, ds, ttl, e, d, i, j - 1);
      InvHolds(states, steps, ds, ttl, e, j - 1);
      assert IsStep(states[j - 1], steps[j - 1], states[j], ds, ttl, e, 0);
      StepMovesBetween(states[j - 1], steps[j - 1], states[j], ds, ttl, e, d);
      BetweenAgain(Count(states[j].rows, d), Count(states[j - 1].rows, d), Count(states[i].rows, d), Target(d));
    }
  }

  // ---------------------------------------------------------------------
  // The deadline is needed
  // ---------------------------------------------------------------------

  /** A run and the step after it. */
  lemma Extends(states: seq<State>, steps: seq<Step>, step: Step, st': State, ds: set<Deployment>, ttl: nat, e: nat,
                slack: nat)
    requires IsRun(states, steps, ds, ttl, e, slack)
    requires IsStep(states[|steps|], step, st', ds, ttl, e, slack)
    ensures IsRun(states + [st'], steps + [step], ds, ttl, e, slack)
  {
    var states', steps' := states + [st'], steps + [step];
    forall i | 0 <= i < |steps'|
      ensures IsStep(states'[i], steps'[i], states'[i + 1], ds, ttl, e, slack)
    {
      if i < |steps| {
        assert IsStep(states[i], steps[i], states[i + 1], ds, ttl, e, slack);
      }
    }
  }

  /** A server whose clock reads `now` finds the lease free and acquires it. */
  lemma TakeLease(st: State, s: string, now: nat, ds: set<Deployment>, ttl: nat, e: nat, slack: nat)
    returns (st': State)
    requires UniqueKeys(st.rows) && s !in st.passes && Near(now, st.clock, e)
    requires LEASE_NAME in st.lease ==> st.lease[LEASE_NAME].expires < now
    ensures IsStep(st, Acquire(s, now, st.clock, Answered), st', ds, ttl, e, slack)
    ensures st' == State(st.clock, st.lease[LEASE_NAME := Row(s, now + ttl)], st.rows,
                         st.passes[s := Pass(now, st.clock, Nothing)])
  {
    st' := State(st.clock, st.lease[LEASE_NAME := Row(s, now + ttl)], st.rows,
                 st.passes[s := Pass(now, st.clock, Nothing)]);
  }

  /** And lists, while its deadline is ahead. */
  lemma TakeTurn(states: seq<State>, steps: seq<Step>, s: string, now: nat, d: Deployment, ds: set<Deployment>,
                 ttl: nat, e: nat, slack: nat)
    returns (states': seq<State>, steps': seq<Step>)
    requires IsRun(states, steps, ds, ttl, e, slack) && d in ds && 2 * e <= ttl
    requires
      var st := states[|steps|];
      UniqueKeys(st.rows) && s !in st.passes && Near(now, st.clock, e) &&
      (LEASE_NAME in st.lease ==> st.lease[LEASE_NAME].expires < now)
    ensures IsRun(states', steps', ds, ttl, e, slack) && |steps'| == |steps| + 2 && states'[0] == states[0]
    ensures
      var st := states[|steps|];
      states'[|steps'|] == State(st.clock, st.lease[LEASE_NAME := Row(s, now + ttl)], st.rows,
                                 st.passes[s := Pass(now, st.clock, Plan(st.rows, d))])
  {
    var st := states[|steps|];
    var mid := TakeLease(st, s, now, ds, ttl, e, slack);
    Extends(states, steps, Acquire(s, now, st.clock, Answered), mid, ds, ttl, e, slack);
    states', steps' := states + [mid], steps + [Acquire(s, now, st.clock, Answered)];
    var end := Resume(mid, s, mid.rows, Plan(mid.rows, d));
    Extends(states', steps', List(s, d), end, ds, ttl, e, slack);
    states', steps' := states' + [end], steps' + [List(s, d)];
  }

  /** The one create a pass has left, not too late after its deadline. */
  lemma CreateLast(states: seq<State>, steps: seq<Step>, s: string, suffix: string, d: Deployment,
                   ds: set<Deployment>, ttl: nat, e: nat, slack: nat)
    returns (states': seq<State>, steps': seq<Step>)
    requires IsRun(states, steps, ds, ttl, e, slack)
    requires
      var st := states[|steps|];
      UniqueKeys(st.rows) && s in st.passes && st.passes[s].work == Creating(d, 1) &&
      st.clock <= Deadline(st.passes[s], ttl, e) + slack &&
      !Present(st.rows, d.namespace, GeneratedName(d.name, suffix))
    ensures IsRun(states', steps', ds, ttl, e, slack) && |steps'| == |steps| + 1 && states'[0] == states[0]
    ensures
      var st := states[|steps|];
      states'[|steps'|] == Resume(st, s, CreateOne(st.rows, d, suffix, true), Creating(d, 0))
  {
    var st := states[|steps|];
    var st' := Resume(st, s, CreateOne(st.rows, d, suffix, true), Creating(d, 0));
    Extends(states, steps, Create(s, suffix, true), st', ds, ttl, e, slack);
    states', steps' := states + [st'], steps + [Create(s, suffix, true)];
  }

  /** The first server lists; its lease runs out. */
  lemma EarlyTurn(rows: seq<Pod>, d: Deployment, ds: set<Deployment>, ttl: nat, e: nat, slack: nat, a: string)
    returns (states: seq<State>, steps: seq<Step>)
    requires UniqueKeys(rows) && d in ds && Count(rows, d) + 1 == Target(d) && 2 * e <= ttl
    ensures IsRun(states, steps, ds, ttl, e, slack) && |steps| == 3 && states[0].rows == rows
    ensures
      states[3] == State(ttl - e + 1, map[LEASE_NAME := Row(a, ttl)], rows, map[a := Pass(0, e, Creating(d, 1))])
  {
    states, steps := [State(e, map[], rows, map[])], [];
    states, steps := TakeTurn(states, steps, a, 0, d, ds, ttl, e, slack);
    var st' := states[2].(clock := ttl - e + 1);
    Extends(states, steps, Wait(ttl - e + 1), st', ds, ttl, e, slack);
    states, steps := states + [st'], steps + [Wait(ttl - e + 1)];
  }

  /** The created pods are counted, and the second name is still unused after the
      first create. */
  lemma TwoCreates(rows: seq<Pod>, d: Deployment, x: string, y: string)
    requires UniqueKeys(rows) && x != y && SelectsItsTemplate(d)
    requires !Present(rows, d.namespace, GeneratedName(d.name, x)) &&
      !Present(rows, d.namespace, GeneratedName(d.name, y))
    ensures
      var once := CreateOne(rows, d, x, true);
      UniqueKeys(once) && !Present(once, d.namespace, GeneratedName(d.name, y)) &&
      Count(CreateOne(once, d, y, true), d) == Count(rows, d) + 2
  {
    SuffixDecidesName(d.name, x, y);
    PutRow(rows, NewPod(d, x), d.namespace, GeneratedName(d.name, y));
    PutFreshCounts(rows, NewPod(d, x), p => Counts(d, p));
    PutFreshCounts(Put(rows, NewPod(d, x)), NewPod(d, y), p => Counts(d, p));
  }

  /** With any later deadline a deployment that lacks one pod can end up with one too
      many: the first server's clock is `e` slow, the second's `e` fast. */
  lemma LatePassOvershoots(rows: seq<Pod>, d: Deployment, ds: set<Deployment>, ttl: nat, e: nat, slack: nat,
                           a: string, b: string, x: string, y: string)
    returns (states: seq<State>, steps: seq<Step>)
    requires UniqueKeys(rows) && d in ds && Count(rows, d) + 1 == Target(d) && SelectsItsTemplate(d)
    requires a != b && x != y && slack > 0 && 2 * e <= ttl
    requires !Present(rows, d.namespace, GeneratedName(d.name, x)) &&
      !Present(rows, d.namespace, GeneratedName(d.name, y))
    ensures IsRun(states, steps, ds, ttl, e, slack) && states[0].rows == rows
    ensures |steps| == 7 && Count(states[7].rows, d) == Target(d) + 1
  {
    TwoCreates(rows, d, x, y);
    states, steps := EarlyTurn(rows, d, ds, ttl, e, slack, a);
    states, steps := TakeTurn(states, steps, b, ttl + 1, d, ds, ttl, e, slack);
    states, steps := CreateLast(states, steps, b, x, d, ds, ttl, e, slack);
    states, steps := CreateLast(states, steps, a, y, d, ds, ttl, e, slack);
  }

  // ---------------------------------------------------------------------
  // The machine and the reconciler
  // ---------------------------------------------------------------------

  lemma {:induction false} DeletesOfPrefix(rows: seq<Pod>, namespace: string, victims: seq<Pod>, env: Env, m: nat,
                                           n: nat)
    requires UniqueKeys(rows) && n <= m <= |victims|
    ensures DeletePods(rows, namespace, victims[..m], env, n) == DeletePods(rows, namespace, victims, env, n)
  {
    if n > 0 {
      DeletesOfPrefix(rows, namespace, victims, env, m, n - 1);
    }
  }

  predicate CreatesNext(rows: seq<Pod>, d: Deployment, env: Env, n: nat)
    requires UniqueKeys(rows)
  {
    var before := CreatePods(rows, d, env, n);
    CreatePods(rows, d, env, n + 1) == CreateOne(before, d, env.suffix(n), env.ok(n))
  }

  predicate DeletesNext(rows: seq<Pod>, d: Deployment, victims: seq<Pod>, env: Env, n: nat)
    requires UniqueKeys(rows) && n < |victims|
  {
    var before := DeletePods(rows, d.namespace, victims, env, n);
    DeletePods(rows, d.namespace, victims, env, n + 1) == RemoveOne(before, d, victims[n], env.ok(n))
  }

  /** A listing's plan, performed to the end with nothing in between, is the
      reconciler's pass; each creation and deletion is the machine's. */
  lemma PlanIsReconcile(rows: seq<Pod>, d: Deployment, env: Env)
    requires UniqueKeys(rows) && env.listed
    ensures
      var w := Plan(rows, d);
      (w.Creating? || w.Deleting?) && w.d == d &&
      (w.Creating? ==> Reconcile(rows, d, env) == CreatePods(rows, d, env, w.left)) &&
      (w.Deleting? ==> Reconcile(rows, d, env) == DeletePods(rows, d.namespace, w.victims, env, |w.victims|))
    ensures forall n: nat :: CreatesNext(rows, d, env, n)
    ensures forall victims: seq<Pod>, n: nat | n < |victims| :: DeletesNext(rows, d, victims, env, n)
  {
    if Count(rows, d) >= Target(d) {
      DeletesOfPrefix(rows, d.namespace, OwnedPods(rows, d), env, Count(rows, d) - Target(d),
                      Count(rows, d) - Target(d));
    }
  }
}
