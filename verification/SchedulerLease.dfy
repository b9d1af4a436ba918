/** What the scheduler lease buys. Masters acquire the lease, list unscheduled
    pods and bind them one unconditional UPDATE at a time, all interleaved;
    no pod that a scheduler bound is ever bound again, provided every pass
    takes its steps within TTL - 2e of the clock reading it acquired with. */
module SchedulerLease {
  import opened Wrappers
  import opened Lease
  import opened LeasedPasses

  /** The pods a pass has yet to place. */
  type Batch = seq<string>

  /** `pods` holds every pod's node_name column. */
  datatype State = State(
    clock: int, lease: map<string, Row>, pods: map<string, Option<string>>, passes: map<string, Pass<Batch>>)

  datatype Step =
    | Wait(until: int)
    | Acquire(server: string, now: nat, read: int, fate: Fate)
    | List(server: string, batch: seq<string>)
    | Bind(server: string, node: string)
    | Skip(server: string)
    | Finish(server: string)
    | Create(pod: string)
    | Delete(pod: string)
    | Reset(pod: string)

  const LEASE_NAME: string := "scheduler"

  predicate NoDuplicates(s: seq<string>) {
    forall i, j | 0 <= i < j < |s| :: s[i] != s[j]
  }

  /** `bind_to_node`: an UPDATE that overwrites node_name wherever it finds the
      row, and touches nothing when the row is gone. */
  function BindToNode(pods: map<string, Option<string>>, pod: string, node: string): map<string, Option<string>> {
    if pod in pods then pods[pod := Some(node)] else pods
  }

  /** One step of the cluster. A server runs one pass at a time and reads its
      clock before the UPSERT executes; Step.List selects unbound pods, each
      once; pods are created unbound. `Reset` is an upsert over an existing row
      whose object names no node, such as a controller's create after a failed
      read, a failed delete or under a name in use. */
  ghost predicate Next(st: State, step: Step, st': State, ttl: nat, e: nat) {
    match step
    case Wait(until) => st.clock <= until && st' == st.(clock := until)
    case Acquire(s, now, read, fate) =>
      st' == st.(lease := st'.lease, passes := st'.passes) &&
      Acquires(st.clock, st.lease, st.passes, LEASE_NAME, s, now, read, fate, [], st'.lease, st'.passes, ttl, e)
    case List(s, batch) =>
      s in st.passes && NoDuplicates(batch) &&
      (forall p | p in batch :: p in st.pods && st.pods[p].None?) &&
      st' == st.(passes := st.passes[s := st.passes[s].(work := batch)])
    case Bind(s, node) =>
      s in st.passes && st.passes[s].work != [] &&
      st' == st.(pods := BindToNode(st.pods, st.passes[s].work[0], node),
                 passes := st.passes[s := st.passes[s].(work := st.passes[s].work[1..])])
    case Skip(s) =>
      s in st.passes && st.passes[s].work != [] &&
      st' == st.(passes := st.passes[s := st.passes[s].(work := st.passes[s].work[1..])])
    case Finish(s) => s in st.passes && st' == st.(passes := st.passes - {s})
    case Create(p) => p !in st.pods && st' == st.(pods := st.pods[p := None])
    case Delete(p) => st' == st.(pods := st.pods - {p})
    case Reset(p) => p in st.pods && st' == st.(pods := st.pods[p := None])
  }

  /** The premise: a pass lists and binds only before its deadline, or `slack`
      after it. */
  predicate TimelyBy(st: State, step: Step, ttl: nat, e: nat, slack: nat) {
    match step
    case List(s, _) => s in st.passes ==> st.clock <= Deadline(st.passes[s], ttl, e) + slack
    case Bind(s, _) => s in st.passes ==> st.clock <= Deadline(st.passes[s], ttl, e) + slack
    case _ => true
  }

  predicate Timely(st: State, step: Step, ttl: nat, e: nat) {
    TimelyBy(st, step, ttl, e, 0)
  }

  /** The step overwrites the node of a pod that already has one. */
  predicate Rebinds(st: State, step: Step) {
    step.Bind? && step.server in st.passes && st.passes[step.server].work != [] &&
    var pod := st.passes[step.server].work[0];
    pod in st.pods && st.pods[pod].Some?
  }

  ghost predicate IsRun(states: seq<State>, steps: seq<Step>, ttl: nat, e: nat) {
    |states| == |steps| + 1 &&
    states[0].passes == map[] &&
    forall i | 0 <= i < |steps| :: Next(states[i], steps[i], states[i + 1], ttl, e)
  }

  ghost predicate AllTimely(states: seq<State>, steps: seq<Step>, ttl: nat, e: nat)
    requires |states| == |steps| + 1
  {
    forall i | 0 <= i < |steps| :: Timely(states[i], steps[i], ttl, e)
  }

  /** What is left of a batch, each pod once, is still unbound. */
  predicate Waiting(batch: Batch, pods: map<string, Option<string>>) {
    NoDuplicates(batch) && forall pod | pod in batch && pod in pods :: pods[pod].None?
  }

  /** A pass that may still act holds the lease, and everything left in its
      batch is still unbound. */
  ghost predicate Inv(st: State, ttl: nat, e: nat) {
    AllHold(st.clock, st.lease, st.passes, LEASE_NAME, ttl, e) &&
    forall s | Acts(st.clock, st.passes, s, ttl, e) :: Waiting(st.passes[s].work, st.pods)
  }

  lemma InvAcquire(st: State, s: string, now: nat, read: int, fate: Fate, st': State, ttl: nat, e: nat)
    requires Inv(st, ttl, e) && Next(st, Acquire(s, now, read, fate), st', ttl, e)
    ensures Inv(st', ttl, e)
  {
    AcquireKeepsHolding(st.clock, st.lease, st.passes, LEASE_NAME, s, now, read, fate, [], st'.lease, st'.passes, ttl,
                        e);
    forall q | Acts(st'.clock, st'.passes, q, ttl, e)
      ensures Waiting(st'.passes[q].work, st'.pods)
    {
      assert q in st.passes ==> Acts(st.clock, st.passes, q, ttl, e);
    }
  }

  lemma InvBind(st: State, s: string, node: string, st': State, ttl: nat, e: nat)
    requires Inv(st, ttl, e) && Next(st, Bind(s, node), st', ttl, e) && Timely(st, Bind(s, node), ttl, e)
    ensures Inv(st', ttl, e)
  {
    var batch := st.passes[s].work;
    assert Acts(st.clock, st.passes, s, ttl, e);
    assert forall p | p in batch[1..] :: p != batch[0] && p in batch;
    forall q | Acts(st'.clock, st'.passes, q, ttl, e)
      ensures Holds(st'.lease, LEASE_NAME, q, st'.passes[q], ttl, e) && Waiting(st'.passes[q].work, st'.pods)
    {
      assert Acts(st.clock, st.passes, q, ttl, e);
      OneActs(st.clock, st.lease, st.passes, LEASE_NAME, ttl, e, s, q);
    }
  }

  /** A step that binds nothing and starts no pass. */
  lemma InvOther(st: State, step: Step, st': State, ttl: nat, e: nat)
    requires Inv(st, ttl, e) && Next(st, step, st', ttl, e) && Timely(st, step, ttl, e)
    requires !step.Acquire? && !step.Bind?
    ensures Inv(st', ttl, e)
  {
    forall q | Acts(st'.clock, st'.passes, q, ttl, e)
      ensures Holds(st'.lease, LEASE_NAME, q, st'.passes[q], ttl, e) && Waiting(st'.passes[q].work, st'.pods)
    {
      assert Acts(st.clock, st.passes, q, ttl, e);
      if step.Skip? && step.server == q {
        var batch := st.passes[q].work;
        assert forall p | p in batch[1..] :: p in batch;
      }
    }
  }

  lemma InvStep(st: State, step: Step, st': State, ttl: nat, e: nat)
    requires Inv(st, ttl, e) && Next(st, step, st', ttl, e) && Timely(st, step, ttl, e)
    ensures Inv(st', ttl, e)
  {
    match step
    case Acquire(s, now, read, fate) => InvAcquire(st, s, now, read, fate, st', ttl, e);
    case Bind(s, node) => InvBind(st, s, node, st', ttl, e);
    case _ => InvOther(st, step, st', ttl, e);
  }

  lemma {:induction false} InvHolds(states: seq<State>, steps: seq<Step>, ttl: nat, e: nat, i: nat)
    requires IsRun(states, steps, ttl, e) && AllTimely(states, steps, ttl, e) && i <= |steps|
    ensures Inv(states[i], ttl, e)
  {
    if i > 0 {
      InvHolds(states, steps, ttl, e, i - 1);
      InvStep(states[i - 1], steps[i - 1], states[i], ttl, e);
    }
  }

  /** The unconditional UPDATE never lands on a pod that already has a node. */
  lemma NoRebinding(states: seq<State>, steps: seq<Step>, ttl: nat, e: nat, i: nat)
    requires IsRun(states, steps, ttl, e) && AllTimely(states, steps, ttl, e)
    requires i < |steps|
    ensures !Rebinds(states[i], steps[i])
  {
    InvHolds(states, steps, ttl, e, i);
  }

  /** A step that keeps a bound pod's row keeps its node if and only if it does not
      reset the row. */
  lemma NodeKeptIff(states: seq<State>, steps: seq<Step>, ttl: nat, e: nat, pod: string, i: nat)
    requires IsRun(states, steps, ttl, e) && AllTimely(states, steps, ttl, e) && i < |steps|
    requires pod in states[i].pods && states[i].pods[pod].Some? && pod in states[i + 1].pods
    ensures states[i + 1].pods[pod] == states[i].pods[pod] <==> steps[i] != Reset(pod)
  {
    NoRebinding(states, steps, ttl, e, i);
    assert Next(states[i], steps[i], states[i + 1], ttl, e);
  }

  /** So a bound pod keeps its node for as long as it exists and nobody resets it. */
  lemma {:induction false} BoundPodsKeepTheirNode(states: seq<State>, steps: seq<Step>, ttl: nat, e: nat, pod: string,
                                                  i: nat, j: nat)
    requires IsRun(states, steps, ttl, e) && AllTimely(states, steps, ttl, e) && i <= j <= |steps|
    requires forall k | i <= k <= j :: pod in states[k].pods
    requires forall k | i <= k < j :: steps[k] != Reset(pod)
    requires states[i].pods[pod].Some?
    ensures states[j].pods[pod] == states[i].pods[pod]
    decreases j
  {
    if i < j {
      BoundPodsKeepTheirNode(states, steps, ttl, e, pod, i, j - 1);
      NodeKeptIff(states, steps, ttl, e, pod, j - 1);
    }
  }

  /** At most one pass may act at any time. */
  lemma OnePassActs(states: seq<State>, steps: seq<Step>, ttl: nat, e: nat, i: nat, s: string, t: string)
    requires IsRun(states, steps, ttl, e) && AllTimely(states, steps, ttl, e) && i <= |steps|
    requires Acts(states[i].clock, states[i].passes, s, ttl, e) && Acts(states[i].clock, states[i].passes, t, ttl, e)
    ensures s == t
  {
    InvHolds(states, steps, ttl, e, i);
    OneActs(states[i].clock, states[i].lease, states[i].passes, LEASE_NAME, ttl, e, s, t);
  }

  // ---------------------------------------------------------------------
  // The deadline cannot be later
  // ---------------------------------------------------------------------

  /** A server whose clock reads `now` finds the lease free, acquires it and
      lists `pod`. */
  lemma TakeTurn(st: State, s: string, now: nat, pod: string, ttl: nat, e: nat) returns (mid: State, st': State)
    requires s !in st.passes && Near(now, st.clock, e) && pod in st.pods && st.pods[pod].None?
    requires LEASE_NAME in st.lease ==> st.lease[LEASE_NAME].expires < now
    ensures Next(st, Acquire(s, now, st.clock, Answered), mid, ttl, e)
    ensures Next(mid, List(s, [pod]), st', ttl, e)
    ensures mid.clock == st.clock && s in mid.passes && mid.passes[s].read == st.clock
    ensures st'.clock == st.clock && st'.pods == st.pods
    ensures LEASE_NAME in st'.lease && st'.lease[LEASE_NAME].expires == now + ttl
    ensures st'.passes == st.passes[s := Pass(now, st.clock, [pod])]
  {
    mid := st.(lease := Upsert(st.lease, LEASE_NAME, s, now, now + ttl).0,
               passes := st.passes[s := Pass(now, st.clock, [])]);
    st' := mid.(passes := mid.passes[s := mid.passes[s].(work := [pod])]);
  }

  lemma BindHead(st: State, s: string, node: string, ttl: nat, e: nat) returns (st': State)
    requires s in st.passes && st.passes[s].work != []
    ensures Next(st, Bind(s, node), st', ttl, e)
    ensures st'.pods == BindToNode(st.pods, st.passes[s].work[0], node) && st'.clock == st.clock
    ensures forall t | t in st.passes && t != s :: t in st'.passes && st'.passes[t] == st.passes[t]
  {
    st' := st.(pods := BindToNode(st.pods, st.passes[s].work[0], node),
               passes := st.passes[s := st.passes[s].(work := st.passes[s].work[1..])]);
  }

  /** The premise with a deadline `slack` later. */
  ghost predicate AllTimelyBy(states: seq<State>, steps: seq<Step>, ttl: nat, e: nat, slack: nat)
    requires |states| == |steps| + 1
  {
    forall i | 0 <= i < |steps| :: TimelyBy(states[i], steps[i], ttl, e, slack)
  }

  /** The first server acquires and lists; the lease then runs out. */
  lemma EarlyTurn(ttl: nat, e: nat, a: string, pod: string) returns (s0: State, s1: State, s2: State, s3: State)
    requires 2 * e <= ttl
    ensures s0.passes == map[]
    ensures Next(s0, Acquire(a, 0, e, Answered), s1, ttl, e) && Next(s1, List(a, [pod]), s2, ttl, e)
    ensures Next(s2, Wait(ttl - e + 1), s3, ttl, e)
    ensures a in s1.passes && s1.clock == e && s1.passes[a].read == e
    ensures s3.clock == ttl - e + 1 && s3.pods == map[pod := None] && s3.passes == map[a := Pass(0, e, [pod])]
    ensures LEASE_NAME in s3.lease && s3.lease[LEASE_NAME].expires == ttl
  {
    s0 := State(e, map[], map[pod := None], map[]);
    s1, s2 := TakeTurn(s0, a, 0, pod, ttl, e);
    s3 := s2.(clock := ttl - e + 1);
  }

  /** The second server acquires, lists and binds; then the first one binds. */
  lemma LateTurn(s3: State, ttl: nat, e: nat, a: string, b: string, pod: string)
    returns (s4: State, s5: State, s6: State, s7: State)
    requires a != b && 2 * e <= ttl && s3.clock == ttl - e + 1
    requires s3.pods == map[pod := None] && s3.passes == map[a := Pass(0, e, [pod])]
    requires LEASE_NAME in s3.lease && s3.lease[LEASE_NAME].expires == ttl
    ensures Next(s3, Acquire(b, ttl + 1, ttl - e + 1, Answered), s4, ttl, e) && Next(s4, List(b, [pod]), s5, ttl, e)
    ensures Next(s5, Bind(b, "n2"), s6, ttl, e) && Next(s6, Bind(a, "n1"), s7, ttl, e)
    ensures b in s4.passes && b in s5.passes && s4.passes[b].read == s4.clock && s5.passes[b].read == s5.clock
    ensures a in s6.passes && s6.passes[a] == Pass(0, e, [pod]) && s6.clock == ttl - e + 1
    ensures Rebinds(s6, Bind(a, "n1"))
  {
    s4, s5 := TakeTurn(s3, b, ttl + 1, pod, ttl, e);
    s6 := BindHead(s5, b, "n2", ttl, e);
    s7 := BindHead(s6, a, "n1", ttl, e);
  }

  /** The allowance TTL - 2e is the largest one: for every TTL and every skew it
      covers, a later deadline admits a run in which a pass moves a pod that its
      successor has placed. The first server's clock is `e` slow, the second's
      `e` fast. */
  lemma DeadlineIsTight(ttl: nat, e: nat, slack: nat, a: string, b: string, pod: string)
    returns (states: seq<State>, steps: seq<Step>)
    requires a != b && slack > 0 && 2 * e <= ttl
    ensures IsRun(states, steps, ttl, e) && AllTimelyBy(states, steps, ttl, e, slack)
    ensures |steps| == 7 && Rebinds(states[6], steps[6])
  {
    var s0, s1, s2, s3 := EarlyTurn(ttl, e, a, pod);
    var s4, s5, s6, s7 := LateTurn(s3, ttl, e, a, b, pod);
    states := [s0, s1, s2, s3, s4, s5, s6, s7];
    steps := [Acquire(a, 0, e, Answered), List(a, [pod]), Wait(ttl - e + 1), Acquire(b, ttl + 1, ttl - e + 1, Answered),
              List(b, [pod]), Bind(b, "n2"), Bind(a, "n1")];
  }
}
