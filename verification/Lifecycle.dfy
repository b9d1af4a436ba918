/** Containers on a node: creation, restart, removal and detached teardowns,
    step by step between their await points, over the address allocator. Taking a
    network down is best-effort: a failed teardown leaves it standing, and the
    address is released all the same. */
module Lifecycle {
  import opened Wrappers
  import opened Ipam

  /** A teardown under way; `net` is the octet of a container that has a network. */
  datatype Teardown =
    | Stopping(net: Option<nat>)    // network teardown not issued yet
    | NetworkDown(net: Option<nat>) // issued, address not yet released
    | Cleaning                      // released; bundle and log remain

  /** The one create call in progress: calls take the runtime exclusively. */
  datatype Call =
    | Idle
    | Awaiting(name: string)                      // for a detached teardown of this name
    | Replacing(name: string, previous: Teardown) // tearing down the previous instance
    | Pulling(name: string)
    | Allocating(name: string)
    | Wiring(name: string, octet: nat)
    | Building(name: string, net: Option<nat>)
    | Unwiring(name: string, net: Option<nat>)  // build failed, teardown not issued yet
    | Releasing(name: string, net: Option<nat>) // issued, address not yet released

  /** `containers` maps a name to its octet. `networks` lists the pod network
      namespaces that exist, by name, with the octet their setup was for; a setup
      replaces a leftover of its name, and otherwise no code of the runtime reads
      them. */
  datatype State = State(
    ipam: Leases, containers: map<string, Option<nat>>, detached: map<string, Teardown>,
    call: Call, networks: map<string, nat>)

  /** What a setup that fails leaves under the name: nothing, what was there
      before, or a network it could not take back. */
  datatype Leftover = Nothing | Stale | HalfBuilt

  /** The outcome of a step's foreign calls. */
  datatype Outcome = Done | Failed(left: Leftover)

  datatype Step =
    | Create(name: string)
    | Remove(name: string)
    | Continue(outcome: Outcome)
    | TeardownStep(name: string, outcome: Outcome)

  function Start(): State {
    State(Leases(map[], {GATEWAY}), map[], map[], Idle, map[])
  }

  /** Stop the container and take its network down, if it has one. */
  function TakeDown(st: State, name: string, net: Option<nat>, outcome: Outcome): State {
    if net.Some? && outcome.Done? then st.(networks := st.networks - {name}) else st
  }

  function Release(st: State, name: string): State {
    st.(ipam := AfterRelease(st.ipam, name))
  }

  function LeftBehind(networks: map<string, nat>, name: string, octet: nat, left: Leftover): map<string, nat> {
    match left
    case Nothing => networks - {name}
    case Stale => networks
    case HalfBuilt => networks[name := octet]
  }

  /** Clear what an earlier instance left, then build; a failure gives the address
      back and goes on without a network. */
  function SetUp(st: State, name: string, octet: nat, outcome: Outcome): State {
    match outcome
    case Done => st.(networks := st.networks[name := octet], call := Building(name, Some(octet)))
    case Failed(left) =>
      Release(st, name).(networks := LeftBehind(st.networks, name, octet, left), call := Building(name, None))
  }

  /** One step of a teardown: its effect on the state, and what is left of it. */
  function Advance(st: State, name: string, t: Teardown, outcome: Outcome): (State, Option<Teardown>) {
    match t
    case Stopping(net) => (TakeDown(st, name, net, outcome), Some(NetworkDown(net)))
    case NetworkDown(net) => (Release(st, name), Some(Cleaning))
    case Cleaning => (st, None)
  }

  /** The create call up to its next await point. */
  function ContinueCall(st: State, outcome: Outcome): State {
    match st.call
    case Idle => st
    case Awaiting(name) =>
      if name in st.detached then st
      else if name in st.containers then
        st.(containers := st.containers - {name}, call := Replacing(name, Stopping(st.containers[name])))
      else st.(call := Pulling(name))
    case Replacing(name, previous) =>
      var (after, rest) := Advance(st, name, previous, outcome);
      after.(call := if rest.Some? then Replacing(name, rest.value) else Pulling(name))
    case Pulling(name) => st.(call := if outcome.Done? then Allocating(name) else Idle)
    case Allocating(name) =>
      var o := Granted(st.ipam, name);
      st.(ipam := AfterAllocate(st.ipam, name), call := if o.Some? then Wiring(name, o.value) else Idle)
    case Wiring(name, octet) => SetUp(st, name, octet, outcome)
    case Building(name, net) =>
      if outcome.Done? then st.(containers := st.containers[name := net], call := Idle)
      else st.(call := Unwiring(name, net))
    case Unwiring(name, net) => TakeDown(st, name, net, outcome).(call := Releasing(name, net))
    case Releasing(name, net) => Release(st, name).(call := Idle)
  }

  function TeardownMove(st: State, name: string, outcome: Outcome): State {
    if name !in st.detached then st
    else
      var (after, rest) := Advance(st, name, st.detached[name], outcome);
      after.(detached := if rest.Some? then st.detached[name := rest.value] else st.detached - {name})
  }

  /** A step that is not enabled changes nothing. */
  function Apply(st: State, step: Step): State {
    match step
    case Create(name) => if st.call.Idle? then st.(call := Awaiting(name)) else st
    case Remove(name) =>
      if !st.call.Idle? || name !in st.containers then st
      else st.(containers := st.containers - {name}, detached := st.detached[name := Stopping(st.containers[name])])
    case Continue(outcome) => ContinueCall(st, outcome)
    case TeardownStep(name, outcome) => TeardownMove(st, name, outcome)
  }

  function Run(st: State, steps: seq<Step>, n: nat): State
    requires n <= |steps|
  {
    if n == 0 then st else Apply(Run(st, steps, n - 1), steps[n - 1])
  }

  /** The state a history of steps leads to. */
  function After(steps: seq<Step>): State {
    Run(Start(), steps, |steps|)
  }

  // ---------------------------------------------------------------------
  // What a history says of one name's network
  // ---------------------------------------------------------------------

  /** `Up`: the last setup succeeded and no teardown was issued since. `Left`: a
      teardown was issued and failed. `Stray`: what failed to go, or what a failed
      setup left, outlived the release of its address. `Clear`: none of these. */
  datatype Trail = Clear | Up | Left | Stray

  /** The phase of a teardown whose next step concerns this name's network. */
  function TeardownOf(st: State, step: Step, name: string): Option<Teardown> {
    match step
    case TeardownStep(n, _) => if n == name && n in st.detached then Some(st.detached[n]) else None
    case Continue(_) =>
      (match st.call
       case Replacing(n, previous) => if n == name then Some(previous) else None
       case Unwiring(n, net) => if n == name then Some(Stopping(net)) else None
       case Releasing(n, net) => if n == name then Some(NetworkDown(net)) else None
       case _ => None)
    case _ => None
  }

  predicate SettingUp(st: State, name: string) {
    st.call.Wiring? && st.call.name == name
  }

  function AfterSetUp(t: Trail, outcome: Outcome): Trail {
    match outcome
    case Done => Up
    case Failed(Nothing) => Clear
    case Failed(Stale) => t
    case Failed(HalfBuilt) => Stray
  }

  function AfterTeardown(t: Trail, phase: Teardown, outcome: Outcome): Trail {
    match phase
    case Stopping(net) => if net.None? then t else if outcome.Done? then Clear else Left
    case NetworkDown(_) => if t == Left then Stray else t
    case Cleaning => t
  }

  /** What one step does to the trail of a name. */
  function Mark(st: State, step: Step, name: string, t: Trail): Trail {
    if step.Continue? && SettingUp(st, name) then AfterSetUp(t, step.outcome)
    else
      var phase := TeardownOf(st, step, name);
      if phase.Some? then AfterTeardown(t, phase.value, step.outcome) else t
  }

  function TrailAt(steps: seq<Step>, n: nat, name: string): Trail
    requires n <= |steps|
  {
    if n == 0 then Clear else Mark(Run(Start(), steps, n - 1), steps[n - 1], name, TrailAt(steps, n - 1, name))
  }

  function TrailOf(steps: seq<Step>, name: string): Trail {
    TrailAt(steps, |steps|, name)
  }

  // ---------------------------------------------------------------------
  // Who holds an address
  // ---------------------------------------------------------------------

  function HeldInTeardown(t: Teardown): Option<nat> {
    if t.Cleaning? then None else t.net
  }

  /** The call works on this name, past waiting for its predecessor. */
  predicate Busy(call: Call, name: string) {
    !call.Idle? && !call.Awaiting? && call.name == name
  }

  function HeldInCall(call: Call): Option<nat> {
    match call
    case Replacing(_, previous) => HeldInTeardown(previous)
    case Wiring(_, octet) => Some(octet)
    case Building(_, net) => net
    case Unwiring(_, net) => net
    case Releasing(_, net) => net
    case _ => None
  }

  /** The octet of a name that is live, being created, or being torn down. */
  function Held(st: State, name: string): Option<nat> {
    if Busy(st.call, name) then HeldInCall(st.call)
    else if name in st.containers then st.containers[name]
    else if name in st.detached then HeldInTeardown(st.detached[name])
    else None
  }

  function Leased(s: Leases, name: string): Option<nat> {
    if name in s.byPod then Some(s.byPod[name]) else None
  }

  /** Whether the name's last setup succeeded and its teardown is still to be issued. */
  predicate Wired(st: State, name: string) {
    if Busy(st.call, name) then
      match st.call
      case Replacing(_, previous) => previous.Stopping? && previous.net.Some?
      case Building(_, net) => net.Some?
      case Unwiring(_, net) => net.Some?
      case _ => false
    else if name in st.containers then st.containers[name].Some?
    else name in st.detached && st.detached[name].Stopping? && st.detached[name].net.Some?
  }

  /** A name is in at most one place. */
  predicate OnePlace(st: State, name: string) {
    !(name in st.containers && name in st.detached) &&
    (Busy(st.call, name) ==> name !in st.containers && name !in st.detached)
  }

  /** A network exists unless the trail is clear. While it is up, or its teardown
      failed and its address is not released, the address is its own; a stray one
      has none, but for the address of the setup about to replace it. */
  predicate NetworkOk(st: State, name: string, t: Trail) {
    (t == Up <==> Wired(st, name)) && (name in st.networks <==> t != Clear) &&
    (t == Up || t == Left ==> Held(st, name) == Some(st.networks[name]) && !SettingUp(st, name)) &&
    (t == Stray ==> Held(st, name).None? || SettingUp(st, name))
  }

  /** And leases are exactly what is held. */
  predicate NameOk(st: State, name: string, t: Trail) {
    OnePlace(st, name) && Leased(st.ipam, name) == Held(st, name) && NetworkOk(st, name, t)
  }

  predicate Kept(st: State, step: Step, name: string, t: Trail) {
    NameOk(Apply(st, step), name, Mark(st, step, name, t))
  }

  // ---------------------------------------------------------------------
  // Steps of the call, for the name it works on
  // ---------------------------------------------------------------------

  lemma ReleaseLeases(s: Leases, pod: string, name: string)
    ensures Leased(AfterRelease(s, pod), name) == if name == pod then None else Leased(s, name)
  {
  }

  lemma AllocateLeases(s: Leases, pod: string, name: string)
    ensures Leased(AfterAllocate(s, pod), name) == if name == pod then Granted(s, pod) else Leased(s, name)
  {
  }

  lemma AwaitKeeps(st: State, o: Outcome, t: Trail)
    requires (st.call.Awaiting? || st.call.Pulling? || st.call.Building?) && NameOk(st, st.call.name, t)
    ensures Kept(st, Continue(o), st.call.name, t)
  {
  }

  lemma ReplaceKeeps(st: State, o: Outcome, t: Trail)
    requires st.call.Replacing? && NameOk(st, st.call.name, t)
    ensures Kept(st, Continue(o), st.call.name, t)
  {
    ReleaseLeases(st.ipam, st.call.name, st.call.name);
  }

  lemma AllocateKeeps(st: State, o: Outcome, t: Trail)
    requires st.call.Allocating? && NameOk(st, st.call.name, t)
    ensures Kept(st, Continue(o), st.call.name, t)
  {
    AllocateLeases(st.ipam, st.call.name, st.call.name);
  }

  lemma SetUpKeeps(st: State, o: Outcome, t: Trail)
    requires st.call.Wiring? && NameOk(st, st.call.name, t)
    ensures Kept(st, Continue(o), st.call.name, t)
  {
    ReleaseLeases(st.ipam, st.call.name, st.call.name);
  }

  lemma UndoKeeps(st: State, o: Outcome, t: Trail)
    requires (st.call.Unwiring? || st.call.Releasing?) && NameOk(st, st.call.name, t)
    ensures Kept(st, Continue(o), st.call.name, t)
  {
    ReleaseLeases(st.ipam, st.call.name, st.call.name);
  }

  lemma OwnKeeps(st: State, o: Outcome, t: Trail)
    requires !st.call.Idle? && NameOk(st, st.call.name, t)
    ensures Kept(st, Continue(o), st.call.name, t)
  {
    match st.call
    case Awaiting(_) => AwaitKeeps(st, o, t);
    case Replacing(_, _) => ReplaceKeeps(st, o, t);
    case Pulling(_) => AwaitKeeps(st, o, t);
    case Allocating(_) => AllocateKeeps(st, o, t);
    case Wiring(_, _) => SetUpKeeps(st, o, t);
    case Building(_, _) => AwaitKeeps(st, o, t);
    case Unwiring(_, _) => UndoKeeps(st, o, t);
    case Releasing(_, _) => UndoKeeps(st, o, t);
  }

  // ---------------------------------------------------------------------
  // Steps that leave a name alone
  // ---------------------------------------------------------------------

  /** Nothing about the name differs. */
  predicate SamePlace(st: State, after: State, name: string) {
    Leased(after.ipam, name) == Leased(st.ipam, name) && !Busy(st.call, name) && !Busy(after.call, name) &&
    (name in after.containers <==> name in st.containers) &&
    (name in st.containers && name in after.containers ==> after.containers[name] == st.containers[name]) &&
    (name in after.detached <==> name in st.detached) &&
    (name in st.detached && name in after.detached ==> after.detached[name] == st.detached[name]) &&
    (name in after.networks <==> name in st.networks) &&
    (name in st.networks && name in after.networks ==> after.networks[name] == st.networks[name])
  }

  lemma SamePlaceOk(st: State, after: State, name: string, t: Trail)
    requires NameOk(st, name, t) && SamePlace(st, after, name)
    ensures NameOk(after, name, t)
  {
  }

  /** The allocator's state after at most one of its operations for `n`. */
  predicate Moved(s: Leases, s': Leases, n: string) {
    s' == s || s' == AfterRelease(s, n) || s' == AfterAllocate(s, n)
  }

  lemma ContinueMoves(st: State, o: Outcome)
    requires !st.call.Idle?
    ensures Moved(st.ipam, ContinueCall(st, o).ipam, st.call.name)
  {
    var s, after, n := st.ipam, ContinueCall(st, o).ipam, st.call.name;
    match st.call
    case Allocating(_) => assert after == AfterAllocate(s, n);
    case Replacing(_, previous) => assert after == if previous.NetworkDown? then AfterRelease(s, n) else s;
    case Wiring(_, _) => assert after == if o.Done? then s else AfterRelease(s, n);
    case Releasing(_, _) => assert after == AfterRelease(s, n);
    case Idle =>
    case _ => assert after == s;
  }

  lemma MovedLeases(s: Leases, s': Leases, n: string, name: string)
    requires Moved(s, s', n) && name != n
    ensures Leased(s', name) == Leased(s, name)
  {
    ReleaseLeases(s, n, name);
    AllocateLeases(s, n, name);
  }

  lemma ContinueNames(st: State, o: Outcome)
    requires !st.call.Idle?
    ensures
      var call := ContinueCall(st, o).call;
      call.Idle? || call.name == st.call.name
  {
  }

  lemma ContinueElsewhere(st: State, o: Outcome, name: string)
    requires !st.call.Idle? && st.call.name != name
    ensures SamePlace(st, ContinueCall(st, o), name)
  {
    ContinueNames(st, o);
    ContinueMoves(st, o);
    MovedLeases(st.ipam, ContinueCall(st, o).ipam, st.call.name, name);
  }

  lemma TeardownElsewhere(st: State, n: string, o: Outcome, name: string)
    requires n != name && !Busy(st.call, name)
    ensures SamePlace(st, TeardownMove(st, n, o), name)
  {
    ReleaseLeases(st.ipam, n, name);
  }

  /** A teardown beside a call that works on the name. */
  lemma TeardownBesideCall(st: State, n: string, o: Outcome, name: string, t: Trail)
    requires n != name && Busy(st.call, name) && NameOk(st, name, t)
    ensures NameOk(TeardownMove(st, n, o), name, t)
  {
    ReleaseLeases(st.ipam, n, name);
  }

  lemma TeardownOwn(st: State, n: string, o: Outcome, t: Trail)
    requires NameOk(st, n, t)
    ensures Kept(st, TeardownStep(n, o), n, t)
  {
    ReleaseLeases(st.ipam, n, n);
  }

  lemma MovedOk(s: Leases, s': Leases, n: string)
    requires Moved(s, s', n) && LeasesOk(s)
    ensures LeasesOk(s')
  {
    ReleaseOk(s, n);
    AllocateOk(s, n);
  }

  lemma TeardownMoves(st: State, n: string, o: Outcome)
    ensures Moved(st.ipam, TeardownMove(st, n, o).ipam, n)
  {
  }

  lemma StepLeases(st: State, step: Step)
    requires LeasesOk(st.ipam)
    ensures LeasesOk(Apply(st, step).ipam)
  {
    match step
    case TeardownStep(n, o) =>
      TeardownMoves(st, n, o);
      MovedOk(st.ipam, Apply(st, step).ipam, n);
    case Continue(o) =>
      if !st.call.Idle? {
        ContinueMoves(st, o);
        MovedOk(st.ipam, Apply(st, step).ipam, st.call.name);
      }
    case _ =>
  }

  /** Every step keeps leases equal to what is held, and every name's network where
      its trail says. */
  lemma StepKeeps(st: State, step: Step, name: string, t: Trail)
    requires NameOk(st, name, t)
    ensures Kept(st, step, name, t)
  {
    match step
    case Create(_) =>
    case Remove(_) =>
    case Continue(o) =>
      if !st.call.Idle? {
        if st.call.name == name {
          OwnKeeps(st, o, t);
        } else {
          ContinueElsewhere(st, o, name);
          SamePlaceOk(st, ContinueCall(st, o), name, t);
        }
      }
    case TeardownStep(n, o) =>
      if n == name {
        TeardownOwn(st, n, o, t);
      } else if Busy(st.call, name) {
        TeardownBesideCall(st, n, o, name, t);
      } else {
        TeardownElsewhere(st, n, o, name);
        SamePlaceOk(st, TeardownMove(st, n, o), name, t);
      }
  }

  lemma {:induction false} RunKeeps(steps: seq<Step>, n: nat, name: string)
    requires n <= |steps|
    ensures LeasesOk(Run(Start(), steps, n).ipam) && NameOk(Run(Start(), steps, n), name, TrailAt(steps, n, name))
  {
    if n > 0 {
      RunKeeps(steps, n - 1, name);
      StepLeases(Run(Start(), steps, n - 1), steps[n - 1]);
      StepKeeps(Run(Start(), steps, n - 1), steps[n - 1], name, TrailAt(steps, n - 1, name));
    }
  }

  // ---------------------------------------------------------------------
  // What every run guarantees
  // ---------------------------------------------------------------------

  /** Taken is the gateway and what is held, and no two names hold one octet. */
  ghost predicate AddressesSafe(st: State) {
    (forall o :: o in st.ipam.taken <==> o == GATEWAY || exists name :: Held(st, name) == Some(o)) &&
    (forall m, n | Held(st, m).Some? && Held(st, m) == Held(st, n) :: m == n)
  }

  lemma LeasedIsHeld(steps: seq<Step>)
    ensures forall name :: Leased(After(steps).ipam, name) == Held(After(steps), name)
    ensures LeasesOk(After(steps).ipam)
  {
    RunKeeps(steps, |steps|, "");
    forall name
      ensures Leased(After(steps).ipam, name) == Held(After(steps), name)
    {
      RunKeeps(steps, |steps|, name);
    }
  }

  lemma SafeIfLeased(st: State)
    requires LeasesOk(st.ipam) && forall name :: Leased(st.ipam, name) == Held(st, name)
    ensures AddressesSafe(st)
  {
    forall o
      ensures o in st.ipam.taken <==> o == GATEWAY || exists name :: Held(st, name) == Some(o)
    {
      if p :| p in st.ipam.byPod && st.ipam.byPod[p] == o {
        assert Held(st, p) == Some(o);
      }
      if p :| Held(st, p) == Some(o) {
        assert Leased(st.ipam, p) == Some(o);
      }
    }
  }

  /** In every run of creations, restarts, removals and detached teardowns, with
      any of their steps failing, teardowns of networks included. */
  lemma AddressesAlwaysSafe(steps: seq<Step>)
    ensures AddressesSafe(After(steps))
  {
    LeasedIsHeld(steps);
    SafeIfLeased(After(steps));
  }

  /** A network without a lease, or with none but that of the setup about to
      replace it, exists if and only if a failed teardown of its name was followed
      by the release, or a setup failed to take its work back, and no setup or
      teardown of the name has cleared it since. Every other network has its own
      address leased to its name. */
  lemma StrayIff(steps: seq<Step>, name: string)
    ensures
      var st := After(steps);
      name in st.networks && (name !in st.ipam.byPod || SettingUp(st, name)) <==> TrailOf(steps, name) == Stray
    ensures
      var st := After(steps);
      name in st.networks && TrailOf(steps, name) != Stray ==> Leased(st.ipam, name) == Some(st.networks[name])
  {
    RunKeeps(steps, |steps|, name);
  }

  lemma WiredStaysHeld(st: State, step: Step, name: string)
    requires Wired(st, name) && OnePlace(st, name)
    ensures Held(Apply(st, step), name).Some?
  {
    match step
    case Continue(_) =>
      match st.call {
        case Wiring(_, _) =>
        case _ =>
      }
    case _ =>
  }

  /** An address is released only after the teardown of its network was issued, and
      the network outlives it exactly if that failed, or if the address goes back
      because a setup did. */
  lemma ReleasedAfterTeardown(steps: seq<Step>, step: Step, name: string)
    ensures
      var st, t := After(steps), TrailOf(steps, name);
      name in st.ipam.byPod && name !in Apply(st, step).ipam.byPod ==>
        t != Up && (name in Apply(st, step).networks <==> Mark(st, step, name, t) == Stray)
  {
    var st, t := After(steps), TrailOf(steps, name);
    RunKeeps(steps, |steps|, name);
    StepKeeps(st, step, name, t);
    if t == Up {
      WiredStaysHeld(st, step, name);
    }
  }

  /** Two networks have one octet only if one of them is stray. */
  lemma SharedOctetMeansStray(steps: seq<Step>, m: string, n: string)
    requires m != n && m in After(steps).networks && n in After(steps).networks
    requires After(steps).networks[m] == After(steps).networks[n]
    ensures TrailOf(steps, m) == Stray || TrailOf(steps, n) == Stray
  {
    StrayIff(steps, m);
    StrayIff(steps, n);
    LeasedIsHeld(steps);
  }

  lemma {:induction false} RunConcat(st: State, a: seq<Step>, b: seq<Step>, n: nat)
    requires n <= |b|
    ensures Run(st, a + b, |a| + n) == Run(Run(st, a, |a|), b, n)
  {
    if n > 0 {
      RunConcat(st, a, b, n - 1);
    } else {
      RunPrefix(st, a, b, |a|);
    }
  }

  lemma {:induction false} RunPrefix(st: State, a: seq<Step>, b: seq<Step>, n: nat)
    requires n <= |a|
    ensures Run(st, a + b, n) == Run(st, a, n)
  {
    if n > 0 {
      RunPrefix(st, a, b, n - 1);
    }
  }

  /** A creation in which nothing fails. */
  function Creating(name: string): seq<Step> {
    [Create(name), Continue(Done), Continue(Done), Continue(Done), Continue(Done), Continue(Done)]
  }

  lemma CreatingAdds(st: State, name: string, o: nat)
    requires st.call.Idle? && name !in st.containers && name !in st.detached && Granted(st.ipam, name) == Some(o)
    ensures Run(st, Creating(name), 6)
         == st.(ipam := AfterAllocate(st.ipam, name), networks := st.networks[name := o],
                containers := st.containers[name := Some(o)])
  {
    var steps := Creating(name);
    assert Run(st, steps, 1) == st.(call := Awaiting(name));
    assert Run(st, steps, 2) == st.(call := Pulling(name));
    assert Run(st, steps, 3) == st.(call := Allocating(name));
    assert Run(st, steps, 4) == st.(ipam := AfterAllocate(st.ipam, name), call := Wiring(name, o));
  }

  /** A name of which nothing is left, and the address it would get. */
  ghost predicate Fresh(st: State, name: string, octet: nat) {
    LeasesOk(st.ipam) && st.call.Idle? && name !in st.containers && name !in st.detached &&
    name !in st.ipam.byPod && Granted(st.ipam, name) == Some(octet)
  }

  /** The image does not come. */
  lemma PullFails(st: State, name: string, o: Outcome, left: Leftover)
    requires st.call.Idle? && name !in st.containers && name !in st.detached
    ensures Run(st, [Create(name), Continue(o), Continue(Failed(left))], 3) == st
  {
    var steps := [Create(name), Continue(o), Continue(Failed(left))];
    assert Run(st, steps, 1) == st.(call := Awaiting(name));
    assert Run(st, steps, 2) == st.(call := Pulling(name));
  }

  /** Pulled, but no address is free. */
  lemma AllocationFails(st: State, name: string, o: Outcome, o': Outcome)
    requires st.call.Idle? && name !in st.containers && name !in st.detached && Granted(st.ipam, name).None?
    ensures Run(st, [Create(name), Continue(o), Continue(Done), Continue(o')], 4) == st
  {
    var steps := [Create(name), Continue(o), Continue(Done), Continue(o')];
    assert Run(st, steps, 1) == st.(call := Awaiting(name));
    assert Run(st, steps, 2) == st.(call := Pulling(name));
    assert Run(st, steps, 3) == st.(call := Allocating(name));
  }

  /** A creation up to the outcome of the network setup. */
  function SettingUpWith(name: string, o: Outcome, o': Outcome, setup: Outcome): seq<Step> {
    [Create(name), Continue(o), Continue(Done), Continue(o'), Continue(setup)]
  }

  lemma SetsUp(st: State, name: string, octet: nat, o: Outcome, o': Outcome, setup: Outcome)
    requires st.call.Idle? && name !in st.containers && name !in st.detached && Granted(st.ipam, name) == Some(octet)
    ensures Run(st, SettingUpWith(name, o, o', setup), 5)
         == SetUp(st.(ipam := AfterAllocate(st.ipam, name), call := Wiring(name, octet)), name, octet, setup)
  {
    var steps := SettingUpWith(name, o, o', setup);
    assert Run(st, steps, 1) == st.(call := Awaiting(name));
    assert Run(st, steps, 2) == st.(call := Pulling(name));
    assert Run(st, steps, 3) == st.(call := Allocating(name));
    assert Run(st, steps, 4) == st.(ipam := AfterAllocate(st.ipam, name), call := Wiring(name, octet));
  }

  lemma GivenBack(s: Leases, name: string)
    requires LeasesOk(s) && name !in s.byPod && Granted(s, name).Some?
    ensures AfterRelease(AfterAllocate(s, name), name) == s
  {
    AllocateIsStable(s, name);
  }

  /** A fresh creation up to the end of its setup, which failed: the address is free
      again. */
  lemma SetUpGivesBack(st: State, name: string, octet: nat, o: Outcome, o': Outcome, left: Leftover)
    requires Fresh(st, name, octet)
    ensures Run(st, SettingUpWith(name, o, o', Failed(left)), 5)
         == st.(networks := LeftBehind(st.networks, name, octet, left), call := Building(name, None))
  {
    SetsUp(st, name, octet, o, o', Failed(left));
    GivenBack(st.ipam, name);
  }

  /** The network cannot be set up: the container runs without one, and its address
      is free again. */
  lemma SetupFails(st: State, name: string, octet: nat, o: Outcome, o': Outcome, left: Leftover)
    requires Fresh(st, name, octet)
    ensures
      var end := Run(st, SettingUpWith(name, o, o', Failed(left)) + [Continue(Done)], 6);
      end == st.(containers := st.containers[name := None], networks := end.networks) &&
      (left == Nothing ==> end.networks == st.networks - {name}) &&
      (left == Stale ==> end.networks == st.networks) &&
      (left == HalfBuilt ==> end.networks == st.networks[name := octet])
  {
    SetUpGivesBack(st, name, octet, o, o', left);
    RunConcat(st, SettingUpWith(name, o, o', Failed(left)), [Continue(Done)], 1);
    var wired := st.(networks := LeftBehind(st.networks, name, octet, left), call := Building(name, None));
    assert Run(wired, [Continue(Done)], 1) == wired.(containers := st.containers[name := None], call := Idle);
  }

  /** The container cannot be built or started. */
  function Undone(left: Leftover, down: Outcome, end: Outcome): seq<Step> {
    [Continue(Failed(left)), Continue(down), Continue(end)]
  }

  lemma BuildUndone(st: State, steps: seq<Step>, mid: State, left: Leftover, down: Outcome, end: Outcome)
    requires Run(st, steps, |steps|) == mid && mid.call.Building?
    ensures
      Run(st, steps + Undone(left, down, end), |steps| + 3)
        == Release(TakeDown(mid, mid.call.name, mid.call.net, down), mid.call.name).(call := Idle)
  {
    var name, net := mid.call.name, mid.call.net;
    RunConcat(st, steps, Undone(left, down, end), 3);
    assert Run(mid, Undone(left, down, end), 1) == mid.(call := Unwiring(name, net));
    assert Run(mid, Undone(left, down, end), 2) == TakeDown(mid, name, net, down).(call := Releasing(name, net));
  }

  /** And if then the container cannot be built either, nothing is left of it. */
  lemma SetupAndBuildFail(st: State, name: string, octet: nat, o: Outcome, o': Outcome, left: Leftover, down: Outcome,
                          end: Outcome)
    requires Fresh(st, name, octet)
    ensures Run(st, SettingUpWith(name, o, o', Failed(Nothing)) + Undone(left, down, end), 8)
         == st.(networks := st.networks - {name})
  {
    SetUpGivesBack(st, name, octet, o, o', Nothing);
    var mid := st.(networks := st.networks - {name}, call := Building(name, None));
    BuildUndone(st, SettingUpWith(name, o, o', Failed(Nothing)), mid, left, down, end);
  }

  /** The container cannot be built or started: the network is taken down and the
      address given back; of a teardown that fails the network remains. */
  lemma BuildFails(st: State, name: string, octet: nat, o: Outcome, o': Outcome, left: Leftover, down: Outcome,
                   end: Outcome)
    requires Fresh(st, name, octet)
    ensures
      Run(st, SettingUpWith(name, o, o', Done) + Undone(left, down, end), 8)
        == st.(networks := if down == Done then st.networks - {name} else st.networks[name := octet])
  {
    SetsUp(st, name, octet, o, o', Done);
    var up := st.(ipam := AfterAllocate(st.ipam, name), networks := st.networks[name := octet],
                  call := Building(name, Some(octet)));
    BuildUndone(st, SettingUpWith(name, o, o', Done), up, left, down, end);
    GivenBack(st.ipam, name);
    assert st.networks[name := octet] - {name} == st.networks - {name};
  }

  /** A name that is live makes way first: its network goes, if it has one, then its
      address, and only then the new image is pulled. */
  lemma Replaces(st: State, name: string, o: Outcome, down: Outcome, o': Outcome, end: Outcome)
    requires st.call.Idle? && name in st.containers && name !in st.detached
    ensures
      Run(st, [Create(name), Continue(o), Continue(down), Continue(o'), Continue(end)], 5)
        == st.(containers := st.containers - {name}, ipam := AfterRelease(st.ipam, name), call := Pulling(name),
               networks := if st.containers[name].Some? && down == Done then st.networks - {name} else st.networks)
  {
    var steps := [Create(name), Continue(o), Continue(down), Continue(o'), Continue(end)];
    var gone := st.(containers := st.containers - {name});
    var net := st.containers[name];
    var downed := TakeDown(gone, name, net, down);
    assert Run(st, steps, 1) == st.(call := Awaiting(name));
    assert Run(st, steps, 2) == gone.(call := Replacing(name, Stopping(net)));
    assert Run(st, steps, 3) == downed.(call := Replacing(name, NetworkDown(net)));
    assert Run(st, steps, 4) == Release(downed, name).(call := Replacing(name, Cleaning));
  }

  /** A removal goes on beside any call; at its end nothing of the name is left, but
      for a network that would not go. */
  lemma Removes(st: State, name: string, down: Outcome, o: Outcome, end: Outcome)
    requires st.call.Idle? && name in st.containers && name !in st.detached
    ensures
      Run(st, [Remove(name), TeardownStep(name, down), TeardownStep(name, o), TeardownStep(name, end)], 4)
        == st.(containers := st.containers - {name}, ipam := AfterRelease(st.ipam, name),
               networks := if st.containers[name].Some? && down == Done then st.networks - {name} else st.networks)
  {
    var steps := [Remove(name), TeardownStep(name, down), TeardownStep(name, o), TeardownStep(name, end)];
    var gone := st.(containers := st.containers - {name});
    var net := st.containers[name];
    var downed := TakeDown(gone, name, net, down);
    assert Run(st, steps, 1) == gone.(detached := st.detached[name := Stopping(net)]);
    assert Run(st, steps, 2) == downed.(detached := st.detached[name := NetworkDown(net)]);
    assert Run(st, steps, 3) == Release(downed, name).(detached := st.detached[name := Cleaning]);
    assert st.detached[name := Cleaning] - {name} == st.detached;
  }

  /** A container is recorded by the step that has built it, and by no other, with
      the network its setup left it. */
  lemma RecordedWhenBuilt(st: State, step: Step, name: string)
    ensures
      var after := Apply(st, step);
      name in after.containers && (name in st.containers ==> after.containers[name] != st.containers[name]) ==>
        st.call == Building(name, after.containers[name]) && step == Continue(Done)
    ensures st.call.Building? && st.call.name == name && step == Continue(Done) ==>
        name in Apply(st, step).containers && Apply(st, step).containers[name] == st.call.net
  {
    match step
    case Continue(o) =>
      match st.call {
        case Building(_, _) =>
        case _ =>
      }
    case _ =>
  }

  /** In every run a creation ends with its container recorded, or with nothing of
      the name recorded or leased; and it is recorded exactly if it was built. */
  lemma CreationEnds(steps: seq<Step>, step: Step)
    requires !After(steps).call.Idle? && Apply(After(steps), step).call.Idle?
    ensures
      var st, end := After(steps), Apply(After(steps), step);
      step.Continue? && st.call.name !in end.detached &&
      (st.call.name in end.containers <==> st.call.Building? && step == Continue(Done)) &&
      (st.call.name !in end.containers ==> st.call.name !in end.ipam.byPod)
  {
    var st, name := After(steps), After(steps).call.name;
    RunKeeps(steps, |steps|, name);
    StepKeeps(st, step, name, TrailOf(steps, name));
    match st.call
    case Building(_, _) =>
    case _ =>
  }

  /** A removal whose network teardown fails. */
  function Removing(name: string): seq<Step> {
    [Remove(name), TeardownStep(name, Failed(Nothing)), TeardownStep(name, Done), TeardownStep(name, Done)]
  }

  /** And then they can: a pod is removed, its network stays, and the next pod to be
      created gets its address. */
  lemma StrayShares(a: string, b: string) returns (steps: seq<Step>)
    requires a != b
    ensures
      var st := After(steps);
      a in st.networks && b in st.networks && st.networks[a] == st.networks[b] && st.containers == map[b := Some(FIRST)]
  {
    var first := Creating(a) + Removing(a);
    steps := first + Creating(b);
    CreatingAdds(Start(), a, FIRST);
    var up := Run(Start(), Creating(a), 6);
    Removes(up, a, Failed(Nothing), Done, Done);
    RunConcat(Start(), Creating(a), Removing(a), 4);
    var left := Run(Start(), first, 10);
    assert left == Start().(networks := map[a := FIRST]) by {
      AllocateIsStable(Start().ipam, a);
      assert up.containers - {a} == map[];
    }
    CreatingAdds(left, b, FIRST);
    RunConcat(Start(), first, Creating(b), 6);
  }

  /** A creation fails for want of an address only when names that are live, being
      created or torn down hold all of 2..=254. */
  lemma AllocationFailsOnlyWhenFull(steps: seq<Step>, o: Outcome)
    requires After(steps).call.Allocating? && Apply(After(steps), Continue(o)).call.Idle?
    ensures forall o: nat | Allocatable(o) :: exists name :: Held(After(steps), name) == Some(o)
  {
    LeasedIsHeld(steps);
    var st := After(steps);
    ExhaustedMeans(st.ipam, st.call.name);
    forall o: nat | Allocatable(o)
      ensures exists name :: Held(st, name) == Some(o)
    {
      var p :| p in st.ipam.byPod && st.ipam.byPod[p] == o;
      assert Held(st, p) == Leased(st.ipam, p);
    }
  }

  /** At rest, the addresses taken are those of the live networked containers. */
  lemma AtRest(steps: seq<Step>, o: nat)
    requires After(steps).call.Idle? && After(steps).detached == map[]
    ensures
      var st := After(steps);
      o in st.ipam.taken <==> o == GATEWAY || exists name :: name in st.containers && st.containers[name] == Some(o)
  {
    var st := After(steps);
    AddressesAlwaysSafe(steps);
    if name :| Held(st, name) == Some(o) {
      assert name in st.containers && st.containers[name] == Some(o);
    }
    if name :| name in st.containers && st.containers[name] == Some(o) {
      assert Held(st, name) == Some(o);
    }
  }
}
