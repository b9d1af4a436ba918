/** The replicated change feed: local broadcast, the `change_log` table,
    notifications, and the listener that republishes what peers wrote. */
module WatchBus {
  import opened Sequences
  import opened Text
  import opened Timestamp
  import opened Wrappers

  datatype Verb = Added | Modified | Deleted

  /** `body` stands for the serialized object. */
  datatype Event = Event(kind: string, namespace: Option<string>, name: string, verb: Verb, body: string)

  /** A change_log row; `created` is the `created_at` column, as its text or as the
      instant it prints. */
  datatype Row<T> = Row(
    instance: nat, kind: string, namespace: Option<string>, name: string, eventType: string, body: string, created: T)

  function AsWire(v: Verb): string {
    match v
    case Added => "ADDED"
    case Modified => "MODIFIED"
    case Deleted => "DELETED"
  }

  function FromWire(s: string): Option<Verb> {
    if s == "ADDED" then Some(Added)
    else if s == "MODIFIED" then Some(Modified)
    else if s == "DELETED" then Some(Deleted)
    else None
  }

  /** The kinds the listener maps back. */
  predicate Known(kind: string) {
    kind in {
      "Pod", "Service", "Node", "Namespace", "ConfigMap", "Secret", "ServiceAccount", "Deployment", "StatefulSet",
      "DaemonSet", "Role", "RoleBinding", "ClusterRole", "ClusterRoleBinding"}
  }

  function RowOf<T>(instance: nat, e: Event, created: T): Row<T> {
    Row(instance, e.kind, e.namespace, e.name, AsWire(e.verb), e.body, created)
  }

  /** What the listener of `instance` republishes for a fetched row, if anything. */
  function Republished<T>(instance: nat, row: Row<T>): Option<Event> {
    if row.instance == instance then None
    else
      var verb := FromWire(row.eventType);
      if verb.None? || !Known(row.kind) then None
      else Some(Event(row.kind, row.namespace, row.name, verb.value, row.body))
  }

  /** A peer decodes exactly the published event, if its kind is known; the
      origin ignores its own row. */
  lemma RowRoundTrip<T>(origin: nat, e: Event, created: T, instance: nat)
    ensures Republished(instance, RowOf(origin, e, created))
         == if instance != origin && Known(e.kind) then Some(e) else None
  {
    assert "ADDED"[0] != "MODIFIED"[0] && "ADDED"[0] != "DELETED"[0] && "MODIFIED"[0] != "DELETED"[0];
  }

  /** The kinds the handlers and the controllers publish changes of. */
  predicate IsPublished(kind: string) {
    kind in ["Pod", "Service", "Node", "Namespace", "ConfigMap", "Secret", "ServiceAccount", "Deployment",
             "StatefulSet", "DaemonSet", "Role", "RoleBinding", "ClusterRole", "ClusterRoleBinding"]
  }

  /** A peer's row of any of them is republished for what it says; a row of another
      kind, or with another word for the verb, is not. */
  lemma PublishedKindsDecode(origin: nat, e: Event, word: string, created: nat, instance: nat)
    requires instance != origin
    ensures
      var said := Republished(instance, Row(origin, e.kind, e.namespace, e.name, word, e.body, created));
      (said.Some? <==> IsPublished(e.kind) && word in ["ADDED", "MODIFIED", "DELETED"]) &&
      (said.Some? && word == "ADDED" ==> said.value == e.(verb := Added)) &&
      (said.Some? && word == "MODIFIED" ==> said.value == e.(verb := Modified)) &&
      (said.Some? && word == "DELETED" ==> said.value == e.(verb := Deleted))
  {
    assert "ADDED"[0] != "MODIFIED"[0] && "ADDED"[0] != "DELETED"[0] && "MODIFIED"[0] != "DELETED"[0];
  }

  /** Rows live this long, in nanoseconds: 300 seconds. */
  const TTL: int := 300_000_000_000

  /** DELETE ... WHERE created_at < now - TTL. */
  function PruneRows(rows: map<nat, Row<nat>>, now: nat): map<nat, Row<nat>> {
    FilterMap(rows, (row: Row<nat>) => row.created >= now - TTL)
  }

  /** The same on the stored text. */
  function PruneText(rows: map<nat, Row<string>>, cutoff: string): map<nat, Row<string>> {
    FilterMap(rows, (row: Row<string>) => !TextLess(row.created, cutoff))
  }

  /** A row is pruned once it is more than five minutes old. */
  lemma PrunedWhen(rows: map<nat, Row<nat>>, now: nat, id: nat)
    requires id in rows
    ensures id in PruneRows(rows, now) <==> now - rows[id].created <= 5 * 60 * 1_000_000_000
    ensures id in PruneRows(rows, now) ==> PruneRows(rows, now)[id] == rows[id]
  {
  }

  /** A stored row is the text of a row. */
  predicate Prints(text: Row<string>, row: Row<nat>) {
    text.instance == row.instance && text.kind == row.kind && text.namespace == row.namespace &&
    text.name == row.name &&
    text.eventType == row.eventType && text.body == row.body && IsText(text.created, row.created)
  }

  /** The table. `instants` is its meaning; the statements only touch the text. */
  class ChangeLog {
    var rows: map<nat, Row<string>>
    ghost var instants: map<nat, Row<nat>>

    ghost predicate Valid()
      reads this
    {
      Pointwise(rows, instants, Prints)
    }

    constructor ()
      ensures Valid() && instants == map[]
    {
      rows, instants := map[], map[];
    }

    /** The fresh row id is drawn by the caller; `now` is the origin's clock. */
    method Insert(id: nat, instance: nat, e: Event, now: nat)
      requires Valid() && YearOf(now) <= 9999
      modifies this
      ensures Valid() && instants == old(instants)[id := RowOf(instance, e, now)]
    {
      var row := RowOf(instance, e, ToRfc3339(now));
      PointwiseUpdate(rows, instants, Prints, id, row, RowOf(instance, e, now));
      rows := rows[id := row];
      instants := instants[id := RowOf(instance, e, now)];
    }

    method Fetch(id: nat) returns (row: Option<Row<string>>)
      requires Valid()
      ensures row.Some? <==> id in instants
      ensures row.Some? ==> Prints(row.value, instants[id])
    {
      row := if id in rows then Some(rows[id]) else None;
    }

    /** The comparison is on text; `now` is the pruner's clock. */
    method PruneOlderThan(now: nat) returns (deleted: nat)
      requires Valid() && TTL <= now && YearOf(now) <= 9999
      modifies this
      ensures Valid() && instants == PruneRows(old(instants), now)
      ensures deleted == |old(instants)| - |instants|
    {
      var cutoff := Cutoff(now);
      var kept := PruneText(rows, cutoff);
      PruneAgrees(rows, instants, cutoff, now);
      SubsetSize(kept.Keys, rows.Keys);
      KeySizes(rows, instants);
      deleted := |rows| - |kept|;
      rows, instants := kept, PruneRows(instants, now);
      KeySizes(rows, instants);
    }

    method Cutoff(now: nat) returns (text: string)
      requires TTL <= now && YearOf(now) <= 9999
      ensures IsText(text, now - TTL)
    {
      CivilGrows(now - TTL, now);
      text := ToRfc3339(now - TTL);
    }
  }

  lemma KeySizes<A, B>(m: map<nat, A>, n: map<nat, B>)
    requires m.Keys == n.Keys
    ensures |m| == |n|
  {
    assert |m| == |m.Keys| && |n| == |n.Keys|;
  }

  lemma OlderInText(text: Row<string>, row: Row<nat>, cutoff: string, t: nat)
    requires Prints(text, row) && IsText(cutoff, t)
    ensures TextLess(text.created, cutoff) <==> row.created < t
  {
    TextOrderIsTimeOrder(row.created, t);
  }

  /** The text comparison prunes exactly the rows that are too old. */
  lemma PruneAgrees(rows: map<nat, Row<string>>, instants: map<nat, Row<nat>>, cutoff: string, now: nat)
    requires Pointwise(rows, instants, Prints) && TTL <= now && IsText(cutoff, now - TTL)
    ensures Pointwise(PruneText(rows, cutoff), PruneRows(instants, now), Prints)
  {
    forall text: Row<string>, row: Row<nat> | Prints(text, row)
      ensures !TextLess(text.created, cutoff) <==> row.created >= now - TTL
    {
      OlderInText(text, row, cutoff, now - TTL);
    }
    PointwiseFilter(rows, instants, Prints, (row: Row<string>) => !TextLess(row.created, cutoff),
                    (row: Row<nat>) => row.created >= now - TTL);
  }

  lemma {:induction false} SubsetSize<T>(a: set<T>, b: set<T>)
    requires a <= b
    ensures |a| <= |b|
  {
    if a != {} {
      var x :| x in a;
      SubsetSize(a - {x}, b - {x});
    }
  }

  /** One server's broadcast channel; `sent` is everything sent on it so far. */
  class Bus {
    var sent: seq<Event>

    constructor ()
      ensures sent == []
    {
      sent := [];
    }

    /** The local half of a publication; the caller spawns the replication. */
    method Publish(e: Event)
      modifies this
      ensures sent == old(sent) + [e]
    {
      sent := sent + [e];
    }

    /** The listener's turn for one notification. */
    method HandleNotification(table: ChangeLog, instance: nat, id: nat)
      requires table.Valid()
      modifies this
      ensures sent == old(sent) + Response(table.instants, instance, id)
    {
      var row := table.Fetch(id);
      if row.Some? {
        if row.value.instance == instance {
          return;
        }
        var verb := FromWire(row.value.eventType);
        if verb.None? || !Known(row.value.kind) {
          return;
        }
        sent := sent + [Event(row.value.kind, row.value.namespace, row.value.name, verb.value, row.value.body)];
      }
    }
  }

  /** What a listener adds to its broadcast on a notification. */
  function Response<T>(rows: map<nat, Row<T>>, instance: nat, id: nat): seq<Event> {
    if id !in rows then [] else
      var e := Republished(instance, rows[id]);
      if e.Some? then [e.value] else []
  }

  // ---------------------------------------------------------------------
  // The cluster as a state machine
  // ---------------------------------------------------------------------

  /** How far the replication of a publication has come. */
  datatype Stage = Spawned | Inserted | Notified | Aborted

  datatype Publication = Publication(origin: nat, event: Event)

  /** An event on a server's broadcast, with the publication it stems from. */
  datatype Entry = Entry(id: nat, event: Event)

  /** `missed` and `handled` record, for the statements below, what became of
      the notifications that are no longer queued. */
  datatype Server = Server(log: seq<Entry>, queue: seq<nat>, connected: bool, missed: set<nat>, handled: set<nat>)

  /** `now` is real time; `inserted` records when each row's stamp was read. */
  datatype State = State(
    servers: seq<Server>, pubs: seq<Publication>, stages: seq<Stage>,
    rows: map<nat, Row<nat>>, inserted: map<nat, int>, now: int)

  /** A row is stamped with its origin's `clock`, read at real time `read`; the
      pruner compares with its own server's clock. */
  datatype Step =
    | Publish(s: nat, event: Event)
    | Insert(id: nat, clock: nat, read: int)
    | Notify(id: nat)
    | Abort(id: nat)
    | Receive(s: nat, fetched: bool)
    | Disconnect(s: nat)
    | Connect(s: nat)
    | Prune(clock: nat)
    | Wait(nanos: nat)

  function Initial(n: nat, now: int): State {
    State(seq(n, i => Server([], [], true, {}, {})), [], [], map[], map[], now)
  }

  function Enqueue(v: Server, id: nat): Server {
    if v.connected then v.(queue := v.queue + [id]) else v.(missed := v.missed + {id})
  }

  /** A listener takes the next notification; a failed or empty fetch loses it. */
  function Handle(v: Server, rows: map<nat, Row<nat>>, instance: nat, fetched: bool): Server
    requires v.queue != []
  {
    var id := v.queue[0];
    var rest := v.(queue := v.queue[1..]);
    if !fetched || id !in rows then rest.(missed := v.missed + {id})
    else
      var e := Republished(instance, rows[id]);
      rest.(handled := v.handled + {id}, log := if e.Some? then v.log + [Entry(id, e.value)] else v.log)
  }

  function Elements(q: seq<nat>): set<nat> {
    set i | 0 <= i < |q| :: q[i]
  }

  /** One step; a step that is not enabled changes nothing. */
  function Apply(st: State, step: Step): State {
    match step
    case Publish(s, e) =>
      if s >= |st.servers| then st else
        var v := st.servers[s];
        st.(servers := st.servers[s := v.(log := v.log + [Entry(|st.pubs|, e)])],
            pubs := st.pubs + [Publication(s, e)], stages := st.stages + [Spawned])
    case Insert(id, clock, read) =>
      if id >= |st.stages| || id >= |st.pubs| || st.stages[id] != Spawned then st else
        st.(stages := st.stages[id := Inserted], inserted := st.inserted[id := read],
            rows := st.rows[id := RowOf(st.pubs[id].origin, st.pubs[id].event, clock)])
    case Notify(id) =>
      if id >= |st.stages| || st.stages[id] != Inserted then st else
        st.(stages := st.stages[id := Notified],
            servers := seq(|st.servers|, i requires 0 <= i < |st.servers| => Enqueue(st.servers[i], id)))
    case Abort(id) =>
      if id >= |st.stages| || st.stages[id] == Notified then st else st.(stages := st.stages[id := Aborted])
    case Receive(s, fetched) =>
      if s >= |st.servers| || st.servers[s].queue == [] then st
      else st.(servers := st.servers[s := Handle(st.servers[s], st.rows, s, fetched)])
    case Disconnect(s) =>
      if s >= |st.servers| then st else
        var v := st.servers[s];
        st.(servers := st.servers[s := v.(queue := [], connected := false, missed := v.missed + Elements(v.queue))])
    case Connect(s) =>
      if s >= |st.servers| then st else st.(servers := st.servers[s := st.servers[s].(connected := true)])
    case Prune(clock) =>
      st.(rows := PruneRows(st.rows, clock))
    case Wait(nanos) =>
      st.(now := st.now + nanos)
  }

  /** The state after the first `n` steps. */
  function Run(st: State, steps: seq<Step>, n: nat): State
    requires n <= |steps|
  {
    if n == 0 then st else Apply(Run(st, steps, n - 1), steps[n - 1])
  }

  function Events(log: seq<Entry>): seq<Event> {
    seq(|log|, k requires 0 <= k < |log| => log[k].event)
  }

  /** What a step sends on one server's broadcast: a publication its event, a
      notification what the listener method sends for it, any other step nothing. */
  lemma StepSends(st: State, step: Step, s: nat)
    requires s < |st.servers|
    ensures |Apply(st, step).servers| == |st.servers|
    ensures
      var v := st.servers[s];
      var sent := match step {
        case Publish(o, e) => if o == s then [e] else []
        case Receive(o, fetched) => if o == s && fetched && v.queue != [] then Response(st.rows, s, v.queue[0]) else []
        case _ => []
      };
      Events(Apply(st, step).servers[s].log) == Events(st.servers[s].log) + sent
  {
  }

  // ---------------------------------------------------------------------
  // The invariant
  // ---------------------------------------------------------------------

  predicate Distinct(s: seq<nat>) {
    forall i, j | 0 <= i < j < |s| :: s[i] != s[j]
  }

  predicate IsNotified(stages: seq<Stage>, id: nat) {
    id < |stages| && stages[id] == Notified
  }

  /** Each notified publication is, at each server, queued once, missed or
      handled, and nothing else is. */
  ghost predicate Accounted(stages: seq<Stage>, v: Server, id: nat) {
    (IsNotified(stages, id) <==> id in v.queue || id in v.missed || id in v.handled) &&
    !(id in v.queue && id in v.missed) && !(id in v.queue && id in v.handled) && !(id in v.missed && id in v.handled)
  }

  /** Where a publication belongs on a server's broadcast. */
  predicate Broadcasts(pubs: seq<Publication>, s: nat, v: Server, id: nat) {
    id < |pubs| && (pubs[id].origin == s || (id in v.handled && Known(pubs[id].event.kind)))
  }

  predicate Logged(log: seq<Entry>, id: nat) {
    exists k :: 0 <= k < |log| && log[k].id == id
  }

  predicate OnceEach(log: seq<Entry>) {
    forall j, k | 0 <= j < k < |log| :: log[j].id != log[k].id
  }

  predicate FromPublications(pubs: seq<Publication>, log: seq<Entry>) {
    forall k | 0 <= k < |log| :: log[k].id < |pubs| && log[k].event == pubs[log[k].id].event
  }

  ghost predicate ServerInv(pubs: seq<Publication>, stages: seq<Stage>, s: nat, v: Server) {
    Distinct(v.queue) && (forall id: nat :: Accounted(stages, v, id)) &&
    OnceEach(v.log) && FromPublications(pubs, v.log) &&
    (forall id: nat :: Logged(v.log, id) <==> Broadcasts(pubs, s, v, id))
  }

  /** Rows are those of their publications. */
  ghost predicate TableInv(st: State) {
    |st.stages| == |st.pubs| &&
    (forall id: nat :: id in st.inserted ==> id < |st.pubs|) &&
    (forall id: nat | id in st.rows ::
      id in st.inserted && id < |st.pubs| &&
      st.rows[id] == RowOf(st.pubs[id].origin, st.pubs[id].event, st.rows[id].created)) &&
    (forall id: nat | id < |st.stages| :: st.stages[id] == Spawned ==> id !in st.inserted) &&
    (forall id: nat | id < |st.stages| :: st.stages[id] == Inserted || st.stages[id] == Notified ==> id in st.inserted)
  }

  ghost predicate ServerOk(st: State, s: nat)
    requires s < |st.servers|
  {
    ServerInv(st.pubs, st.stages, s, st.servers[s])
  }

  ghost predicate Inv(st: State) {
    TableInv(st) && forall s | 0 <= s < |st.servers| :: ServerOk(st, s)
  }

  lemma InitialInv(n: nat, now: int)
    ensures Inv(Initial(n, now))
  {
  }

  lemma LoggedAppend(log: seq<Entry>, e: Entry, id: nat)
    ensures Logged(log + [e], id) <==> Logged(log, id) || e.id == id
  {
    var r := log + [e];
    assert r[|log|] == e;
    if k :| 0 <= k < |log| && log[k].id == id {
      assert r[k].id == id;
    }
  }

  /** A publication shows on its origin's broadcast at once. */
  lemma PublishOrigin(pubs: seq<Publication>, stages: seq<Stage>, s: nat, v: Server, e: Event)
    requires |stages| == |pubs| && ServerInv(pubs, stages, s, v)
    ensures ServerInv(pubs + [Publication(s, e)], stages + [Spawned], s, v.(log := v.log + [Entry(|pubs|, e)]))
  {
    var w := v.(log := v.log + [Entry(|pubs|, e)]);
    var pubs', stages' := pubs + [Publication(s, e)], stages + [Spawned];
    forall id: nat
      ensures Accounted(stages', w, id)
      ensures Logged(w.log, id) <==> Broadcasts(pubs', s, w, id)
    {
      assert Accounted(stages, v, id);
      assert Logged(v.log, id) <==> Broadcasts(pubs, s, v, id);
      LoggedAppend(v.log, Entry(|pubs|, e), id);
    }
  }

  lemma PublishElsewhere(pubs: seq<Publication>, stages: seq<Stage>, s: nat, v: Server, p: Publication)
    requires |stages| == |pubs| && ServerInv(pubs, stages, s, v) && p.origin != s
    ensures ServerInv(pubs + [p], stages + [Spawned], s, v)
  {
    forall id: nat
      ensures Accounted(stages + [Spawned], v, id)
      ensures Logged(v.log, id) <==> Broadcasts(pubs + [p], s, v, id)
    {
      assert Accounted(stages, v, id);
      assert Logged(v.log, id) <==> Broadcasts(pubs, s, v, id);
    }
  }

  lemma StageMoves(pubs: seq<Publication>, stages: seq<Stage>, s: nat, v: Server, id: nat, stage: Stage)
    requires id < |stages| == |pubs| && ServerInv(pubs, stages, s, v) && stages[id] != Notified && stage != Notified
    ensures ServerInv(pubs, stages[id := stage], s, v)
  {
    var after := stages[id := stage];
    forall i: nat
      ensures Accounted(after, v, i)
    {
      assert Accounted(stages, v, i);
    }
  }

  lemma NotifyServer(pubs: seq<Publication>, stages: seq<Stage>, s: nat, v: Server, id: nat)
    requires id < |stages| == |pubs| && ServerInv(pubs, stages, s, v) && stages[id] == Inserted
    ensures ServerInv(pubs, stages[id := Notified], s, Enqueue(v, id))
  {
    var w, after := Enqueue(v, id), stages[id := Notified];
    assert Accounted(stages, v, id) && id !in v.queue;
    forall i: nat
      ensures Accounted(after, w, i)
      ensures Logged(w.log, i) <==> Broadcasts(pubs, s, w, i)
    {
      assert Accounted(stages, v, i);
      assert Logged(v.log, i) <==> Broadcasts(pubs, s, v, i);
    }
  }

  lemma ReceiveServer(st: State, s: nat, fetched: bool)
    requires Inv(st) && s < |st.servers| && st.servers[s].queue != []
    ensures ServerInv(st.pubs, st.stages, s, Handle(st.servers[s], st.rows, s, fetched))
  {
    var v := st.servers[s];
    var id, w := v.queue[0], Handle(v, st.rows, s, fetched);
    assert ServerOk(st, s);
    assert Accounted(st.stages, v, id);
    assert Logged(v.log, id) <==> Broadcasts(st.pubs, s, v, id);
    if fetched && id in st.rows {
      RowRoundTrip(st.pubs[id].origin, st.pubs[id].event, st.rows[id].created, s);
    }
    forall i: nat
      ensures Accounted(st.stages, w, i)
      ensures Logged(w.log, i) <==> Broadcasts(st.pubs, s, w, i)
    {
      assert Accounted(st.stages, v, i);
      assert Logged(v.log, i) <==> Broadcasts(st.pubs, s, v, i);
      assert v.queue == [id] + v.queue[1..];
      LoggedAppend(v.log, Entry(id, st.pubs[id].event), i);
    }
  }

  lemma DisconnectServer(pubs: seq<Publication>, stages: seq<Stage>, s: nat, v: Server)
    requires ServerInv(pubs, stages, s, v)
    ensures ServerInv(pubs, stages, s, v.(queue := [], connected := false, missed := v.missed + Elements(v.queue)))
  {
    var w := v.(queue := [], connected := false, missed := v.missed + Elements(v.queue));
    forall i: nat
      ensures Accounted(stages, w, i)
      ensures Logged(w.log, i) <==> Broadcasts(pubs, s, w, i)
    {
      assert Accounted(stages, v, i);
      assert Logged(v.log, i) <==> Broadcasts(pubs, s, v, i);
    }
  }

  lemma TableInsert(st: State, id: nat, clock: nat, read: int)
    requires TableInv(st)
    ensures TableInv(Apply(st, Insert(id, clock, read)))
  {
  }

  lemma TablePrune(st: State, clock: nat)
    requires TableInv(st)
    ensures TableInv(Apply(st, Prune(clock)))
  {
  }

  lemma TableStep(st: State, step: Step)
    requires Inv(st)
    ensures TableInv(Apply(st, step))
  {
    match step
    case Insert(id, clock, read) => TableInsert(st, id, clock, read);
    case Prune(clock) => TablePrune(st, clock);
    case _ =>
  }

  lemma ServerStep(st: State, step: Step, s: nat)
    requires Inv(st) && s < |st.servers|
    ensures |Apply(st, step).servers| == |st.servers|
    ensures ServerOk(Apply(st, step), s)
  {
    var v := st.servers[s];
    assert ServerOk(st, s);
    match step
    case Publish(o, e) =>
      if o < |st.servers| {
        if o == s {
          PublishOrigin(st.pubs, st.stages, s, v, e);
        } else {
          PublishElsewhere(st.pubs, st.stages, s, v, Publication(o, e));
        }
      }
    case Insert(id, _, _) =>
      if id < |st.stages| && st.stages[id] == Spawned {
        StageMoves(st.pubs, st.stages, s, v, id, Inserted);
      }
    case Notify(id) =>
      if id < |st.stages| && st.stages[id] == Inserted {
        NotifyServer(st.pubs, st.stages, s, v, id);
      }
    case Abort(id) =>
      if id < |st.stages| && st.stages[id] != Notified {
        StageMoves(st.pubs, st.stages, s, v, id, Aborted);
      }
    case Receive(o, fetched) =>
      if o == s && v.queue != [] {
        ReceiveServer(st, s, fetched);
      }
    case Disconnect(o) =>
      DisconnectServer(st.pubs, st.stages, s, v);
    case Connect(o) =>
      ConnectServer(st.pubs, st.stages, s, v);
    case Prune(_) =>
    case Wait(nanos) =>
  }

  lemma ConnectServer(pubs: seq<Publication>, stages: seq<Stage>, s: nat, v: Server)
    requires ServerInv(pubs, stages, s, v)
    ensures ServerInv(pubs, stages, s, v.(connected := true))
  {
    var w := v.(connected := true);
    forall i: nat
      ensures Accounted(stages, w, i)
      ensures Logged(w.log, i) <==> Broadcasts(pubs, s, w, i)
    {
      assert Accounted(stages, v, i);
      assert Logged(v.log, i) <==> Broadcasts(pubs, s, v, i);
    }
  }

  lemma StepInv(st: State, step: Step)
    requires Inv(st)
    ensures Inv(Apply(st, step)) && |Apply(st, step).servers| == |st.servers|
  {
    var after := Apply(st, step);
    TableStep(st, step);
    assert |after.servers| == |st.servers|;
    forall s | 0 <= s < |after.servers|
      ensures ServerOk(after, s)
    {
      ServerStep(st, step, s);
    }
  }

  /** The invariant holds in every state of every run. */
  lemma {:induction false} RunInv(st: State, steps: seq<Step>, n: nat)
    requires Inv(st) && n <= |steps|
    ensures Inv(Run(st, steps, n)) && |Run(st, steps, n).servers| == |st.servers|
  {
    if n > 0 {
      RunInv(st, steps, n - 1);
      StepInv(Run(st, steps, n - 1), steps[n - 1]);
    }
  }

  /** The same from the start. */
  lemma ReachableInv(n: nat, now: int, steps: seq<Step>, m: nat)
    requires m <= |steps|
    ensures Inv(Run(Initial(n, now), steps, m)) && |Run(Initial(n, now), steps, m).servers| == n
  {
    InitialInv(n, now);
    RunInv(Initial(n, now), steps, m);
  }

  // ---------------------------------------------------------------------
  // What every run guarantees
  // ---------------------------------------------------------------------

  function Occurrences(log: seq<Entry>, id: nat): nat {
    if log == [] then 0 else Occurrences(log[..|log| - 1], id) + if log[|log| - 1].id == id then 1 else 0
  }

  lemma {:induction false} OccursOnce(log: seq<Entry>, id: nat)
    requires OnceEach(log)
    ensures Occurrences(log, id) == if Logged(log, id) then 1 else 0
  {
    if log != [] {
      var n := |log| - 1;
      OccursOnce(log[..n], id);
      LoggedAppend(log[..n], log[n], id);
      assert log == log[..n] + [log[n]];
      assert Logged(log[..n], log[n].id) ==> false;
    }
  }

  /** On its origin's broadcast exactly once, on each peer's at most once, and
      nothing that was not published anywhere. */
  ghost predicate Exactly(st: State, s: nat, id: nat)
    requires s < |st.servers|
  {
    var log := st.servers[s].log;
    Occurrences(log, id) <= 1 &&
    (id < |st.pubs| && st.pubs[id].origin == s ==> Occurrences(log, id) == 1) &&
    (id >= |st.pubs| ==> Occurrences(log, id) == 0) &&
    FromPublications(st.pubs, log)
  }

  lemma InvExactly(st: State, s: nat, id: nat)
    requires Inv(st) && s < |st.servers|
    ensures Exactly(st, s, id)
  {
    assert ServerOk(st, s);
    OccursOnce(st.servers[s].log, id);
    assert Logged(st.servers[s].log, id) <==> Broadcasts(st.pubs, s, st.servers[s], id);
  }

  /** In every run of any number of servers, however rows, notifications and
      failures interleave, no event is echoed, doubled or altered. */
  lemma NoEcho(n: nat, now: int, steps: seq<Step>, s: nat, id: nat)
    requires s < n
    ensures |Run(Initial(n, now), steps, |steps|).servers| == n && Exactly(Run(Initial(n, now), steps, |steps|), s, id)
  {
    ReachableInv(n, now, steps, |steps|);
    InvExactly(Run(Initial(n, now), steps, |steps|), s, id);
  }

  /** Every replication has run its course and every notification is taken. */
  predicate Quiet(st: State) {
    (forall id | 0 <= id < |st.stages| :: st.stages[id] == Notified || st.stages[id] == Aborted) &&
    (forall s | 0 <= s < |st.servers| :: st.servers[s].queue == [])
  }

  /** The peer has the event exactly when its replication was not aborted, its
      kind is known, and the peer did not miss the notification. */
  ghost predicate DeliveredUnlessLost(st: State, s: nat, id: nat)
    requires s < |st.servers|
  {
    |st.stages| == |st.pubs| &&
    (id < |st.pubs| && st.pubs[id].origin != s ==>
      (Logged(st.servers[s].log, id) <==>
        st.stages[id] == Notified && Known(st.pubs[id].event.kind) && id !in st.servers[s].missed))
  }

  lemma InvDelivered(st: State, s: nat, id: nat)
    requires Inv(st) && Quiet(st) && s < |st.servers|
    ensures DeliveredUnlessLost(st, s, id)
  {
    assert ServerOk(st, s);
    assert Logged(st.servers[s].log, id) <==> Broadcasts(st.pubs, s, st.servers[s], id);
    assert Accounted(st.stages, st.servers[s], id);
  }

  /** What a run that has come to rest has delivered to each peer. */
  lemma QuietDelivery(n: nat, now: int, steps: seq<Step>, s: nat, id: nat)
    requires s < n && Quiet(Run(Initial(n, now), steps, |steps|))
    ensures |Run(Initial(n, now), steps, |steps|).servers| == n &&
      DeliveredUnlessLost(Run(Initial(n, now), steps, |steps|), s, id)
  {
    ReachableInv(n, now, steps, |steps|);
    InvDelivered(Run(Initial(n, now), steps, |steps|), s, id);
  }

  // ---------------------------------------------------------------------
  // Agreement
  // ---------------------------------------------------------------------

  /** A step that loses nothing when clocks stray at most `e` from real time: no
      connection drops, no fetch fails, the origin's clock is not more than `e`
      slow nor the pruner's more than `e` fast, and a notification is taken within
      TTL - 2e of the row's stamp. */
  predicate Lossless(st: State, step: Step, e: nat) {
    match step
    case Disconnect(_) => false
    case Abort(_) => false
    case Insert(_, clock, read) => read - e <= clock
    case Prune(clock) => clock <= st.now + e
    case Receive(s, fetched) =>
      fetched && (s < |st.servers| && st.servers[s].queue != [] ==> InTime(st, st.servers[s].queue[0], e))
    case _ => true
  }

  predicate InTime(st: State, id: nat, e: nat) {
    id in st.inserted ==> st.now <= st.inserted[id] + TTL - 2 * e
  }

  predicate LosslessRun(st: State, steps: seq<Step>, e: nat, n: nat)
    requires n <= |steps|
  {
    n == 0 || (LosslessRun(st, steps, e, n - 1) && Lossless(Run(st, steps, n - 1), steps[n - 1], e))
  }

  /** Connected, and nothing missed. */
  predicate CaughtAll(st: State) {
    (forall s | 0 <= s < |st.servers| :: st.servers[s].connected && st.servers[s].missed == {}) &&
    (forall id | 0 <= id < |st.stages| :: st.stages[id] != Aborted)
  }

  /** A row is in the table as long as its notification may be taken. */
  predicate RowKept(st: State, id: nat, e: nat) {
    (id in st.inserted && InTime(st, id, e) ==> id in st.rows) &&
    (id in st.inserted && id in st.rows ==> st.rows[id].created >= st.inserted[id] - e)
  }

  lemma StepKeepsRow(st: State, step: Step, id: nat, e: nat)
    requires RowKept(st, id, e) && Lossless(st, step, e)
    ensures RowKept(Apply(st, step), id, e)
  {
    match step
    case Insert(_, _, _) =>
    case Prune(_) =>
    case _ =>
  }

  /** Rows are not pruned early, whatever the servers' clocks within the skew. */
  lemma {:induction false} RowsAreKept(n: nat, now: int, steps: seq<Step>, e: nat, m: nat, id: nat)
    requires m <= |steps| && LosslessRun(Initial(n, now), steps, e, m)
    ensures RowKept(Run(Initial(n, now), steps, m), id, e)
  {
    if m > 0 {
      RowsAreKept(n, now, steps, e, m - 1, id);
      StepKeepsRow(Run(Initial(n, now), steps, m - 1), steps[m - 1], id, e);
    }
  }

  lemma LosslessStep(st: State, step: Step, e: nat)
    requires Inv(st) && CaughtAll(st) && Lossless(st, step, e) && forall id: nat :: RowKept(st, id, e)
    ensures CaughtAll(Apply(st, step))
  {
    match step
    case Receive(s, fetched) =>
      if s < |st.servers| && st.servers[s].queue != [] {
        var id := st.servers[s].queue[0];
        assert ServerOk(st, s);
        assert Accounted(st.stages, st.servers[s], id);
        assert RowKept(st, id, e);
        assert id in st.inserted && id in st.rows;
      }
    case _ =>
  }

  lemma {:induction false} LosslessRunCatchesAll(n: nat, now: int, steps: seq<Step>, e: nat, m: nat)
    requires m <= |steps| && LosslessRun(Initial(n, now), steps, e, m)
    ensures CaughtAll(Run(Initial(n, now), steps, m))
  {
    if m > 0 {
      var before := Run(Initial(n, now), steps, m - 1);
      assert CaughtAll(before) by {
        LosslessRunCatchesAll(n, now, steps, e, m - 1);
      }
      assert Inv(before) by {
        ReachableInv(n, now, steps, m - 1);
      }
      forall id: nat
        ensures RowKept(before, id, e)
      {
        RowsAreKept(n, now, steps, e, m - 1, id);
      }
      LosslessStep(before, steps[m - 1], e);
    }
  }

  lemma EventsWithout(log: seq<Entry>, k: nat)
    requires k < |log|
    ensures multiset(log) == multiset(log[..k] + log[k + 1..]) + multiset{log[k]}
    ensures multiset(Events(log)) == multiset(Events(log[..k] + log[k + 1..])) + multiset{log[k].event}
  {
    var rest := log[..k] + log[k + 1..];
    var e, r := Events(log), Events(rest);
    assert log == log[..k] + [log[k]] + log[k + 1..];
    assert e == e[..k] + [e[k]] + e[k + 1..];
    assert r == e[..k] + e[k + 1..];
  }

  lemma Cancel(x: multiset<Entry>, y: multiset<Entry>, e: Entry)
    requires x + multiset{e} == y + multiset{e}
    ensures x == y
  {
    assert x == x + multiset{e} - multiset{e};
    assert y == y + multiset{e} - multiset{e};
  }

  lemma {:induction false} EventsOfPermutation(a: seq<Entry>, b: seq<Entry>)
    requires multiset(a) == multiset(b)
    ensures multiset(Events(a)) == multiset(Events(b))
    decreases |a|
  {
    if a == [] {
      assert |multiset(b)| == 0;
    } else {
      assert a[0] in multiset(b);
      var k :| 0 <= k < |b| && b[k] == a[0];
      EventsWithout(a, 0);
      EventsWithout(b, k);
      var x, y := a[..0] + a[1..], b[..k] + b[k + 1..];
      Cancel(multiset(x), multiset(y), a[0]);
      EventsOfPermutation(x, y);
    }
  }

  lemma {:induction false} MultiplicityOne(log: seq<Entry>, e: Entry)
    requires OnceEach(log)
    ensures multiset(log)[e] == if e in log then 1 else 0
  {
    if log != [] {
      var n := |log| - 1;
      MultiplicityOne(log[..n], e);
      assert log == log[..n] + [log[n]];
    }
  }

  predicate KindsKnown(st: State) {
    forall id | 0 <= id < |st.pubs| :: Known(st.pubs[id].event.kind)
  }

  /** A log that has every publication once. */
  lemma CompleteLog(st: State, s: nat, e: Entry)
    requires Inv(st) && CaughtAll(st) && Quiet(st) && s < |st.servers|
    requires KindsKnown(st)
    ensures e in st.servers[s].log <==> e.id < |st.pubs| && e.event == st.pubs[e.id].event
  {
    var v := st.servers[s];
    assert ServerOk(st, s);
    assert Logged(v.log, e.id) <==> Broadcasts(st.pubs, s, v, e.id);
    assert Accounted(st.stages, v, e.id);
    if e in v.log {
      var k :| 0 <= k < |v.log| && v.log[k] == e;
    } else if e.id < |st.pubs| {
      assert Logged(v.log, e.id);
      var k :| 0 <= k < |v.log| && v.log[k].id == e.id;
      assert v.log[k] in v.log;
    }
  }

  lemma SameBroadcasts(st: State, s: nat, t: nat)
    requires Inv(st) && CaughtAll(st) && Quiet(st) && KindsKnown(st) && s < |st.servers| && t < |st.servers|
    ensures multiset(Events(st.servers[s].log)) == multiset(Events(st.servers[t].log))
  {
    var a, b := st.servers[s].log, st.servers[t].log;
    assert ServerOk(st, s) && ServerOk(st, t);
    forall e
      ensures multiset(a)[e] == multiset(b)[e]
    {
      MultiplicityOne(a, e);
      MultiplicityOne(b, e);
      CompleteLog(st, s, e);
      CompleteLog(st, t, e);
    }
    EventsOfPermutation(a, b);
  }

  /** If every row is replicated and, with clocks at most `e` off, every notification
      is taken within TTL - 2e of its row's stamp, all servers have broadcast the
      same multiset of events. */
  lemma Agreement(n: nat, now: int, steps: seq<Step>, e: nat, s: nat, t: nat)
    requires s < n && t < n && LosslessRun(Initial(n, now), steps, e, |steps|)
    requires Quiet(Run(Initial(n, now), steps, |steps|)) && KindsKnown(Run(Initial(n, now), steps, |steps|))
    ensures |Run(Initial(n, now), steps, |steps|).servers| == n
    ensures multiset(Events(Run(Initial(n, now), steps, |steps|).servers[s].log))
         == multiset(Events(Run(Initial(n, now), steps, |steps|).servers[t].log))
  {
    ReachableInv(n, now, steps, |steps|);
    LosslessRunCatchesAll(n, now, steps, e, |steps|);
    SameBroadcasts(Run(Initial(n, now), steps, |steps|), s, t);
  }
}
