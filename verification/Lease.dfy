/** Named leases in a shared table: one conditional UPSERT per attempt, with
    the expiry stored and compared as RFC 3339 text. */
module Lease {
  import opened Sequences
  import opened Wrappers
  import opened Text
  import opened Timestamp

  datatype Backend = Sqlite | Postgres

  /** A row of the `leases` table as stored. */
  datatype TextRow = TextRow(holder: string, expiresAt: string)

  /** The same row with its expiry as an instant. */
  datatype Row = Row(holder: string, expires: nat)

  /** The conditional UPSERT on instants: the new table and rows_affected > 0. */
  function Upsert(rows: map<string, Row>, name: string, me: string, now: nat, expires: nat): (map<string, Row>, bool) {
    if name !in rows || rows[name].holder == me || rows[name].expires < now
    then (rows[name := Row(me, expires)], true)
    else (rows, false)
  }

  /** A stored row is the text of a row, within four-digit years. */
  predicate Prints(text: TextRow, row: Row) {
    text.holder == row.holder && IsText(text.expiresAt, row.expires)
  }

  /** `rows` is the text of `instants`. */
  ghost predicate Represents(rows: map<string, TextRow>, instants: map<string, Row>) {
    Pointwise(rows, instants, Prints)
  }

  /** The shared table. `instants` is the table's meaning; the statements only
      ever touch the text. */
  class LeaseTable {
    var rows: map<string, TextRow>
    ghost var instants: map<string, Row>

    ghost predicate Valid()
      reads this
    {
      Represents(rows, instants)
    }

    constructor ()
      ensures Valid() && instants == map[]
    {
      rows, instants := map[], map[];
    }

    /** INSERT ... ON CONFLICT (name) DO UPDATE ... WHERE holder = excluded.holder
        OR expires_at < now, all on text. */
    method Execute(name: string, me: string, ghost now: nat, ghost expires: nat, nowText: string, expiresText: string)
      returns (affected: bool)
      requires Valid() && IsText(nowText, now) && IsText(expiresText, expires)
      modifies this
      ensures Valid()
      ensures (instants, affected) == Upsert(old(instants), name, me, now, expires)
    {
      affected := MayWrite(name, me, now, nowText);
      if affected {
        Write(name, me, expires, expiresText);
      }
    }

    /** The statement's WHERE clause. */
    method MayWrite(name: string, me: string, ghost now: nat, nowText: string) returns (may: bool)
      requires Valid() && IsText(nowText, now)
      ensures may <==> name !in instants || instants[name].holder == me || instants[name].expires < now
    {
      if name !in rows || rows[name].holder == me {
        return true;
      }
      TextOrderIsTimeOrder(instants[name].expires, now);
      may := TextLess(rows[name].expiresAt, nowText);
    }

    method Write(name: string, me: string, ghost expires: nat, expiresText: string)
      requires Valid() && IsText(expiresText, expires)
      modifies this
      ensures Valid() && instants == old(instants)[name := Row(me, expires)]
    {
      PointwiseUpdate(rows, instants, Prints, name, TextRow(me, expiresText), Row(me, expires));
      rows := rows[name := TextRow(me, expiresText)];
      instants := instants[name := Row(me, expires)];
    }
  }

  /** One server's handle on the table. */
  class LeaseManager {
    const table: LeaseTable
    const holder: string
    const backend: Backend

    constructor (table: LeaseTable, holder: string, backend: Backend)
      ensures this.table == table && this.holder == holder && this.backend == backend
    {
      this.table, this.holder, this.backend := table, holder, backend;
    }

    /** The two instants as the statement carries them. */
    method Stamp(now: nat, expires: nat) returns (nowText: string, expiresText: string)
      requires YearOf(now) <= 9999 && YearOf(expires) <= 9999
      ensures IsText(nowText, now) && IsText(expiresText, expires)
    {
      nowText, expiresText := ToRfc3339(now), ToRfc3339(expires);
    }

    /** Try to acquire or renew `name` for `ttl`, having read the clock as
        `now`: won exactly when the row was missing, ours, or expired, and the
        answer came back. */
    method TryAcquire(name: string, now: nat, ttl: nat, fate: Fate) returns (won: bool)
      requires table.Valid() && YearOf(now) <= 9999 && YearOf(now + ttl) <= 9999
      modifies table
      ensures table.Valid()
      ensures backend == Sqlite ==> won && table.instants == old(table.instants)
      ensures backend == Postgres ==>
        var free := name !in old(table.instants) || old(table.instants)[name].holder == holder ||
                    old(table.instants)[name].expires < now;
        (won <==> free && fate == Answered) &&
        table.instants == if free && fate != NotExecuted then old(table.instants)[name := Row(holder, now + ttl)]
                          else old(table.instants)
    {
      if backend == Sqlite {
        return true;
      }
      won := false;
      if fate != NotExecuted {
        var nowText, expiresText := Stamp(now, now + ttl);
        var affected := table.Execute(name, holder, now, now + ttl, nowText, expiresText);
        won := affected && fate == Answered;
      }
    }
  }

  // ---------------------------------------------------------------------
  // Runs of attempts by any number of servers
  // ---------------------------------------------------------------------

  /** One attempt: who, on which lease, what the server's clock showed, and at
      what real time it was read. Attempts are listed in execution order. */
  datatype Attempt = Attempt(name: string, holder: string, now: nat, read: int, fate: Fate)

  function Step(rows: map<string, Row>, a: Attempt, ttl: nat): map<string, Row> {
    if a.fate == NotExecuted then rows else Upsert(rows, a.name, a.holder, a.now, a.now + ttl).0
  }

  function Run(run: seq<Attempt>, ttl: nat): map<string, Row> {
    if run == [] then map[] else Step(Run(run[..|run| - 1], ttl), run[|run| - 1], ttl)
  }

  /** Attempt `i` wrote the row, whether or not its server learned so. */
  predicate Applied(run: seq<Attempt>, ttl: nat, i: nat)
    requires i < |run|
  {
    run[i].fate != NotExecuted && Upsert(Run(run[..i], ttl), run[i].name, run[i].holder, run[i].now, run[i].now + ttl).1
  }

  /** Attempt `i` told its server that it owns the lease. */
  predicate Won(run: seq<Attempt>, ttl: nat, i: nat)
    requires i < |run|
  {
    Applied(run, ttl, i) && run[i].fate == Answered
  }

  /** No server's clock runs backwards between its attempts on one lease. */
  predicate MonotoneClocks(run: seq<Attempt>) {
    forall i, j | 0 <= i < j < |run| && run[i].holder == run[j].holder && run[i].name == run[j].name ::
      run[i].now <= run[j].now
  }

  /** Every clock reading is within `e` of real time. */
  predicate WithinSkew(run: seq<Attempt>, e: nat) {
    forall i | 0 <= i < |run| :: Near(run[i].now, run[i].read, e)
  }

  predicate Near(now: int, read: int, e: nat) {
    now <= read + e && read <= now + e
  }

  /** The row, if any, is the trace of one of the writes. */
  ghost predicate LeftByAWrite(run: seq<Attempt>, ttl: nat, name: string) {
    name in Run(run, ttl) ==>
      exists p | 0 <= p < |run| ::
        Wrote(run, ttl, name, p) && Run(run, ttl)[name] == Row(run[p].holder, run[p].now + ttl)
  }

  /** The row bounds every write so far. */
  ghost predicate BoundsWrites(run: seq<Attempt>, ttl: nat, name: string) {
    forall i | 0 <= i < |run| && Wrote(run, ttl, name, i) ::
      name in Run(run, ttl) && run[i].now + ttl <= Run(run, ttl)[name].expires
  }

  /** Writes by different holders are more than a TTL apart. */
  ghost predicate Separated(run: seq<Attempt>, ttl: nat, name: string) {
    forall i, j | 0 <= i < j < |run| && Wrote(run, ttl, name, i) && Wrote(run, ttl, name, j) ::
      run[i].holder != run[j].holder ==> run[i].now + ttl < run[j].now
  }

  ghost predicate Exclusive(run: seq<Attempt>, ttl: nat, name: string) {
    LeftByAWrite(run, ttl, name) && BoundsWrites(run, ttl, name) && Separated(run, ttl, name)
  }

  predicate Wrote(run: seq<Attempt>, ttl: nat, name: string, i: nat)
    requires i < |run|
  {
    run[i].name == name && Applied(run, ttl, i)
  }

  lemma WroteInPrefix(run: seq<Attempt>, ttl: nat, name: string, k: nat, i: nat)
    requires i < k <= |run|
    ensures Wrote(run[..k], ttl, name, i) <==> Wrote(run, ttl, name, i)
  {
    assert run[..k][..i] == run[..i];
  }

  lemma {:induction false} RunIsExclusive(run: seq<Attempt>, ttl: nat, name: string)
    requires MonotoneClocks(run)
    ensures Exclusive(run, ttl, name)
  {
    if run != [] {
      var n := |run| - 1;
      RunIsExclusive(run[..n], ttl, name);
      forall i | 0 <= i < n
        ensures Wrote(run[..n], ttl, name, i) <==> Wrote(run, ttl, name, i)
      {
        WroteInPrefix(run, ttl, name, n, i);
      }
      if Wrote(run, ttl, name, n) {
        WriteStep(run, ttl, name);
      } else {
        QuietStep(run, ttl, name);
      }
    }
  }

  /** The last attempt did not write `name`: the row stays as it was. */
  lemma QuietStep(run: seq<Attempt>, ttl: nat, name: string)
    requires run != [] && !Wrote(run, ttl, name, |run| - 1)
    requires Exclusive(run[..|run| - 1], ttl, name)
    requires forall i | 0 <= i < |run| - 1 ::
      Wrote(run[..|run| - 1], ttl, name, i) <==> Wrote(run, ttl, name, i)
    ensures Exclusive(run, ttl, name)
  {
    var before := run[..|run| - 1];
    QuietRow(run, ttl, name);
    assert LeftByAWrite(run, ttl, name) by {
      if name in Run(before, ttl) {
        var p :| 0 <= p < |before| && Wrote(before, ttl, name, p) &&
            Run(before, ttl)[name] == Row(before[p].holder, before[p].now + ttl);
        assert Wrote(run, ttl, name, p) && run[p] == before[p];
      }
    }
    assert BoundsWrites(run, ttl, name) by {
      forall i | 0 <= i < |run| && Wrote(run, ttl, name, i)
        ensures name in Run(run, ttl) && run[i].now + ttl <= Run(run, ttl)[name].expires
      {
        assert Wrote(before, ttl, name, i) && before[i] == run[i];
      }
    }
    assert Separated(run, ttl, name) by {
      forall i, j | 0 <= i < j < |run| && Wrote(run, ttl, name, i) && Wrote(run, ttl, name, j) &&
        run[i].holder != run[j].holder
        ensures run[i].now + ttl < run[j].now
      {
        assert Wrote(before, ttl, name, i) && Wrote(before, ttl, name, j) && before[i] == run[i] && before[j] == run[j];
      }
    }
  }

  lemma QuietRow(run: seq<Attempt>, ttl: nat, name: string)
    requires run != [] && !Wrote(run, ttl, name, |run| - 1)
    ensures name in Run(run, ttl) <==> name in Run(run[..|run| - 1], ttl)
    ensures name in Run(run, ttl) ==> Run(run, ttl)[name] == Run(run[..|run| - 1], ttl)[name]
  {
  }

  /** A write by `a` comes after every earlier write, and more than a TTL after
      every earlier write by another holder. */
  lemma WriteIsLater(before: seq<Attempt>, a: Attempt, ttl: nat, name: string, i: nat)
    requires Exclusive(before, ttl, name) && a.name == name
    requires forall k | 0 <= k < |before| && before[k].holder == a.holder &&
      before[k].name == name :: before[k].now <= a.now
    requires Upsert(Run(before, ttl), name, a.holder, a.now, a.now + ttl).1
    requires i < |before| && Wrote(before, ttl, name, i)
    ensures before[i].now <= a.now
    ensures before[i].holder != a.holder ==> before[i].now + ttl < a.now
  {
    var rows := Run(before, ttl);
    assert name in rows && before[i].now + ttl <= rows[name].expires;
    var p :| 0 <= p < |before| && Wrote(before, ttl, name, p) &&
        rows[name] == Row(before[p].holder, before[p].now + ttl);
    if rows[name].holder == a.holder {
      assert before[p].now <= a.now;
      if before[i].holder != a.holder {
        if i < p {
          assert before[i].now + ttl < before[p].now;
        }
      }
    }
  }

  lemma WriteStep(run: seq<Attempt>, ttl: nat, name: string)
    requires run != [] && MonotoneClocks(run) && Wrote(run, ttl, name, |run| - 1)
    requires Exclusive(run[..|run| - 1], ttl, name)
    requires forall i | 0 <= i < |run| - 1 ::
      Wrote(run[..|run| - 1], ttl, name, i) <==> Wrote(run, ttl, name, i)
    ensures Exclusive(run, ttl, name)
  {
    var n := |run| - 1;
    var before, a := run[..n], run[n];
    forall i | 0 <= i < n && Wrote(run, ttl, name, i)
      ensures run[i].now <= a.now
      ensures run[i].holder != a.holder ==> run[i].now + ttl < a.now
    {
      assert Wrote(before, ttl, name, i) && before[i] == run[i];
      assert forall k | 0 <= k < n :: before[k] == run[k];
      WriteIsLater(before, a, ttl, name, i);
    }
    forall i, j | 0 <= i < j < n && Wrote(run, ttl, name, i) && Wrote(run, ttl, name, j) &&
      run[i].holder != run[j].holder
      ensures run[i].now + ttl < run[j].now
    {
      assert Wrote(before, ttl, name, i) && Wrote(before, ttl, name, j);
      assert before[i] == run[i] && before[j] == run[j];
    }
    ConcludeExclusive(run, ttl, name);
  }

  lemma ConcludeExclusive(run: seq<Attempt>, ttl: nat, name: string)
    requires run != [] && Wrote(run, ttl, name, |run| - 1)
    requires forall i | 0 <= i < |run| - 1 && Wrote(run, ttl, name, i) ::
      run[i].now <= run[|run| - 1].now &&
      (run[i].holder != run[|run| - 1].holder ==> run[i].now + ttl < run[|run| - 1].now)
    requires forall i, j | 0 <= i < j < |run| - 1 && Wrote(run, ttl, name, i) && Wrote(run, ttl, name, j) ::
      run[i].holder != run[j].holder ==> run[i].now + ttl < run[j].now
    ensures Exclusive(run, ttl, name)
  {
    var a := run[|run| - 1];
    assert name in Run(run, ttl) && Run(run, ttl)[name] == Row(a.holder, a.now + ttl);
  }

  /** Two servers that both wrote one lease did so more than a TTL apart, so
      their ownership windows on the shared clock are disjoint. */
  lemma LeaseExclusion(run: seq<Attempt>, ttl: nat, i: nat, j: nat)
    requires MonotoneClocks(run)
    requires i < j < |run| && Applied(run, ttl, i) && Applied(run, ttl, j)
    requires run[i].name == run[j].name && run[i].holder != run[j].holder
    ensures run[i].now + ttl < run[j].now
  {
    RunIsExclusive(run, ttl, run[i].name);
    assert Wrote(run, ttl, run[i].name, i) && Wrote(run, ttl, run[i].name, j);
  }

  /** In real time the guarantee shrinks by the skew on both sides: at no
      instant are two servers both within TTL - 2e of reading the `now` they
      won with. */
  lemma RealTimeExclusion(run: seq<Attempt>, ttl: nat, e: nat, i: nat, j: nat, t: int)
    requires MonotoneClocks(run) && WithinSkew(run, e)
    requires i < |run| && j < |run| && Won(run, ttl, i) && Won(run, ttl, j)
    requires run[i].name == run[j].name && run[i].holder != run[j].holder
    ensures !(run[i].read <= t <= run[i].read + ttl - 2 * e && run[j].read <= t <= run[j].read + ttl - 2 * e)
  {
    if i < j {
      LeaseExclusion(run, ttl, i, j);
    } else {
      LeaseExclusion(run, ttl, j, i);
    }
  }

  lemma ExpiryGrowsByStep(before: seq<Attempt>, a: Attempt, ttl: nat, name: string)
    requires MonotoneClocks(before + [a]) && name in Run(before, ttl)
    ensures name in Step(Run(before, ttl), a, ttl)
    ensures Run(before, ttl)[name].expires <= Step(Run(before, ttl), a, ttl)[name].expires
  {
    var run := before + [a];
    assert forall i | 0 <= i < |before| :: run[i] == before[i];
    assert run[|before|] == a;
    assert MonotoneClocks(before);
    RunIsExclusive(before, ttl, name);
    var p :| 0 <= p < |before| && Wrote(before, ttl, name, p) &&
      Run(before, ttl)[name] == Row(before[p].holder, before[p].now + ttl);
    assert before[p] == run[p];
  }

  /** A lease row never disappears and its expiry never moves back. */
  lemma {:induction false} ExpiryNeverDecreases(run: seq<Attempt>, ttl: nat, name: string, k: nat)
    requires MonotoneClocks(run) && k <= |run| && name in Run(run[..k], ttl)
    ensures name in Run(run, ttl) && Run(run[..k], ttl)[name].expires <= Run(run, ttl)[name].expires
    decreases |run|
  {
    if k == |run| {
      assert run[..k] == run;
    } else {
      var n := |run| - 1;
      assert run[..n][..k] == run[..k];
      ExpiryNeverDecreases(run[..n], ttl, name, k);
      assert run == run[..n] + [run[n]];
      ExpiryGrowsByStep(run[..n], run[n], ttl, name);
    }
  }
}
