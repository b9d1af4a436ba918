/** Passes of work that servers run under one lease: each keeps the clock reading
    it acquired the lease with, and may act until TTL - 2e after it. */
module LeasedPasses {
  import opened Wrappers
  import opened Lease

  /** The reading a pass acquired with, the real time of that reading, and the
      work it has yet to do. */
  datatype Pass<T> = Pass(now: nat, read: int, work: T)

  function Deadline<T>(p: Pass<T>, ttl: nat, e: nat): int {
    p.read + ttl - 2 * e
  }

  /** The pass of a server, while it may act. */
  predicate Acts<T>(clock: int, passes: map<string, Pass<T>>, s: string, ttl: nat, e: nat) {
    s in passes && clock <= Deadline(passes[s], ttl, e)
  }

  /** A server that runs no pass reads its clock, within `e` of real time, and then
      tries to acquire the lease; a win that is answered starts a pass. */
  predicate Acquires<T(==)>(clock: int, lease: map<string, Row>, passes: map<string, Pass<T>>, name: string, s: string,
                            now: nat, read: int, fate: Fate, idle: T,
                            lease': map<string, Row>, passes': map<string, Pass<T>>, ttl: nat, e: nat)
  {
    s !in passes && read <= clock && Near(now, read, e) &&
    var (rows, affected) := Upsert(lease, name, s, now, now + ttl);
    lease' == (if fate == NotExecuted then lease else rows) &&
    passes' == if fate == Answered && affected then passes[s := Pass(now, read, idle)] else passes
  }

  /** The lease row is the one the pass wrote. */
  predicate Holds<T>(lease: map<string, Row>, name: string, s: string, p: Pass<T>, ttl: nat, e: nat) {
    name in lease && lease[name] == Row(s, p.now + ttl) && Near(p.now, p.read, e)
  }

  /** Every pass that may act holds the lease. */
  ghost predicate AllHold<T>(clock: int, lease: map<string, Row>, passes: map<string, Pass<T>>, name: string,
                             ttl: nat, e: nat)
  {
    forall s | Acts(clock, passes, s, ttl, e) :: Holds(lease, name, s, passes[s], ttl, e)
  }

  /** While a pass may act, no other server gets the lease. */
  lemma AcquireKeepsHolding<T>(clock: int, lease: map<string, Row>, passes: map<string, Pass<T>>, name: string,
                               s: string,
                               now: nat, read: int, fate: Fate, idle: T,
                               lease': map<string, Row>, passes': map<string, Pass<T>>, ttl: nat, e: nat)
    requires AllHold(clock, lease, passes, name, ttl, e)
    requires Acquires(clock, lease, passes, name, s, now, read, fate, idle, lease', passes', ttl, e)
    ensures AllHold(clock, lease', passes', name, ttl, e)
    ensures forall q | Acts(clock, passes, q, ttl, e) :: q in passes' && passes'[q] == passes[q]
    ensures forall q | Acts(clock, passes', q, ttl, e) && q !in passes :: passes'[q].work == idle
  {
    forall q | Acts(clock, passes, q, ttl, e)
      ensures lease' == lease
    {
      assert Holds(lease, name, q, passes[q], ttl, e);
      assert lease[name].holder == q && q != s;
      assert lease[name].expires >= now;
    }
  }

  /** At most one pass may act at any time. */
  lemma OneActs<T>(clock: int, lease: map<string, Row>, passes: map<string, Pass<T>>, name: string, ttl: nat, e: nat,
                   s: string, t: string)
    requires AllHold(clock, lease, passes, name, ttl, e)
    requires Acts(clock, passes, s, ttl, e) && Acts(clock, passes, t, ttl, e)
    ensures s == t
  {
    assert Holds(lease, name, s, passes[s], ttl, e) && Holds(lease, name, t, passes[t], ttl, e);
  }
}
