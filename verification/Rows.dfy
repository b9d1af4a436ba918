/** Counting the rows of the pods table that satisfy a condition. */
module Rows {
  import opened Cluster
  import opened Wrappers

  lemma {:induction false} FilterTwice<T(!new)>(s: seq<T>, f: T -> bool, g: T -> bool, both: T -> bool)
    requires forall x :: both(x) <==> f(x) && g(x)
    ensures Filter(Filter(s, f), g) == Filter(s, both)
  {
    if s != [] {
      var n := |s| - 1;
      FilterTwice(s[..n], f, g, both);
      if f(s[n]) {
        assert (Filter(s[..n], f) + [s[n]])[..|Filter(s[..n], f)|] == Filter(s[..n], f);
      }
    }
  }

  lemma {:induction false} FilterConcat<T(!new)>(s: seq<T>, t: seq<T>, f: T -> bool)
    ensures Filter(s + t, f) == Filter(s, f) + Filter(t, f)
  {
    if t == [] {
      assert s + t == s;
    } else {
      var n := |t| - 1;
      assert (s + t)[..|s| + n] == s + t[..n];
      FilterConcat(s, t[..n], f);
    }
  }

  lemma FilterOne<T(!new)>(x: T, f: T -> bool)
    ensures Filter([x], f) == if f(x) then [x] else []
  {
    assert [x][..0] == [];
  }

  /** Creating a pod under an unused name adds one row to what it satisfies. */
  lemma PutFreshCounts(rows: seq<Pod>, p: Pod, f: Pod -> bool)
    requires UniqueKeys(rows) && !Present(rows, p.namespace, p.name)
    ensures |Filter(Put(rows, p), f)| == |Filter(rows, f)| + if f(Stored(p)) then 1 else 0
  {
    FilterConcat([Stored(p)], rows, f);
    FilterOne(Stored(p), f);
  }

  /** The key of a stored row finds that row. */
  lemma FindsRow(rows: seq<Pod>, p: Pod)
    requires UniqueKeys(rows) && p in rows
    ensures Find(rows, p.namespace, p.name) < |rows| && rows[Find(rows, p.namespace, p.name)] == p
  {
    var k :| 0 <= k < |rows| && rows[k] == p;
    assert HasKey(rows[k], p.namespace, p.name);
    assert Find(rows, p.namespace, p.name) == k;
  }

  lemma CountAround(a: seq<Pod>, p: Pod, b: seq<Pod>, f: Pod -> bool)
    ensures |Filter(a + [p] + b, f)| == |Filter(a + b, f)| + if f(p) then 1 else 0
  {
    FilterConcat(a + [p], b, f);
    FilterConcat(a, [p], f);
    FilterConcat(a, b, f);
    FilterOne(p, f);
  }

  /** Deleting a stored row takes one from what it satisfied. */
  lemma RemoveCounts(rows: seq<Pod>, p: Pod, f: Pod -> bool)
    requires UniqueKeys(rows) && p in rows
    ensures |Filter(Remove(rows, p.namespace, p.name), f)| == |Filter(rows, f)| - if f(p) then 1 else 0
  {
    var i := Find(rows, p.namespace, p.name);
    FindsRow(rows, p);
    CountAround(rows[..i], p, rows[i + 1..], f);
    assert rows == rows[..i] + [p] + rows[i + 1..];
  }

  /** The pods from position `n` on are all in the table. */
  predicate StillIn(rows: seq<Pod>, victims: seq<Pod>, n: nat) {
    forall k | n <= k < |victims| :: victims[k] in rows
  }

  /** Deleting the next of some stored rows keeps those after it. */
  lemma RemoveNext(rows: seq<Pod>, victims: seq<Pod>, n: nat)
    requires UniqueKeys(rows) && UniqueKeys(victims) && n < |victims| && StillIn(rows, victims, n)
    ensures StillIn(Remove(rows, victims[n].namespace, victims[n].name), victims, n + 1)
  {
    forall k | n + 1 <= k < |victims|
      ensures victims[k] in Remove(rows, victims[n].namespace, victims[n].name)
    {
      assert !SameKey(victims[n], victims[k]);
    }
  }

  /** The key of another stored row is another key. */
  lemma KeyDecides(rows: seq<Pod>, p: Pod, v: Pod)
    requires UniqueKeys(rows) && v in rows && p in rows && p != v
    ensures !SameKey(p, v)
  {
  }

  lemma NotPresent(rows: seq<Pod>, namespace: string, name: string)
    ensures Present(rows, namespace, name) <==> exists p :: p in rows && HasKey(p, namespace, name)
  {
    if p :| p in rows && HasKey(p, namespace, name) {
      var k :| 0 <= k < |rows| && rows[k] == p;
      assert HasKey(rows[k], namespace, name);
    }
  }

  lemma {:induction false} FilterUnique(rows: seq<Pod>, f: Pod -> bool)
    requires UniqueKeys(rows)
    ensures UniqueKeys(Filter(rows, f))
  {
    if rows != [] {
      var n := |rows| - 1;
      FilterUnique(rows[..n], f);
      var rest := Filter(rows[..n], f);
      forall i | 0 <= i < |rest|
        ensures !SameKey(rest[i], rows[n])
      {
        assert rest[i] in rows[..n];
        var k :| 0 <= k < n && rows[k] == rest[i];
      }
    }
  }

  /** The scheduler's listing holds exactly the unscheduled rows. */
  lemma ListedIfUnscheduled(rows: seq<Pod>, p: Pod)
    ensures p in ListUnscheduled(rows) <==> p in rows && p.nodeName.None? && p.phase == Some(Pending)
  {
    var f, r := Filter(rows, Unscheduled), ListUnscheduled(rows);
    if p in r {
      var k :| 0 <= k < |r| && r[k] == p;
      assert f[|f| - 1 - k] == p;
    }
    if p in f {
      var k :| 0 <= k < |f| && f[k] == p;
      assert r[|f| - 1 - k] == p;
    }
  }

  lemma {:induction false} ReverseAppend<T>(x: T, s: seq<T>)
    ensures Reverse([x] + s) == Reverse(s) + [x]
  {
  }

  /** A pod created under a new name is first in every listing, and last in the
      scheduler's, which takes the oldest first. */
  lemma CreatedIsNewest(rows: seq<Pod>, p: Pod, namespace: Option<string>, selector: Option<Labels>)
    requires UniqueKeys(rows) && forall q | q in rows :: !SameKey(p, q)
    ensures ListPods(Put(rows, p), namespace, selector)
         == (if Selected(Stored(p), namespace, selector) then [Stored(p)] else []) + ListPods(rows, namespace, selector)
    ensures ListUnscheduled(Put(rows, p))
         == ListUnscheduled(rows) + if Unscheduled(Stored(p)) then [Stored(p)] else []
  {
    var q := Stored(p);
    NoRow(rows, p.namespace, p.name);
    assert Put(rows, p) == [q] + rows;
    FilterConcat([q], rows, r => Selected(r, namespace, selector));
    FilterOne(q, r => Selected(r, namespace, selector));
    FilterConcat([q], rows, Unscheduled);
    FilterOne(q, Unscheduled);
    ReverseAppend(q, Filter(rows, Unscheduled));
  }

  lemma {:induction false} FilterPositions<T(!new)>(s: seq<T>, f: T -> bool) returns (at: seq<nat>)
    ensures |at| == |Filter(s, f)| && forall i | 0 <= i < |at| :: at[i] < |s| && s[at[i]] == Filter(s, f)[i]
    ensures forall i, j | 0 <= i < j < |at| :: at[i] < at[j]
  {
    if s == [] {
      return [];
    }
    var n := |s| - 1;
    at := FilterPositions(s[..n], f);
    if f(s[n]) {
      at := at + [n];
    }
  }

  /** Of two rows the scheduler lists, the one further back in the table comes first. */
  lemma OldestFirst(rows: seq<Pod>, i: nat, j: nat) returns (a: nat, b: nat)
    requires i < j < |ListUnscheduled(rows)|
    ensures b < a < |rows| && rows[a] == ListUnscheduled(rows)[i] && rows[b] == ListUnscheduled(rows)[j]
  {
    var at := FilterPositions(rows, Unscheduled);
    a, b := at[|at| - 1 - i], at[|at| - 1 - j];
  }
}
