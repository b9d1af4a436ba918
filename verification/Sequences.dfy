/** Small facts about sequences and maps. */
module Sequences {

  lemma Associate<T>(a: seq<T>, b: seq<T>, c: seq<T>)
    ensures (a + b) + c == a + (b + c)
  {
  }

  /** The results of `f` on each element, joined in order. */
  function FlatMap<T, U>(s: seq<T>, f: T -> seq<U>): seq<U> {
    if s == [] then [] else FlatMap(s[..|s| - 1], f) + f(s[|s| - 1])
  }

  lemma {:induction false} FlatMapConcat<T, U>(a: seq<T>, b: seq<T>, f: T -> seq<U>)
    ensures FlatMap(a + b, f) == FlatMap(a, f) + FlatMap(b, f)
  {
    if b == [] {
      assert a + b == a;
    } else {
      var n := |b| - 1;
      assert (a + b)[..|a| + n] == a + b[..n];
      FlatMapConcat(a, b[..n], f);
    }
  }

  lemma FlatMapOne<T, U>(x: T, f: T -> seq<U>)
    ensures FlatMap([x], f) == f(x)
  {
    assert [x][..0] == [];
  }

  /** Two maps with the same keys whose values are related key by key. */
  ghost predicate Pointwise<K(!new), A, B>(m: map<K, A>, n: map<K, B>, related: (A, B) -> bool) {
    m.Keys == n.Keys && forall k | k in m && k in n :: related(m[k], n[k])
  }

  /** Writing related values under one key keeps two maps related. */
  lemma PointwiseUpdate<K(!new), A, B>(m: map<K, A>, n: map<K, B>, related: (A, B) -> bool, k: K, a: A, b: B)
    requires Pointwise(m, n, related) && related(a, b)
    ensures Pointwise(m[k := a], n[k := b], related)
  {
  }

  /** The entries whose value is kept. */
  function FilterMap<K(!new), V>(m: map<K, V>, keep: V -> bool): (r: map<K, V>)
    ensures forall k :: k in r <==> k in m && keep(m[k])
    ensures forall k | k in r :: r[k] == m[k]
  {
    map k | k in m && keep(m[k]) :: m[k]
  }

  /** Dropping related values by related conditions keeps two maps related. */
  lemma PointwiseFilter<K(!new), A(!new), B(!new)>(m: map<K, A>, n: map<K, B>, related: (A, B) -> bool,
                                                   keep: A -> bool, keeps: B -> bool)
    requires Pointwise(m, n, related) && forall a, b :: related(a, b) ==> (keep(a) <==> keeps(b))
    ensures Pointwise(FilterMap(m, keep), FilterMap(n, keeps), related)
  {
    forall k
      ensures k in FilterMap(m, keep) <==> k in FilterMap(n, keeps)
    {
      assert k in m <==> k in n;
      assert k in m ==> related(m[k], n[k]);
    }
  }
}
