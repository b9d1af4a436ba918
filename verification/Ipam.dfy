/** Pod addresses: the last octets of a /24, `.1` being the gateway. */
module Ipam {
  import opened Wrappers

  const GATEWAY: nat := 1
  const FIRST: nat := 2
  const LAST: nat := 254

  datatype Leases = Leases(byPod: map<string, nat>, taken: set<nat>)

  predicate Allocatable(o: nat) {
    FIRST <= o <= LAST
  }

  /** The gateway and the pods' octets, all different, are what is taken. */
  ghost predicate LeasesOk(s: Leases) {
    (forall p | p in s.byPod :: Allocatable(s.byPod[p])) &&
    (forall p, q | p in s.byPod && q in s.byPod && s.byPod[p] == s.byPod[q] :: p == q) &&
    (forall o :: o in s.taken <==> o == GATEWAY || exists p :: p in s.byPod && s.byPod[p] == o)
  }

  /** The first free octet at or above `o`. */
  function FreeFrom(taken: set<nat>, o: nat): (r: Option<nat>)
    requires FIRST <= o <= LAST + 1
    ensures r.Some? ==> o <= r.value <= LAST && r.value !in taken && forall k | o <= k < r.value :: k in taken
    ensures r.None? ==> forall k | o <= k <= LAST :: k in taken
    decreases LAST + 1 - o
  {
    if o > LAST then None else if o !in taken then Some(o) else FreeFrom(taken, o + 1)
  }

  /** The octet a pod gets, if any: the one it has, or the first free one. */
  function Granted(s: Leases, pod: string): Option<nat> {
    if pod in s.byPod then Some(s.byPod[pod]) else FreeFrom(s.taken, FIRST)
  }

  function AfterAllocate(s: Leases, pod: string): Leases {
    var o := Granted(s, pod);
    if pod in s.byPod || o.None? then s else Leases(s.byPod[pod := o.value], s.taken + {o.value})
  }

  function AfterRelease(s: Leases, pod: string): Leases {
    if pod in s.byPod then Leases(s.byPod - {pod}, s.taken - {s.byPod[pod]}) else s
  }

  lemma AllocateOk(s: Leases, pod: string)
    requires LeasesOk(s)
    ensures LeasesOk(AfterAllocate(s, pod))
    ensures Granted(s, pod).Some? ==> AfterAllocate(s, pod).byPod == s.byPod[pod := Granted(s, pod).value]
    ensures Granted(s, pod).None? ==> AfterAllocate(s, pod) == s
  {
    var r := AfterAllocate(s, pod);
    if pod !in s.byPod && Granted(s, pod).Some? {
      forall o
        ensures o in r.taken <==> o == GATEWAY || exists p :: p in r.byPod && r.byPod[p] == o
      {
        if p :| p in s.byPod && s.byPod[p] == o {
          assert p in r.byPod && r.byPod[p] == o;
        }
        if o == Granted(s, pod).value {
          assert pod in r.byPod && r.byPod[pod] == o;
        }
      }
    } else if pod in s.byPod {
      assert s.byPod == s.byPod[pod := s.byPod[pod]];
    }
  }

  lemma ReleaseOk(s: Leases, pod: string)
    requires LeasesOk(s)
    ensures LeasesOk(AfterRelease(s, pod)) && AfterRelease(s, pod).byPod == s.byPod - {pod}
  {
    var r := AfterRelease(s, pod);
    if pod in s.byPod {
      forall o
        ensures o in r.taken <==> o == GATEWAY || exists p :: p in r.byPod && r.byPod[p] == o
      {
        if p :| p in s.byPod && s.byPod[p] == o {
          assert p != pod ==> p in r.byPod && r.byPod[p] == o;
        }
      }
    } else {
      assert s.byPod - {pod} == s.byPod;
    }
  }

  /** Allocation fails exactly when the pod has no octet and pods hold them all. */
  lemma ExhaustedMeans(s: Leases, pod: string)
    requires LeasesOk(s)
    ensures Granted(s, pod).None? <==>
      pod !in s.byPod && forall o: nat | Allocatable(o) :: exists p :: p in s.byPod && s.byPod[p] == o
  {
    if Granted(s, pod).None? {
      forall o: nat | Allocatable(o)
        ensures exists p :: p in s.byPod && s.byPod[p] == o
      {
        assert o in s.taken;
      }
    } else if pod !in s.byPod {
      var o := Granted(s, pod).value;
      assert Allocatable(o) && o !in s.taken;
    }
  }

  function Octets(lo: nat, hi: nat): (s: set<nat>)
    requires lo <= hi
    ensures |s| == hi - lo && forall o :: o in s <==> lo <= o < hi
    decreases hi - lo
  {
    if lo == hi then {} else Octets(lo, hi - 1) + {hi - 1}
  }

  /** Keys with different values are no more than the values. */
  lemma {:induction false} NoMoreKeys(m: map<string, nat>, values: set<nat>)
    requires forall p | p in m :: m[p] in values
    requires forall p, q | p in m && q in m && m[p] == m[q] :: p == q
    ensures |m| <= |values|
    decreases values
  {
    if m != map[] {
      var p :| p in m;
      NoMoreKeys(m - {p}, values - {m[p]});
      assert m.Keys == (m - {p}).Keys + {p};
    }
  }

  /** And values that keys have are no more than the keys. */
  lemma {:induction false} NoMoreValues(m: map<string, nat>, values: set<nat>)
    requires forall o | o in values :: exists p :: p in m && m[p] == o
    ensures |values| <= |m|
    decreases values
  {
    if o :| o in values {
      var p :| p in m && m[p] == o;
      forall x | x in values - {o}
        ensures exists q :: q in m - {p} && (m - {p})[q] == x
      {
        var q :| q in m && m[q] == x;
        assert q in m - {p} && (m - {p})[q] == x;
      }
      NoMoreValues(m - {p}, values - {o});
      assert m.Keys == (m - {p}).Keys + {p};
    }
  }

  lemma AtMostAll(s: Leases)
    requires LeasesOk(s)
    ensures |s.byPod| <= 253
  {
    NoMoreKeys(s.byPod, Octets(2, 255));
  }

  lemma FullMeansAll(s: Leases, pod: string)
    requires LeasesOk(s) && Granted(s, pod).None?
    ensures |s.byPod| == 253
  {
    var all := Octets(2, 255);
    forall o | o in all
      ensures exists p :: p in s.byPod && s.byPod[p] == o
    {
      ExhaustedMeans(s, pod);
      assert Allocatable(o);
    }
    NoMoreValues(s.byPod, all);
    AtMostAll(s);
  }

  /** There is room for 253 pods, at 2 to 254. */
  lemma RoomForAll(s: Leases, pod: string)
    requires LeasesOk(s)
    ensures |s.byPod| <= 253
    ensures Granted(s, pod).None? <==> pod !in s.byPod && |s.byPod| == 253
    ensures pod !in s.byPod && Granted(s, pod).Some? ==> 2 <= Granted(s, pod).value <= 254
  {
    AtMostAll(s);
    ExhaustedMeans(s, pod);
    if Granted(s, pod).None? {
      FullMeansAll(s, pod);
    } else if pod !in s.byPod {
      AllocateOk(s, pod);
      AtMostAll(AfterAllocate(s, pod));
      assert AfterAllocate(s, pod).byPod.Keys == s.byPod.Keys + {pod};
    }
  }

  /** Allocating again gives the same octet; releasing gives it back. */
  lemma AllocateIsStable(s: Leases, pod: string)
    requires LeasesOk(s) && Granted(s, pod).Some?
    ensures Granted(AfterAllocate(s, pod), pod) == Granted(s, pod)
    ensures pod !in s.byPod ==> AfterRelease(AfterAllocate(s, pod), pod) == s
  {
    AllocateOk(s, pod);
    if pod !in s.byPod {
      var o := Granted(s, pod).value;
      assert s.byPod[pod := o] - {pod} == s.byPod;
      assert s.taken + {o} - {o} == s.taken;
    }
  }

  class Ipam {
    var byPod: map<string, nat>
    var taken: set<nat>

    ghost function View(): Leases
      reads this
    {
      Leases(byPod, taken)
    }

    ghost predicate Valid()
      reads this
    {
      LeasesOk(View())
    }

    constructor ()
      ensures Valid() && byPod == map[]
    {
      byPod, taken := map[], {GATEWAY};
    }

    /** The pod's octet, or None when the range is exhausted. */
    method Allocate(pod: string) returns (octet: Option<nat>)
      requires Valid()
      modifies this
      ensures Valid() && View() == AfterAllocate(old(View()), pod) && octet == Granted(old(View()), pod)
    {
      AllocateOk(View(), pod);
      if pod in byPod {
        return Some(byPod[pod]);
      }
      var o := FIRST;
      while o <= LAST && o in taken
        invariant FIRST <= o <= LAST + 1 && FreeFrom(taken, o) == FreeFrom(taken, FIRST)
      {
        o := o + 1;
      }
      if o > LAST {
        return None;
      }
      taken := taken + {o};
      byPod := byPod[pod := o];
      octet := Some(o);
    }

    method Release(pod: string)
      requires Valid()
      modifies this
      ensures Valid() && View() == AfterRelease(old(View()), pod)
    {
      ReleaseOk(View(), pod);
      if pod in byPod {
        taken := taken - {byPod[pod]};
        byPod := byPod - {pod};
      }
    }
  }
}
