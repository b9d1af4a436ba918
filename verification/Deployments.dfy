/** The Deployment controller: create or delete pods until the owned count is
    the wanted one. */
module Deployments {
  import opened Wrappers
  import opened Cluster
  import opened Rows

  /** `template` carries the template's labels and spec. */
  datatype Deployment = Deployment(
    namespace: string, name: string, uid: string, matchLabels: Option<Labels>, template: Pod, replicas: Option<int>)

  function Desired(d: Deployment): int {
    d.replicas.GetOr(1)
  }

  /** The selector, or the template's labels when there is none; None when both
      are empty, which lists the whole namespace. */
  function EffectiveSelector(d: Deployment): Option<Labels> {
    var selector := d.matchLabels.GetOr(map[]);
    var effective := if selector == map[] then d.template.labels.GetOr(map[]) else selector;
    if effective == map[] then None else Some(effective)
  }

  /** The pods the controller counts for `d`: in its namespace, selected, owned. */
  predicate Counts(d: Deployment, p: Pod) {
    Selected(p, Some(d.namespace), EffectiveSelector(d)) && Owns(d, p)
  }

  predicate Owns(d: Deployment, p: Pod) {
    d.uid in p.owners
  }

  function OwnedPods(rows: seq<Pod>, d: Deployment): seq<Pod> {
    Filter(rows, p => Counts(d, p))
  }

  function Count(rows: seq<Pod>, d: Deployment): nat {
    |OwnedPods(rows, d)|
  }

  /** The pod created from the template. */
  function NewPod(d: Deployment, suffix: string): Pod {
    d.template.(namespace := d.namespace, name := GeneratedName(d.name, suffix), owners := [d.uid],
                phase := Some(Pending))
  }

  /** What the outside world decides during a pass: whether the listing succeeds,
      the random name suffixes, and which statements take effect. A statement's
      error is logged or ignored, so that a lost answer changes nothing more. */
  datatype Env = Env(listed: bool, suffix: nat -> string, ok: nat -> bool)

  /** The first `n` creations. */
  function CreatePods(rows: seq<Pod>, d: Deployment, env: Env, n: nat): (r: seq<Pod>)
    requires UniqueKeys(rows)
    ensures UniqueKeys(r)
  {
    if n == 0 then rows
    else
      var before := CreatePods(rows, d, env, n - 1);
      if env.ok(n - 1) then Put(before, NewPod(d, env.suffix(n - 1))) else before
  }

  /** The first `n` deletions from a list of victims. */
  function DeletePods(rows: seq<Pod>, namespace: string, victims: seq<Pod>, env: Env, n: nat): (r: seq<Pod>)
    requires UniqueKeys(rows) && n <= |victims|
    ensures UniqueKeys(r)
  {
    if n == 0 then rows
    else
      var before := DeletePods(rows, namespace, victims, env, n - 1);
      if env.ok(n - 1) then Remove(before, namespace, victims[n - 1].name) else before
  }

  /** How many of the owned pods a scale-down takes. */
  function Surplus(rows: seq<Pod>, d: Deployment): nat
    requires Count(rows, d) > Desired(d)
  {
    if Desired(d) < 0 then Count(rows, d) else Count(rows, d) - Desired(d)
  }

  function Reconcile(rows: seq<Pod>, d: Deployment, env: Env): (r: seq<Pod>)
    requires UniqueKeys(rows)
    ensures UniqueKeys(r)
  {
    if !env.listed then rows
    else if Count(rows, d) < Desired(d) then CreatePods(rows, d, env, Desired(d) - Count(rows, d))
    else if Count(rows, d) > Desired(d) then DeletePods(rows, d.namespace, OwnedPods(rows, d), env, Surplus(rows, d))
    else rows
  }

  /** One pass over all deployments, in listing order, after the first `n`. */
  function ReconcileAll(rows: seq<Pod>, ds: seq<Deployment>, envs: seq<Env>, n: nat): (r: seq<Pod>)
    requires UniqueKeys(rows) && n <= |ds| == |envs|
    ensures UniqueKeys(r)
  {
    if n == 0 then rows else Reconcile(ReconcileAll(rows, ds, envs, n - 1), ds[n - 1], envs[n - 1])
  }

  class ControllerManager {
    const table: PodTable

    constructor (table: PodTable)
      ensures this.table == table
    {
      this.table := table;
    }

    /** The number of ready pods, unless the listing fails. */
    method ReconcileDeployment(d: Deployment, env: Env) returns (ready: Option<nat>)
      requires table.Valid()
      modifies table
      ensures table.Valid() && table.rows == Reconcile(old(table.rows), d, env)
      ensures ready == if env.listed then Some(|Filter(OwnedPods(old(table.rows), d), IsRunning)|) else None
    {
      if !env.listed {
        return None;
      }
      var pods := table.List(Some(d.namespace), EffectiveSelector(d));
      var owned := Filter(pods, p => Owns(d, p));
      OwnedListing(table.rows, d);
      var current, desired := |owned|, Desired(d);
      if current < desired {
        CreateMany(d, env, desired - current);
      } else if current > desired {
        DeleteFirst(d.namespace, owned, env, if current - desired < |owned| then current - desired else |owned|);
      }
      ready := Some(|Filter(owned, IsRunning)|);
    }

    method CreateMany(d: Deployment, env: Env, n: nat)
      requires table.Valid()
      modifies table
      ensures table.Valid() && table.rows == CreatePods(old(table.rows), d, env, n)
    {
      ghost var rows := table.rows;
      for i := 0 to n
        invariant table.Valid() && table.rows == CreatePods(rows, d, env, i)
      {
        if env.ok(i) {
          table.Create(NewPod(d, env.suffix(i)));
        }
      }
    }

    method DeleteFirst(namespace: string, victims: seq<Pod>, env: Env, n: nat)
      requires table.Valid() && n <= |victims|
      modifies table
      ensures table.Valid() && table.rows == DeletePods(old(table.rows), namespace, victims, env, n)
    {
      ghost var rows := table.rows;
      for i := 0 to n
        invariant table.Valid() && table.rows == DeletePods(rows, namespace, victims, env, i)
      {
        if env.ok(i) {
          var _ := table.Delete(namespace, victims[i].name);
        }
      }
    }

    method ReconcileDeployments(ds: seq<Deployment>, envs: seq<Env>)
      requires table.Valid() && |envs| == |ds|
      modifies table
      ensures table.Valid() && table.rows == ReconcileAll(old(table.rows), ds, envs, |ds|)
    {
      ghost var rows := table.rows;
      for i := 0 to |ds|
        invariant table.Valid() && table.rows == ReconcileAll(rows, ds, envs, i)
      {
        var _ := ReconcileDeployment(ds[i], envs[i]);
      }
    }
  }

  lemma OwnedListing(rows: seq<Pod>, d: Deployment)
    ensures Filter(ListPods(rows, Some(d.namespace), EffectiveSelector(d)), p => Owns(d, p)) == OwnedPods(rows, d)
  {
    FilterTwice(rows, p => Selected(p, Some(d.namespace), EffectiveSelector(d)), p => Owns(d, p), p => Counts(d, p));
  }

  // ---------------------------------------------------------------------
  // One deployment
  // ---------------------------------------------------------------------

  /** The premise the controller does not check: created pods are selected. */
  predicate SelectsItsTemplate(d: Deployment) {
    EffectiveSelector(d).Some? ==>
      d.template.labels.Some? && Contains(d.template.labels.value, EffectiveSelector(d).value)
  }

  /** The drawn names are unused and all different. */
  predicate FreshNames(rows: seq<Pod>, d: Deployment, env: Env, n: nat) {
    (forall k | 0 <= k < n :: !Present(rows, d.namespace, GeneratedName(d.name, env.suffix(k)))) &&
    (forall j, k | 0 <= j < k < n :: env.suffix(j) != env.suffix(k))
  }

  function Successes(env: Env, n: nat): (s: nat)
    ensures s <= n
    ensures (forall k | 0 <= k < n :: env.ok(k)) ==> s == n
  {
    if n == 0 then 0 else Successes(env, n - 1) + if env.ok(n - 1) then 1 else 0
  }

  /** How many of the `n` statements a pass has to issue take effect. */
  function Done(env: Env, n: nat): nat {
    if env.listed then Successes(env, n) else 0
  }

  /** Nothing fails in a pass of `n` statements. */
  predicate AllSucceed(env: Env, n: nat) {
    env.listed && forall k | 0 <= k < n :: env.ok(k)
  }

  /** The creations leave every drawn name still to come unused, keep every old
      row, and add to each count what succeeded. */
  lemma {:induction false} CreationsCount(rows: seq<Pod>, d: Deployment, env: Env, n: nat, m: nat, f: Pod -> bool,
                                          adds: bool)
    requires UniqueKeys(rows) && n <= m && FreshNames(rows, d, env, m)
    requires forall s :: f(Stored(NewPod(d, s))) == adds
    ensures |Filter(CreatePods(rows, d, env, n), f)| == |Filter(rows, f)| + if adds then Successes(env, n) else 0
    ensures |CreatePods(rows, d, env, n)| == |rows| + Successes(env, n)
    ensures forall k | n <= k < m ::
      !Present(CreatePods(rows, d, env, n), d.namespace, GeneratedName(d.name, env.suffix(k)))
    ensures forall p | p in rows :: p in CreatePods(rows, d, env, n)
  {
    if n > 0 {
      CreationsCount(rows, d, env, n - 1, m, f, adds);
      var before := CreatePods(rows, d, env, n - 1);
      var p := NewPod(d, env.suffix(n - 1));
      if env.ok(n - 1) {
        PutFreshCounts(before, p, f);
        var after := Put(before, p);
        assert after == [Stored(p)] + before;
        forall k | n <= k < m
          ensures !Present(after, d.namespace, GeneratedName(d.name, env.suffix(k)))
        {
          SuffixDecidesName(d.name, env.suffix(n - 1), env.suffix(k));
          NotPresent(before, d.namespace, GeneratedName(d.name, env.suffix(k)));
          NotPresent(after, d.namespace, GeneratedName(d.name, env.suffix(k)));
        }
      }
    }
  }

  /** One deletion, counted by a condition all victims or none satisfy. */
  lemma DeleteOne(rows: seq<Pod>, namespace: string, victims: seq<Pod>, n: nat, f: Pod -> bool)
    requires UniqueKeys(rows) && UniqueKeys(victims) && n < |victims| && StillIn(rows, victims, n) &&
      victims[n].namespace == namespace
    ensures |Filter(Remove(rows, namespace, victims[n].name), f)| == |Filter(rows, f)| - if f(victims[n]) then 1 else 0
    ensures StillIn(Remove(rows, namespace, victims[n].name), victims, n + 1)
  {
    assert victims[n] in rows;
    RemoveCounts(rows, victims[n], f);
    RemoveNext(rows, victims, n);
  }

  predicate AreVictims(rows: seq<Pod>, namespace: string, victims: seq<Pod>) {
    UniqueKeys(victims) && StillIn(rows, victims, 0) && forall v | v in victims :: v.namespace == namespace
  }

  /** The deletions take exactly the victims whose statement succeeded. */
  lemma {:induction false} DeletionsCount(rows: seq<Pod>, namespace: string, victims: seq<Pod>, env: Env, n: nat,
                                          f: Pod -> bool, takes: bool)
    requires UniqueKeys(rows) && n <= |victims| && AreVictims(rows, namespace, victims)
    requires forall v | v in victims :: f(v) == takes
    ensures |Filter(DeletePods(rows, namespace, victims, env, n), f)|
         == |Filter(rows, f)| - if takes then Successes(env, n) else 0
    ensures StillIn(DeletePods(rows, namespace, victims, env, n), victims, n)
  {
    if n > 0 {
      DeletionsCount(rows, namespace, victims, env, n - 1, f, takes);
      assert victims[n - 1] in victims;
      DeleteOne(DeletePods(rows, namespace, victims, env, n - 1), namespace, victims, n - 1, f);
    }
  }

  /** They add no row, and remove none that is not a victim. */
  lemma {:induction false} DeletionsSpare(rows: seq<Pod>, namespace: string, victims: seq<Pod>, env: Env, n: nat,
                                          p: Pod)
    requires UniqueKeys(rows) && n <= |victims| && AreVictims(rows, namespace, victims)
    ensures p in DeletePods(rows, namespace, victims, env, n) ==> p in rows
    ensures p in rows && p !in victims ==> p in DeletePods(rows, namespace, victims, env, n)
  {
    if n > 0 {
      DeletionsSpare(rows, namespace, victims, env, n - 1, p);
      var v := victims[n - 1];
      assert v in victims && v in rows;
      if p in rows && p !in victims {
        KeyDecides(rows, p, v);
      }
    }
  }

  /** The count a deployment settles at. */
  function Target(d: Deployment): nat {
    if Desired(d) < 0 then 0 else Desired(d)
  }

  /** How many statements a pass over `d` issues. */
  function Gap(rows: seq<Pod>, d: Deployment): nat {
    var c, t := Count(rows, d), Target(d);
    if c < t then t - c else c - t
  }

  /** A count that has moved `s` steps towards its target. */
  function Moved(c: nat, t: nat, s: nat): int {
    if c < t then c + s else c - s
  }

  /** If the pass creates pods, it draws unused names. */
  predicate FreshTurn(rows: seq<Pod>, d: Deployment, env: Env) {
    env.listed && Count(rows, d) < Target(d) ==> FreshNames(rows, d, env, Gap(rows, d))
  }

  /** What a pass does, by where the count stands. */
  lemma ReconcileIs(rows: seq<Pod>, d: Deployment, env: Env)
    requires UniqueKeys(rows) && env.listed
    ensures
      var c, gap := Count(rows, d), Gap(rows, d);
      (c < Target(d) ==> Reconcile(rows, d, env) == CreatePods(rows, d, env, gap)) &&
      (c > Target(d) ==> Reconcile(rows, d, env) == DeletePods(rows, d.namespace, OwnedPods(rows, d), env, gap)) &&
      (c == Target(d) ==> Reconcile(rows, d, env) == rows)
  {
  }

  /** One pass moves the count towards the target by exactly the number of
      statements that took effect. */
  lemma ReconcileMovesCount(rows: seq<Pod>, d: Deployment, env: Env)
    requires UniqueKeys(rows) && SelectsItsTemplate(d)
    requires FreshTurn(rows, d, env)
    ensures Count(Reconcile(rows, d, env), d) == Moved(Count(rows, d), Target(d), Done(env, Gap(rows, d)))
  {
    if env.listed {
      ReconcileIs(rows, d, env);
      if Count(rows, d) < Target(d) {
        GrowsBy(rows, d, env, Gap(rows, d));
      } else if Count(rows, d) > Target(d) {
        ScaleDownCounts(rows, d, env, Gap(rows, d), p => Counts(d, p), true);
      }
    }
  }

  lemma GrowsBy(rows: seq<Pod>, d: Deployment, env: Env, n: nat)
    requires UniqueKeys(rows) && SelectsItsTemplate(d) && FreshNames(rows, d, env, n)
    ensures Count(CreatePods(rows, d, env, n), d) == Count(rows, d) + Successes(env, n)
  {
    CreationsCount(rows, d, env, n, n, p => Counts(d, p), true);
  }

  /** Deleting the first owned pods takes from a count what was deleted, if the
      count covers all owned pods, or nothing, if it covers none. */
  lemma ScaleDownCounts(rows: seq<Pod>, d: Deployment, env: Env, n: nat, f: Pod -> bool, takes: bool)
    requires UniqueKeys(rows) && n <= Count(rows, d) && forall p | p in rows && Counts(d, p) :: f(p) == takes
    ensures |Filter(DeletePods(rows, d.namespace, OwnedPods(rows, d), env, n), f)|
         == |Filter(rows, f)| - if takes then Successes(env, n) else 0
  {
    OwnedPodsAreVictims(rows, d);
    DeletionsCount(rows, d.namespace, OwnedPods(rows, d), env, n, f, takes);
  }

  lemma OwnedPodsAreVictims(rows: seq<Pod>, d: Deployment)
    requires UniqueKeys(rows)
    ensures AreVictims(rows, d.namespace, OwnedPods(rows, d))
  {
    FilterUnique(rows, p => Counts(d, p));
    var owned := OwnedPods(rows, d);
    forall k | 0 <= k < |owned|
      ensures owned[k] in rows
    {
      assert owned[k] in owned;
    }
  }

  /** With every statement succeeding, one pass reaches the target. */
  lemma DeploymentConverges(rows: seq<Pod>, d: Deployment, env: Env)
    requires UniqueKeys(rows) && SelectsItsTemplate(d)
    requires FreshTurn(rows, d, env)
    requires AllSucceed(env, Gap(rows, d))
    ensures Count(Reconcile(rows, d, env), d) == Target(d)
  {
    ReconcileMovesCount(rows, d, env);
  }

  /** When pods are missing, the containment premise is exactly what decides: a
      template its selector does not select is created again in full on every
      pass, and never counted. */
  lemma ConvergesIffSelected(rows: seq<Pod>, d: Deployment, env: Env)
    requires UniqueKeys(rows) && Count(rows, d) < Target(d) && FreshNames(rows, d, env, Gap(rows, d))
    requires AllSucceed(env, Gap(rows, d))
    ensures Count(Reconcile(rows, d, env), d) == Target(d) <==> SelectsItsTemplate(d)
    ensures !SelectsItsTemplate(d) ==> Count(Reconcile(rows, d, env), d) == Count(rows, d)
    ensures |Reconcile(rows, d, env)| == |rows| + Gap(rows, d)
  {
    var n := Gap(rows, d);
    CreationsCount(rows, d, env, n, n, p => Counts(d, p), SelectsItsTemplate(d));
  }

  /** A pod the controller creates is in the scheduler's next listing exactly
      when the template names no node. */
  lemma CreatedPodAwaitsScheduling(rows: seq<Pod>, d: Deployment, suffix: string)
    requires UniqueKeys(rows)
    ensures NewPod(d, suffix) in ListUnscheduled(Put(rows, NewPod(d, suffix))) <==> d.template.nodeName.None?
  {
    ListedIfUnscheduled(Put(rows, NewPod(d, suffix)), NewPod(d, suffix));
  }

  // ---------------------------------------------------------------------
  // Several deployments
  // ---------------------------------------------------------------------

  /** A row a pass leaves behind is an old row or a pod of this deployment. */
  lemma {:induction false} CreatedOrOld(rows: seq<Pod>, d: Deployment, env: Env, n: nat, p: Pod)
    requires UniqueKeys(rows) && p in CreatePods(rows, d, env, n)
    ensures p in rows || p.owners == [d.uid]
  {
    if n > 0 {
      var before := CreatePods(rows, d, env, n - 1);
      if p in before {
        CreatedOrOld(rows, d, env, n - 1, p);
      }
    }
  }

  /** A pass over `d` deletes and changes no pod that lacks its uid, and adds
      only pods that carry no other. */
  lemma ReconcileSparesOthers(rows: seq<Pod>, d: Deployment, env: Env, p: Pod)
    requires UniqueKeys(rows)
    requires FreshTurn(rows, d, env)
    ensures p in rows && d.uid !in p.owners ==> p in Reconcile(rows, d, env)
    ensures p in Reconcile(rows, d, env) ==> p in rows || p.owners == [d.uid]
  {
    var c, gap := Count(rows, d), Gap(rows, d);
    if env.listed && c < Target(d) {
      CreationsCount(rows, d, env, gap, gap, q => false, false);
      if p in CreatePods(rows, d, env, gap) {
        CreatedOrOld(rows, d, env, gap, p);
      }
    } else if env.listed && c > Target(d) {
      OwnedPodsAreVictims(rows, d);
      DeletionsSpare(rows, d.namespace, OwnedPods(rows, d), env, gap, p);
    }
  }

  /** No pod carries the uids of both. */
  predicate Apart(rows: seq<Pod>, d: Deployment, e: Deployment) {
    d.uid != e.uid && forall p | p in rows :: !(d.uid in p.owners && e.uid in p.owners)
  }

  lemma ReconcileKeepsApart(rows: seq<Pod>, d: Deployment, env: Env, e: Deployment, f: Deployment)
    requires UniqueKeys(rows) && Apart(rows, e, f)
    requires FreshTurn(rows, d, env)
    ensures Apart(Reconcile(rows, d, env), e, f)
  {
    forall p | p in Reconcile(rows, d, env)
      ensures !(e.uid in p.owners && f.uid in p.owners)
    {
      ReconcileSparesOthers(rows, d, env, p);
    }
  }

  /** A pass over `d` leaves every other deployment's count alone. */
  lemma ReconcileKeepsOtherCounts(rows: seq<Pod>, d: Deployment, env: Env, e: Deployment)
    requires UniqueKeys(rows) && Apart(rows, d, e)
    requires FreshTurn(rows, d, env)
    ensures Count(Reconcile(rows, d, env), e) == Count(rows, e)
  {
    var c, gap := Count(rows, d), Gap(rows, d);
    if env.listed && c < Target(d) {
      CreationsCount(rows, d, env, gap, gap, p => Counts(e, p), false);
    } else if env.listed && c > Target(d) {
      ScaleDownCounts(rows, d, env, gap, p => Counts(e, p), false);
    }
  }

  /** Each of the first `n` deployments draws fresh names when its turn comes. */
  predicate FreshPass(rows: seq<Pod>, ds: seq<Deployment>, envs: seq<Env>, n: nat)
    requires UniqueKeys(rows) && n <= |ds| == |envs|
  {
    n == 0 || (FreshPass(rows, ds, envs, n - 1) &&
               FreshTurn(ReconcileAll(rows, ds, envs, n - 1), ds[n - 1], envs[n - 1]))
  }

  lemma {:induction false} FreshAtTurn(rows: seq<Pod>, ds: seq<Deployment>, envs: seq<Env>, n: nat, i: nat)
    requires UniqueKeys(rows) && i < n <= |ds| == |envs| && FreshPass(rows, ds, envs, n)
    ensures FreshTurn(ReconcileAll(rows, ds, envs, i), ds[i], envs[i])
  {
    if i < n - 1 {
      FreshAtTurn(rows, ds, envs, n - 1, i);
    }
  }

  /** Premises of a full pass: the deployments' pods are apart, each selects its
      template, and each draws fresh names when its turn comes. */
  predicate Independent(rows: seq<Pod>, ds: seq<Deployment>, envs: seq<Env>)
    requires UniqueKeys(rows) && |envs| == |ds|
  {
    (forall i, j | 0 <= i < |ds| && 0 <= j < |ds| && i != j :: Apart(rows, ds[i], ds[j])) &&
    (forall i | 0 <= i < |ds| :: SelectsItsTemplate(ds[i])) &&
    FreshPass(rows, ds, envs, |ds|)
  }

  lemma {:induction false} PassKeepsApart(rows: seq<Pod>, ds: seq<Deployment>, envs: seq<Env>, n: nat, e: Deployment,
                                          f: Deployment)
    requires UniqueKeys(rows) && n <= |ds| == |envs| && FreshPass(rows, ds, envs, n)
    requires Apart(rows, e, f)
    ensures Apart(ReconcileAll(rows, ds, envs, n), e, f)
  {
    if n > 0 {
      PassKeepsApart(rows, ds, envs, n - 1, e, f);
      ReconcileKeepsApart(ReconcileAll(rows, ds, envs, n - 1), ds[n - 1], envs[n - 1], e, f);
    }
  }

  lemma {:induction false} FreshPrefix(rows: seq<Pod>, ds: seq<Deployment>, envs: seq<Env>, n: nat, m: nat)
    requires UniqueKeys(rows) && n <= m <= |ds| == |envs| && FreshPass(rows, ds, envs, m)
    ensures FreshPass(rows, ds, envs, n)
  {
    if n < m {
      FreshPrefix(rows, ds, envs, n, m - 1);
    }
  }

  /** A pod that carries none of the uids comes through a full pass unchanged, and
      a pass adds only pods that carry one of them and no other. */
  lemma {:induction false} FullPassSparesOthers(rows: seq<Pod>, ds: seq<Deployment>, envs: seq<Env>, n: nat, p: Pod)
    requires UniqueKeys(rows) && n <= |ds| == |envs| && FreshPass(rows, ds, envs, n)
    ensures p in rows && (forall i | 0 <= i < n :: ds[i].uid !in p.owners) ==> p in ReconcileAll(rows, ds, envs, n)
    ensures p in ReconcileAll(rows, ds, envs, n) ==> p in rows || exists i | 0 <= i < n :: p.owners == [ds[i].uid]
  {
    if n > 0 {
      FullPassSparesOthers(rows, ds, envs, n - 1, p);
      ReconcileSparesOthers(ReconcileAll(rows, ds, envs, n - 1), ds[n - 1], envs[n - 1], p);
    }
  }

  /** Another deployment's turn leaves a count alone. */
  lemma OtherTurn(rows: seq<Pod>, ds: seq<Deployment>, envs: seq<Env>, n: nat, i: nat)
    requires UniqueKeys(rows) && |envs| == |ds| && Independent(rows, ds, envs) && n < |ds| && i < |ds| && i != n
    ensures Count(ReconcileAll(rows, ds, envs, n + 1), ds[i]) == Count(ReconcileAll(rows, ds, envs, n), ds[i])
  {
    FreshPrefix(rows, ds, envs, n, |ds|);
    PassKeepsApart(rows, ds, envs, n, ds[n], ds[i]);
    FreshAtTurn(rows, ds, envs, |ds|, n);
    ReconcileKeepsOtherCounts(ReconcileAll(rows, ds, envs, n), ds[n], envs[n], ds[i]);
  }

  lemma {:induction false} Constant(c: seq<nat>, lo: nat, hi: nat)
    requires lo <= hi < |c| && forall k | lo <= k < hi :: c[k + 1] == c[k]
    ensures c[hi] == c[lo]
  {
    if lo < hi {
      Constant(c, lo, hi - 1);
    }
  }

  /** One deployment's count after each turn of the pass. */
  function CountHistory(rows: seq<Pod>, ds: seq<Deployment>, envs: seq<Env>, d: Deployment): (c: seq<nat>)
    requires UniqueKeys(rows) && |envs| == |ds|
    ensures |c| == |ds| + 1
    ensures forall n | 0 <= n <= |ds| :: c[n] == Count(ReconcileAll(rows, ds, envs, n), d)
  {
    seq(|ds| + 1, n requires 0 <= n <= |ds| => Count(ReconcileAll(rows, ds, envs, n), d))
  }

  /** A count stands still between turns that are not the deployment's own. */
  lemma CountBetweenTurns(rows: seq<Pod>, ds: seq<Deployment>, envs: seq<Env>, lo: nat, hi: nat, i: nat)
    requires UniqueKeys(rows) && |envs| == |ds| && Independent(rows, ds, envs)
    requires lo <= hi <= |ds| && i < |ds| && !(lo <= i < hi)
    ensures CountHistory(rows, ds, envs, ds[i])[hi] == CountHistory(rows, ds, envs, ds[i])[lo]
  {
    forall k | lo <= k < hi
      ensures CountHistory(rows, ds, envs, ds[i])[k + 1] == CountHistory(rows, ds, envs, ds[i])[k]
    {
      OtherTurn(rows, ds, envs, k, i);
    }
    Constant(CountHistory(rows, ds, envs, ds[i]), lo, hi);
  }

  /** After its own turn the count has moved. */
  lemma OwnTurn(rows: seq<Pod>, ds: seq<Deployment>, envs: seq<Env>, i: nat)
    requires UniqueKeys(rows) && |envs| == |ds| && Independent(rows, ds, envs) && i < |ds|
    ensures CountHistory(rows, ds, envs, ds[i])[i + 1]
         == Moved(Count(rows, ds[i]), Target(ds[i]), Done(envs[i], Gap(rows, ds[i])))
  {
    var before := ReconcileAll(rows, ds, envs, i);
    CountBetweenTurns(rows, ds, envs, 0, i, i);
    FreshAtTurn(rows, ds, envs, |ds|, i);
    ReconcileMovesCount(before, ds[i], envs[i]);
    assert Gap(before, ds[i]) == Gap(rows, ds[i]);
  }

  /** A full pass moves every deployment, simultaneously, towards its target by
      the number of its statements that succeeded. */
  lemma FullPass(rows: seq<Pod>, ds: seq<Deployment>, envs: seq<Env>, i: nat)
    requires UniqueKeys(rows) && |envs| == |ds| && Independent(rows, ds, envs) && i < |ds|
    ensures CountHistory(rows, ds, envs, ds[i])[|ds|]
         == Moved(Count(rows, ds[i]), Target(ds[i]), Done(envs[i], Gap(rows, ds[i])))
  {
    var c, moved := CountHistory(rows, ds, envs, ds[i]),
        Moved(Count(rows, ds[i]), Target(ds[i]), Done(envs[i], Gap(rows, ds[i])));
    assert c[i + 1] == moved by {
      OwnTurn(rows, ds, envs, i);
    }
    assert c[|ds|] == c[i + 1] by {
      CountBetweenTurns(rows, ds, envs, i + 1, |ds|, i);
    }
  }

  /** No overshoot under any failures; all targets met without any. */
  lemma FullPassConverges(rows: seq<Pod>, ds: seq<Deployment>, envs: seq<Env>, i: nat)
    requires UniqueKeys(rows) && |envs| == |ds| && Independent(rows, ds, envs) && i < |ds|
    ensures
      var c, t, after := Count(rows, ds[i]), Target(ds[i]), Count(ReconcileAll(rows, ds, envs, |ds|), ds[i]);
      (c <= t ==> c <= after <= t) && (t <= c ==> t <= after <= c) &&
      (AllSucceed(envs[i], Gap(rows, ds[i])) ==> after == t)
  {
    FullPass(rows, ds, envs, i);
  }
}
