/** The DaemonSet controller: one pod on every Ready node that matches. */
module DaemonSets {
  import opened Wrappers
  import opened Cluster
  import opened Rows

  datatype DaemonSet = DaemonSet(
    namespace: string, name: string, uid: string, matchLabels: Option<Labels>, template: Pod)

  predicate Matches(d: DaemonSet, n: Node) {
    d.template.nodeSelector.Some? ==> Contains(n.labels.GetOr(map[]), d.template.nodeSelector.value)
  }

  /** The nodes that should run the daemon, in listing order. */
  function Targets(d: DaemonSet, nodes: seq<Node>): seq<Node> {
    Filter(nodes, n => Matches(d, n))
  }

  function Names(nodes: seq<Node>): set<string> {
    set n | n in nodes :: n.name
  }

  /** The selector, or the template's labels when the set has none. */
  function EffectiveSelector(d: DaemonSet): Labels {
    d.matchLabels.GetOr(d.template.labels.GetOr(map[]))
  }

  /** The pods the controller takes for the set's; an empty selector finds none. */
  predicate Owned(d: DaemonSet, p: Pod) {
    EffectiveSelector(d) != map[] && Selected(p, Some(d.namespace), Some(EffectiveSelector(d))) && d.uid in p.owners
  }

  function OwnedPods(rows: seq<Pod>, d: DaemonSet): seq<Pod> {
    Filter(rows, p => Owned(d, p))
  }

  /** The nodes that already have an owned pod. */
  function Covered(owned: seq<Pod>): set<string> {
    set p | p in owned && p.nodeName.Some? :: p.nodeName.value
  }

  /** The pod created for a node, bound to it from the start. */
  function NewPod(d: DaemonSet, suffix: string, node: string): Pod {
    d.template.(namespace := d.namespace, name := GeneratedName(d.name, suffix), owners := [d.uid],
                nodeName := Some(node), phase := Some(Pending))
  }

  /** The random name suffix for each target, and which statements take effect;
      their errors are logged or ignored, so a lost answer changes nothing more. */
  datatype Env = Env(suffix: nat -> string, createOk: nat -> bool, deleteOk: nat -> bool)

  /** The creations for the first `n` targets. */
  function CreateMissing(rows: seq<Pod>, d: DaemonSet, targets: seq<Node>, covered: set<string>, env: Env,
                         n: nat): (r: seq<Pod>)
    requires UniqueKeys(rows) && n <= |targets|
    ensures UniqueKeys(r)
  {
    if n == 0 then rows
    else
      var before := CreateMissing(rows, d, targets, covered, env, n - 1);
      if targets[n - 1].name !in covered && env.createOk(n - 1)
      then Put(before, NewPod(d, env.suffix(n - 1), targets[n - 1].name))
      else before
  }

  /** A pod bound to a node outside the targets. */
  predicate Stray(p: Pod, names: set<string>) {
    p.nodeName.Some? && p.nodeName.value !in names
  }

  /** The deletions among the first `n` owned pods. */
  function DeleteStray(rows: seq<Pod>, d: DaemonSet, owned: seq<Pod>, names: set<string>, env: Env,
                       n: nat): (r: seq<Pod>)
    requires UniqueKeys(rows) && n <= |owned|
    ensures UniqueKeys(r)
  {
    if n == 0 then rows
    else
      var before := DeleteStray(rows, d, owned, names, env, n - 1);
      if Stray(owned[n - 1], names) && env.deleteOk(n - 1)
      then Remove(before, d.namespace, owned[n - 1].name)
      else before
  }

  function Reconcile(rows: seq<Pod>, d: DaemonSet, nodes: seq<Node>, env: Env): (r: seq<Pod>)
    requires UniqueKeys(rows)
    ensures UniqueKeys(r)
  {
    var targets, owned := Targets(d, nodes), OwnedPods(rows, d);
    var created := CreateMissing(rows, d, targets, Covered(owned), env, |targets|);
    DeleteStray(created, d, owned, Names(targets), env, |owned|)
  }

  class ControllerManager {
    const table: PodTable

    constructor (table: PodTable)
      ensures this.table == table
    {
      this.table := table;
    }

    method ReconcileDaemonSet(d: DaemonSet, nodes: seq<Node>, env: Env) returns (desired: nat, current: nat, ready: nat)
      requires table.Valid()
      modifies table
      ensures table.Valid() && table.rows == Reconcile(old(table.rows), d, nodes, env)
      ensures desired == |Targets(d, nodes)| && current == |OwnedPods(old(table.rows), d)|
      ensures ready == |Filter(OwnedPods(old(table.rows), d), IsRunning)|
    {
      var targets := Targets(d, nodes);
      var owned := ListOwned(d);
      CreateOnTargets(d, targets, Covered(owned), env);
      DeleteOffTargets(d, owned, Names(targets), env);
      desired, current, ready := |targets|, |owned|, |Filter(owned, IsRunning)|;
    }

    method ListOwned(d: DaemonSet) returns (owned: seq<Pod>)
      ensures owned == OwnedPods(table.rows, d)
    {
      var selector := EffectiveSelector(d);
      var existing := [];
      if selector != map[] {
        existing := table.List(Some(d.namespace), Some(selector));
      }
      owned := Filter(existing, (p: Pod) => d.uid in p.owners);
      OwnedListing(table.rows, d);
    }

    method CreateOnTargets(d: DaemonSet, targets: seq<Node>, covered: set<string>, env: Env)
      requires table.Valid()
      modifies table
      ensures table.Valid() && table.rows == CreateMissing(old(table.rows), d, targets, covered, env, |targets|)
    {
      ghost var rows := table.rows;
      for i := 0 to |targets|
        invariant table.Valid() && table.rows == CreateMissing(rows, d, targets, covered, env, i)
      {
        if targets[i].name in covered {
          continue;
        }
        if env.createOk(i) {
          table.Create(NewPod(d, env.suffix(i), targets[i].name));
        }
      }
    }

    method DeleteOffTargets(d: DaemonSet, owned: seq<Pod>, names: set<string>, env: Env)
      requires table.Valid()
      modifies table
      ensures table.Valid() && table.rows == DeleteStray(old(table.rows), d, owned, names, env, |owned|)
    {
      ghost var rows := table.rows;
      for i := 0 to |owned|
        invariant table.Valid() && table.rows == DeleteStray(rows, d, owned, names, env, i)
      {
        if Stray(owned[i], names) && env.deleteOk(i) {
          var _ := table.Delete(d.namespace, owned[i].name);
        }
      }
    }
  }

  lemma OwnedListing(rows: seq<Pod>, d: DaemonSet)
    ensures
      var selector := EffectiveSelector(d);
      var listed := if selector != map[] then ListPods(rows, Some(d.namespace), Some(selector)) else [];
      Filter(listed, (p: Pod) => d.uid in p.owners) == OwnedPods(rows, d)
  {
    if EffectiveSelector(d) != map[] {
      FilterTwice(rows, p => Selected(p, Some(d.namespace), Some(EffectiveSelector(d))),
                  (p: Pod) => d.uid in p.owners, p => Owned(d, p));
    } else {
      FilterNothing(rows, p => Owned(d, p));
    }
  }

  lemma {:induction false} FilterNothing<T(!new)>(s: seq<T>, f: T -> bool)
    requires forall x | x in s :: !f(x)
    ensures Filter(s, f) == []
  {
    if s != [] {
      FilterNothing(s[..|s| - 1], f);
    }
  }

  // ---------------------------------------------------------------------
  // Owned pods on one node
  // ---------------------------------------------------------------------

  predicate OnNode(d: DaemonSet, node: string, p: Pod) {
    Owned(d, p) && p.nodeName == Some(node)
  }

  function CountOn(rows: seq<Pod>, d: DaemonSet, node: string): nat {
    |Filter(rows, p => OnNode(d, node, p))|
  }

  /** The premise the controller does not check: created pods are owned. */
  predicate SelectsItsTemplate(d: DaemonSet) {
    EffectiveSelector(d) != map[] && d.template.labels.Some? && Contains(d.template.labels.value, EffectiveSelector(d))
  }

  predicate FreshNames(rows: seq<Pod>, d: DaemonSet, env: Env, n: nat) {
    (forall k | 0 <= k < n :: !Present(rows, d.namespace, GeneratedName(d.name, env.suffix(k)))) &&
    (forall j, k | 0 <= j < k < n :: env.suffix(j) != env.suffix(k))
  }

  /** How many of the first `n` targets are `node`, uncovered, and got their pod. */
  function Created(targets: seq<Node>, covered: set<string>, env: Env, n: nat, node: string): nat
    requires n <= |targets|
  {
    if n == 0 then 0
    else Created(targets, covered, env, n - 1, node) +
         if targets[n - 1].name == node && node !in covered && env.createOk(n - 1) then 1 else 0
  }

  /** One creation under a name still unused leaves the later names unused. */
  lemma CreateOne(rows: seq<Pod>, d: DaemonSet, env: Env, n: nat, m: nat, target: string, node: string)
    requires UniqueKeys(rows) && n < m
    requires forall k | n <= k < m :: !Present(rows, d.namespace, GeneratedName(d.name, env.suffix(k)))
    requires forall j, k | 0 <= j < k < m :: env.suffix(j) != env.suffix(k)
    ensures
      var after := Put(rows, NewPod(d, env.suffix(n), target));
      CountOn(after, d, node) == CountOn(rows, d, node) + (if target == node && SelectsItsTemplate(d) then 1 else 0) &&
      (forall k | n < k < m :: !Present(after, d.namespace, GeneratedName(d.name, env.suffix(k)))) &&
      (forall p | p in rows :: p in after)
  {
    var p := NewPod(d, env.suffix(n), target);
    var after := Put(rows, p);
    PutFreshCounts(rows, p, q => OnNode(d, node, q));
    assert after == [Stored(p)] + rows;
    forall k | n < k < m
      ensures !Present(after, d.namespace, GeneratedName(d.name, env.suffix(k)))
    {
      SuffixDecidesName(d.name, env.suffix(n), env.suffix(k));
      NotPresent(rows, d.namespace, GeneratedName(d.name, env.suffix(k)));
      NotPresent(after, d.namespace, GeneratedName(d.name, env.suffix(k)));
    }
  }

  /** The first `n` creations added, on each node, what succeeded there, if
      created pods are selected at all; they lost nothing, and left the names of
      the creations to come unused. */
  predicate CreatedSoFar(rows: seq<Pod>, after: seq<Pod>, d: DaemonSet, targets: seq<Node>, covered: set<string>,
                         env: Env, n: nat, node: string)
    requires n <= |targets|
  {
    var created := if SelectsItsTemplate(d) then Created(targets, covered, env, n, node) else 0;
    CountOn(after, d, node) == CountOn(rows, d, node) + created &&
    (forall k | n <= k < |targets| :: !Present(after, d.namespace, GeneratedName(d.name, env.suffix(k)))) &&
    (forall p | p in rows :: p in after)
  }

  lemma CreationTurn(rows: seq<Pod>, before: seq<Pod>, d: DaemonSet, targets: seq<Node>, covered: set<string>,
                     env: Env, n: nat, node: string)
    requires UniqueKeys(before) && n < |targets| &&
      forall j, k | 0 <= j < k < |targets| :: env.suffix(j) != env.suffix(k)
    requires CreatedSoFar(rows, before, d, targets, covered, env, n, node)
    ensures
      var target := targets[n].name;
      var creates := target !in covered && env.createOk(n);
      var after := if creates then Put(before, NewPod(d, env.suffix(n), target)) else before;
      CreatedSoFar(rows, after, d, targets, covered, env, n + 1, node)
  {
    if targets[n].name !in covered && env.createOk(n) {
      CreateOne(before, d, env, n, |targets|, targets[n].name, node);
    }
  }

  lemma {:induction false} CreationsOn(rows: seq<Pod>, d: DaemonSet, targets: seq<Node>, covered: set<string>,
                                       env: Env, n: nat, node: string)
    requires UniqueKeys(rows) && n <= |targets| && FreshNames(rows, d, env, |targets|)
    ensures CreatedSoFar(rows, CreateMissing(rows, d, targets, covered, env, n), d, targets, covered, env, n, node)
  {
    if n > 0 {
      CreationsOn(rows, d, targets, covered, env, n - 1, node);
      CreationTurn(rows, CreateMissing(rows, d, targets, covered, env, n - 1), d, targets, covered, env, n - 1, node);
    }
  }

  /** How many of the first `n` owned pods were on `node` and got deleted. */
  function Deleted(owned: seq<Pod>, names: set<string>, env: Env, n: nat, node: string): nat
    requires n <= |owned|
  {
    if n == 0 then 0
    else Deleted(owned, names, env, n - 1, node) + TakenBy(owned[n - 1], names, env.deleteOk(n - 1), node)
  }

  /** One deletion of an owned pod. */
  lemma DeleteOne(rows: seq<Pod>, d: DaemonSet, owned: seq<Pod>, n: nat, node: string)
    requires UniqueKeys(rows) && UniqueKeys(owned) && n < |owned| && StillIn(rows, owned, n) && Owned(d, owned[n])
    ensures CountOn(Remove(rows, d.namespace, owned[n].name), d, node)
         == CountOn(rows, d, node) - if owned[n].nodeName == Some(node) then 1 else 0
    ensures StillIn(Remove(rows, d.namespace, owned[n].name), owned, n + 1)
  {
    assert owned[n] in rows;
    RemoveCounts(rows, owned[n], p => OnNode(d, node, p));
    RemoveNext(rows, owned, n);
  }

  /** What one turn of the deletion loop takes from a node. */
  function TakenBy(v: Pod, names: set<string>, ok: bool, node: string): nat {
    if v.nodeName == Some(node) && node !in names && ok then 1 else 0
  }

  lemma DeletionStep(rows: seq<Pod>, d: DaemonSet, owned: seq<Pod>, names: set<string>, ok: bool, n: nat, node: string)
    requires UniqueKeys(rows) && UniqueKeys(owned) && n < |owned| && StillIn(rows, owned, n) && Owned(d, owned[n])
    ensures
      var after := if Stray(owned[n], names) && ok then Remove(rows, d.namespace, owned[n].name) else rows;
      CountOn(after, d, node) == CountOn(rows, d, node) - TakenBy(owned[n], names, ok, node) &&
      StillIn(after, owned, n + 1)
  {
    if Stray(owned[n], names) && ok {
      DeleteOne(rows, d, owned, n, node);
    }
  }

  /** The first `n` deletions took, on each node, exactly what succeeded there. */
  predicate DeletedSoFar(rows: seq<Pod>, after: seq<Pod>, d: DaemonSet, owned: seq<Pod>, names: set<string>, env: Env,
                         n: nat, node: string)
    requires n <= |owned|
  {
    CountOn(after, d, node) == CountOn(rows, d, node) - Deleted(owned, names, env, n, node) && StillIn(after, owned, n)
  }

  lemma DeletionTurn(rows: seq<Pod>, before: seq<Pod>, d: DaemonSet, owned: seq<Pod>, names: set<string>, env: Env,
                     n: nat, node: string)
    requires UniqueKeys(before) && UniqueKeys(owned) && n < |owned| && Owned(d, owned[n])
    requires DeletedSoFar(rows, before, d, owned, names, env, n, node)
    ensures
      var deletes := Stray(owned[n], names) && env.deleteOk(n);
      var after := if deletes then Remove(before, d.namespace, owned[n].name) else before;
      DeletedSoFar(rows, after, d, owned, names, env, n + 1, node)
  {
    DeletionStep(before, d, owned, names, env.deleteOk(n), n, node);
  }

  lemma {:induction false} DeletionsOn(rows: seq<Pod>, d: DaemonSet, owned: seq<Pod>, names: set<string>, env: Env,
                                       n: nat, node: string)
    requires UniqueKeys(rows) && UniqueKeys(owned) && n <= |owned| && StillIn(rows, owned, 0)
    requires forall p | p in owned :: Owned(d, p)
    ensures DeletedSoFar(rows, DeleteStray(rows, d, owned, names, env, n), d, owned, names, env, n, node)
  {
    if n > 0 {
      DeletionsOn(rows, d, owned, names, env, n - 1, node);
      assert owned[n - 1] in owned;
      DeletionTurn(rows, DeleteStray(rows, d, owned, names, env, n - 1), d, owned, names, env, n - 1, node);
    }
  }

  lemma OwnedPodsAreRows(rows: seq<Pod>, d: DaemonSet)
    requires UniqueKeys(rows)
    ensures UniqueKeys(OwnedPods(rows, d))
    ensures StillIn(rows, OwnedPods(rows, d), 0)
    ensures forall p | p in OwnedPods(rows, d) :: Owned(d, p)
  {
    FilterUnique(rows, p => Owned(d, p));
    forall k | 0 <= k < |OwnedPods(rows, d)|
      ensures OwnedPods(rows, d)[k] in rows
    {
      assert OwnedPods(rows, d)[k] in OwnedPods(rows, d);
    }
  }

  /** A pod the controller creates is bound from the start: the scheduler never
      lists it. */
  lemma CreatedPodSkipsScheduler(rows: seq<Pod>, d: DaemonSet, suffix: string, node: string)
    requires UniqueKeys(rows)
    ensures var p := NewPod(d, suffix, node);
      p in Put(rows, p) && p !in ListUnscheduled(Put(rows, p)) && p.nodeName == Some(node)
  {
    ListedIfUnscheduled(Put(rows, NewPod(d, suffix, node)), NewPod(d, suffix, node));
  }

  // ---------------------------------------------------------------------
  // A pass
  // ---------------------------------------------------------------------

  /** A pass changes the number of owned pods on each node by exactly the
      statements that succeeded there. */
  lemma PassOnNode(rows: seq<Pod>, d: DaemonSet, nodes: seq<Node>, env: Env, node: string)
    requires UniqueKeys(rows) && SelectsItsTemplate(d) && FreshNames(rows, d, env, |Targets(d, nodes)|)
    ensures
      var targets, owned := Targets(d, nodes), OwnedPods(rows, d);
      var created, deleted := Created(targets, Covered(owned), env, |targets|, node),
          Deleted(owned, Names(targets), env, |owned|, node);
      CountOn(Reconcile(rows, d, nodes, env), d, node) == CountOn(rows, d, node) + created - deleted
  {
    var targets, owned := Targets(d, nodes), OwnedPods(rows, d);
    OwnedPodsAreRows(rows, d);
    CreationsOn(rows, d, targets, Covered(owned), env, |targets|, node);
    DeletionsOn(CreateMissing(rows, d, targets, Covered(owned), env, |targets|), d, owned, Names(targets), env,
                |owned|, node);
  }

  lemma {:induction false} FilterUniqueNames(nodes: seq<Node>, f: Node -> bool)
    requires UniqueNames(nodes)
    ensures UniqueNames(Filter(nodes, f))
  {
    if nodes != [] {
      var n := |nodes| - 1;
      FilterUniqueNames(nodes[..n], f);
      var rest := Filter(nodes[..n], f);
      forall i | 0 <= i < |rest|
        ensures rest[i].name != nodes[n].name
      {
        assert rest[i] in nodes[..n];
        var k :| 0 <= k < n && nodes[k] == rest[i];
      }
    }
  }

  /** A node gets at most one new pod, and gets one if it is an uncovered target
      and its statement succeeds. */
  lemma {:induction false} CreatedOnce(targets: seq<Node>, covered: set<string>, env: Env, n: nat, node: string)
    requires n <= |targets| && UniqueNames(targets)
    ensures Created(targets, covered, env, n, node) <= 1
    ensures node in covered || node !in Names(targets[..n]) ==> Created(targets, covered, env, n, node) == 0
    ensures node in Names(targets[..n]) && node !in covered && (forall k | 0 <= k < n :: env.createOk(k)) ==>
      Created(targets, covered, env, n, node) == 1
  {
    if n > 0 {
      CreatedOnce(targets, covered, env, n - 1, node);
      assert targets[..n] == targets[..n - 1] + [targets[n - 1]];
      assert targets[n - 1].name !in Names(targets[..n - 1]);
    }
  }

  /** A covered node is one with an owned pod on it. */
  lemma CoveredMeansCounted(rows: seq<Pod>, d: DaemonSet, node: string)
    ensures node in Covered(OwnedPods(rows, d)) <==> CountOn(rows, d, node) > 0
  {
    var on := Filter(rows, p => OnNode(d, node, p));
    if |on| > 0 {
      assert on[0] in on;
      assert on[0] in OwnedPods(rows, d);
    }
  }

  /** The deletions on a node are bounded by its owned pods, and take them all
      when every statement succeeds. */
  lemma {:induction false} DeletedAll(owned: seq<Pod>, names: set<string>, env: Env, n: nat, node: string)
    requires n <= |owned|
    ensures Deleted(owned, names, env, n, node) <= |Filter(owned[..n], (p: Pod) => p.nodeName == Some(node))|
    ensures node in names ==> Deleted(owned, names, env, n, node) == 0
    ensures node !in names && (forall k | 0 <= k < n :: env.deleteOk(k)) ==>
      Deleted(owned, names, env, n, node) == |Filter(owned[..n], (p: Pod) => p.nodeName == Some(node))|
  {
    if n > 0 {
      DeletedAll(owned, names, env, n - 1, node);
      assert owned[..n][..n - 1] == owned[..n - 1];
    }
  }

  lemma OwnedOnNode(rows: seq<Pod>, d: DaemonSet, node: string)
    ensures |Filter(OwnedPods(rows, d), (p: Pod) => p.nodeName == Some(node))| == CountOn(rows, d, node)
  {
    FilterTwice(rows, p => Owned(d, p), (p: Pod) => p.nodeName == Some(node), p => OnNode(d, node, p));
  }

  /** The statements of a pass all succeed. */
  predicate Succeeds(rows: seq<Pod>, d: DaemonSet, nodes: seq<Node>, env: Env) {
    (forall k | 0 <= k < |Targets(d, nodes)| :: env.createOk(k)) &&
    (forall k | 0 <= k < |OwnedPods(rows, d)| :: env.deleteOk(k))
  }

  /** Whatever fails, a pass never takes a node from one owned pod to two, keeps
      the pods on targets and adds none elsewhere; when nothing fails, exactly
      one is on each target and none is on any other node. */
  lemma DaemonSetPass(rows: seq<Pod>, d: DaemonSet, nodes: seq<Node>, env: Env, node: string)
    requires UniqueKeys(rows) && UniqueNames(nodes) && SelectsItsTemplate(d)
    requires FreshNames(rows, d, env, |Targets(d, nodes)|)
    ensures
      var before, after := CountOn(rows, d, node), CountOn(Reconcile(rows, d, nodes, env), d, node);
      var target := node in Names(Targets(d, nodes));
      (before <= 1 ==> after <= 1) &&
      (target ==> before <= after) && (!target ==> after <= before) &&
      (Succeeds(rows, d, nodes, env) ==> if target then after == (if before == 0 then 1 else before) else after == 0)
  {
    var targets, owned := Targets(d, nodes), OwnedPods(rows, d);
    PassOnNode(rows, d, nodes, env, node);
    FilterUniqueNames(nodes, n => Matches(d, n));
    CreatedOnce(targets, Covered(owned), env, |targets|, node);
    CoveredMeansCounted(rows, d, node);
    DeletedAll(owned, Names(targets), env, |owned|, node);
    OwnedOnNode(rows, d, node);
    assert targets[..|targets|] == targets && owned[..|owned|] == owned;
  }

  /** Every target is covered and no owned pod is bound elsewhere. */
  predicate Settled(rows: seq<Pod>, d: DaemonSet, nodes: seq<Node>) {
    Covered(OwnedPods(rows, d)) == Names(Targets(d, nodes))
  }

  lemma {:induction false} NothingToCreate(rows: seq<Pod>, d: DaemonSet, targets: seq<Node>, covered: set<string>,
                                           env: Env, n: nat)
    requires UniqueKeys(rows) && n <= |targets| && Names(targets) <= covered
    ensures CreateMissing(rows, d, targets, covered, env, n) == rows
  {
    if n > 0 {
      NothingToCreate(rows, d, targets, covered, env, n - 1);
      assert targets[n - 1].name in Names(targets);
    }
  }

  lemma {:induction false} NothingToDelete(rows: seq<Pod>, d: DaemonSet, owned: seq<Pod>, names: set<string>,
                                           env: Env, n: nat)
    requires UniqueKeys(rows) && n <= |owned| && Covered(owned) <= names
    ensures DeleteStray(rows, d, owned, names, env, n) == rows
  {
    if n > 0 {
      NothingToDelete(rows, d, owned, names, env, n - 1);
      assert owned[n - 1] in owned;
    }
  }

  /** A settled set is a fixed point of every later pass. */
  lemma SettledStays(rows: seq<Pod>, d: DaemonSet, nodes: seq<Node>, env: Env)
    requires UniqueKeys(rows) && Settled(rows, d, nodes)
    ensures Reconcile(rows, d, nodes, env) == rows
  {
    var targets, owned := Targets(d, nodes), OwnedPods(rows, d);
    NothingToCreate(rows, d, targets, Covered(owned), env, |targets|);
    NothingToDelete(rows, d, owned, Names(targets), env, |owned|);
  }

  /** A pass without failures settles the set, so the next one changes nothing. */
  lemma NextPassChangesNothing(rows: seq<Pod>, d: DaemonSet, nodes: seq<Node>, env: Env, next: Env)
    requires UniqueKeys(rows) && UniqueNames(nodes) && SelectsItsTemplate(d)
    requires FreshNames(rows, d, env, |Targets(d, nodes)|) && Succeeds(rows, d, nodes, env)
    ensures Settled(Reconcile(rows, d, nodes, env), d, nodes)
    ensures Reconcile(Reconcile(rows, d, nodes, env), d, nodes, next) == Reconcile(rows, d, nodes, env)
  {
    var after := Reconcile(rows, d, nodes, env);
    forall node: string
      ensures node in Covered(OwnedPods(after, d)) <==> node in Names(Targets(d, nodes))
    {
      DaemonSetPass(rows, d, nodes, env, node);
      CoveredMeansCounted(after, d, node);
    }
    SettledStays(after, d, nodes, next);
  }

  /** A template its selector does not select is never counted, so an uncovered
      target stays uncovered: exactly the premise decides whether a pass without
      failures covers it. */
  lemma CoversIffSelected(rows: seq<Pod>, d: DaemonSet, nodes: seq<Node>, env: Env, node: string)
    requires UniqueKeys(rows) && UniqueNames(nodes) && FreshNames(rows, d, env, |Targets(d, nodes)|)
    requires Succeeds(rows, d, nodes, env) && node in Names(Targets(d, nodes)) && CountOn(rows, d, node) == 0
    ensures CountOn(Reconcile(rows, d, nodes, env), d, node) == (if SelectsItsTemplate(d) then 1 else 0)
  {
    if SelectsItsTemplate(d) {
      DaemonSetPass(rows, d, nodes, env, node);
    } else {
      var targets, owned := Targets(d, nodes), OwnedPods(rows, d);
      OwnedPodsAreRows(rows, d);
      CreationsOn(rows, d, targets, Covered(owned), env, |targets|, node);
      DeletionsOn(CreateMissing(rows, d, targets, Covered(owned), env, |targets|), d, owned, Names(targets), env,
                  |owned|, node);
    }
  }
}
