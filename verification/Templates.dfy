/** What the controllers' passes put into the table, said of the rows' own fields. */
module Templates {
  import opened Wrappers
  import opened Cluster
  import opened Rows
  import D = Deployments
  import S = StatefulSets
  import M = DaemonSets
  import Text

  /** A pod waiting to run what the template says, owned by `uid`. */
  ghost predicate MadeFrom(p: Pod, template: Pod, namespace: string, uid: string) {
    p.labels == template.labels && p.containers == template.containers && p.nodeSelector == template.nodeSelector &&
    p.affinity == template.affinity && p.namespace == namespace && p.owners == [uid] && p.phase == Some(Pending)
  }

  /** The owner's name, a hyphen, and one of the suffixes drawn. */
  ghost predicate NameDrawn(name: string, owner: string, suffix: nat -> string) {
    exists k: nat :: name == owner + "-" + suffix(k)
  }

  // ---------------------------------------------------------------------
  // Deployments
  // ---------------------------------------------------------------------

  ghost predicate DeploymentPod(p: Pod, d: D.Deployment, env: D.Env) {
    MadeFrom(p, d.template, d.namespace, d.uid) && p.nodeName == d.template.nodeName &&
    NameDrawn(p.name, d.name, env.suffix)
  }

  /** The pod carries every one of the labels. */
  ghost predicate CarriesAll(p: Pod, wanted: Labels) {
    forall k | k in wanted :: p.labels.Some? && k in p.labels.value && p.labels.value[k] == wanted[k]
  }

  /** What a Deployment counts: its own pods of its namespace with the labels of its
      selector, or of its template if the selector is empty. */
  lemma DeploymentCounts(d: D.Deployment, p: Pod)
    ensures
      var own := p.namespace == d.namespace && d.uid in p.owners;
      var selector, labels := d.matchLabels.GetOr(map[]), d.template.labels.GetOr(map[]);
      (selector != map[] ==> (D.Counts(d, p) <==> own && CarriesAll(p, selector))) &&
      (selector == map[] && labels != map[] ==> (D.Counts(d, p) <==> own && CarriesAll(p, labels))) &&
      (selector == map[] && labels == map[] ==> (D.Counts(d, p) <==> own))
  {
  }

  /** How many it wants: one unless it says, and none if it says a negative number. */
  lemma DeploymentWants(d: D.Deployment, s: S.StatefulSet)
    ensures D.Target(d) == if d.replicas.None? then 1 else if d.replicas.value > 0 then d.replicas.value else 0
    ensures S.Wanted(s) == if s.replicas.None? then 1 else if s.replicas.value > 0 then s.replicas.value else 0
  {
  }

  lemma DeploymentMakes(d: D.Deployment, env: D.Env, k: nat)
    ensures DeploymentPod(Stored(D.NewPod(d, env.suffix(k))), d, env)
  {
    assert Stored(D.NewPod(d, env.suffix(k))).name == d.name + "-" + env.suffix(k);
  }

  /** An upsert adds the stored pod and nothing else. */
  lemma PutAdds(rows: seq<Pod>, q: Pod, p: Pod)
    requires UniqueKeys(rows) && p in Put(rows, q)
    ensures p in rows || p == Stored(q)
  {
  }

  lemma {:induction false} CreationsMake(rows: seq<Pod>, d: D.Deployment, env: D.Env, n: nat, p: Pod)
    requires UniqueKeys(rows) && p in D.CreatePods(rows, d, env, n)
    ensures p in rows || DeploymentPod(p, d, env)
  {
    if n > 0 {
      var before := D.CreatePods(rows, d, env, n - 1);
      if p in before {
        CreationsMake(rows, d, env, n - 1, p);
      } else {
        PutAdds(before, D.NewPod(d, env.suffix(n - 1)), p);
        DeploymentMakes(d, env, n - 1);
      }
    }
  }

  lemma {:induction false} DeletionsMakeNothing(rows: seq<Pod>, namespace: string, victims: seq<Pod>, env: D.Env,
                                                n: nat,
                                                p: Pod)
    requires UniqueKeys(rows) && n <= |victims| && p in D.DeletePods(rows, namespace, victims, env, n)
    ensures p in rows
  {
    if n > 0 {
      DeletionsMakeNothing(rows, namespace, victims, env, n - 1, p);
    }
  }

  /** Every row a Deployment's pass leaves that was not there before is a pod of its
      template, whatever the listing found and whichever statements failed. */
  lemma DeploymentCreates(rows: seq<Pod>, d: D.Deployment, env: D.Env, p: Pod)
    requires UniqueKeys(rows) && p in D.Reconcile(rows, d, env) && p !in rows
    ensures DeploymentPod(p, d, env)
  {
    var owned := D.Count(rows, d);
    if D.Desired(d) > owned {
      CreationsMake(rows, d, env, D.Desired(d) - owned, p);
    } else if D.Desired(d) < owned {
      DeletionsMakeNothing(rows, d.namespace, D.OwnedPods(rows, d), env, D.Surplus(rows, d), p);
    }
  }

  // ---------------------------------------------------------------------
  // StatefulSets
  // ---------------------------------------------------------------------

  ghost predicate StatefulPod(p: Pod, s: S.StatefulSet, i: nat) {
    MadeFrom(p, s.template, s.namespace, s.uid) && p.nodeName == s.template.nodeName &&
    p.name == s.name + "-" + Text.ShowNat(i)
  }

  /** What the walk leaves at an index was there before, or is of the template. */
  lemma {:induction false} WalkMakes(m: S.Slots, s: S.StatefulSet, env: S.Env, n: nat, j: int)
    requires j in S.WalkTo(m, s, env, n).slots
    ensures (j in m && S.WalkTo(m, s, env, n).slots[j] == m[j]) ||
            (0 <= j < n && StatefulPod(S.WalkTo(m, s, env, n).slots[j], s, j))
  {
    if n > 0 {
      var before := S.WalkTo(m, s, env, n - 1);
      if j in before.slots {
        WalkMakes(m, s, env, n - 1, j);
      }
      assert StatefulPod(S.NewPod(s, n - 1), s, n - 1);
    }
  }

  /** Every row a StatefulSet's pass leaves that was not there before is a pod of its
      template, under one of the wanted indices. */
  lemma StatefulSetCreates(before: seq<Pod>, after: seq<Pod>, s: S.StatefulSet, env: S.Env, p: Pod) returns (i: nat)
    requires UniqueKeys(before) && UniqueKeys(after) && S.OthersKept(before, after, s)
    requires S.SlotsOf(after, s) == S.Reconcile(S.SlotsOf(before, s), s, env)
    requires p in after && p !in before
    ensures i < S.Wanted(s) && StatefulPod(p, s, i)
  {
    FindsRow(after, p);
    assert S.RowKept(before, after, s, p.namespace, p.name);
    var j: int :| S.PodName(s, j) == p.name;
    var m := S.SlotsOf(before, s);
    var walked := S.WalkTo(m, s, env, S.Wanted(s)).slots;
    assert j in S.SlotsOf(after, s) && S.SlotsOf(after, s)[j] == p;
    S.TrimSlot(walked, s, env, S.TRIM, j);
    WalkMakes(m, s, env, S.Wanted(s), j);
    i := j;
  }

  // ---------------------------------------------------------------------
  // DaemonSets
  // ---------------------------------------------------------------------

  /** The node carries every label the template asks of it. */
  ghost predicate Accepts(n: Node, d: M.DaemonSet) {
    d.template.nodeSelector.Some? ==>
      forall k | k in d.template.nodeSelector.value ::
        n.labels.Some? && k in n.labels.value && n.labels.value[k] == d.template.nodeSelector.value[k]
  }

  /** The daemon is for the listed nodes that carry every label its template asks
      for. */
  lemma TargetsAccept(d: M.DaemonSet, nodes: seq<Node>, n: Node)
    ensures n in M.Targets(d, nodes) <==> n in nodes && Accepts(n, d)
  {
  }

  /** What a DaemonSet takes for its own: as a Deployment does, but of a selector that
      is there and empty, and of no labels at all, it takes none. */
  lemma DaemonSetOwns(d: M.DaemonSet, p: Pod)
    ensures
      var own := p.namespace == d.namespace && d.uid in p.owners;
      var wanted := if d.matchLabels.Some? then d.matchLabels.value else d.template.labels.GetOr(map[]);
      M.Owned(d, p) <==> own && wanted != map[] && CarriesAll(p, wanted)
  {
    var wanted := if d.matchLabels.Some? then d.matchLabels.value else d.template.labels.GetOr(map[]);
    if wanted != map[] && CarriesAll(p, wanted) {
      var k :| k in wanted;
      assert p.labels.Some?;
    }
  }

  ghost predicate DaemonPod(p: Pod, d: M.DaemonSet, nodes: seq<Node>, env: M.Env, n: Node) {
    MadeFrom(p, d.template, d.namespace, d.uid) && p.nodeName == Some(n.name) && n in nodes && Accepts(n, d) &&
    NameDrawn(p.name, d.name, env.suffix)
  }

  lemma DaemonMakes(d: M.DaemonSet, nodes: seq<Node>, env: M.Env, k: nat, n: Node)
    requires n in M.Targets(d, nodes)
    ensures DaemonPod(Stored(M.NewPod(d, env.suffix(k), n.name)), d, nodes, env, n)
  {
    TargetsAccept(d, nodes, n);
    assert Stored(M.NewPod(d, env.suffix(k), n.name)).name == d.name + "-" + env.suffix(k);
  }

  lemma {:induction false} MissingMade(rows: seq<Pod>, d: M.DaemonSet, nodes: seq<Node>, covered: set<string>,
                                       env: M.Env, n: nat, p: Pod) returns (node: Node)
    requires UniqueKeys(rows) && n <= |M.Targets(d, nodes)|
    requires p in M.CreateMissing(rows, d, M.Targets(d, nodes), covered, env, n) && p !in rows
    ensures node.name !in covered && DaemonPod(p, d, nodes, env, node)
  {
    var targets := M.Targets(d, nodes);
    var before := M.CreateMissing(rows, d, targets, covered, env, n - 1);
    if p in before {
      node := MissingMade(rows, d, nodes, covered, env, n - 1, p);
    } else {
      node := targets[n - 1];
      PutAdds(before, M.NewPod(d, env.suffix(n - 1), node.name), p);
      DaemonMakes(d, nodes, env, n - 1, node);
    }
  }

  /** No row but those there before. */
  ghost predicate NoneAdded(before: seq<Pod>, after: seq<Pod>) {
    forall p | p in after :: p in before
  }

  lemma StrayTurn(rows: seq<Pod>, before: seq<Pod>, d: M.DaemonSet, v: Pod, deletes: bool)
    requires UniqueKeys(before) && NoneAdded(rows, before)
    ensures NoneAdded(rows, if deletes then Remove(before, d.namespace, v.name) else before)
  {
  }

  lemma {:induction false} StrayDeletionsAddNone(rows: seq<Pod>, d: M.DaemonSet, owned: seq<Pod>, names: set<string>,
                                                 env: M.Env, n: nat)
    requires UniqueKeys(rows) && n <= |owned|
    ensures NoneAdded(rows, M.DeleteStray(rows, d, owned, names, env, n))
  {
    if n > 0 {
      StrayDeletionsAddNone(rows, d, owned, names, env, n - 1);
      StrayTurn(rows, M.DeleteStray(rows, d, owned, names, env, n - 1), d, owned[n - 1],
                M.Stray(owned[n - 1], names) && env.deleteOk(n - 1));
    }
  }

  /** Every row a DaemonSet's pass leaves that was not there before is a pod of its
      template, bound to a listed node that the template accepts and on which the set
      had no pod. */
  lemma DaemonSetCreates(rows: seq<Pod>, d: M.DaemonSet, nodes: seq<Node>, env: M.Env, p: Pod) returns (node: Node)
    requires UniqueKeys(rows) && p in M.Reconcile(rows, d, nodes, env) && p !in rows
    ensures DaemonPod(p, d, nodes, env, node)
    ensures forall q | q in rows && M.Owned(d, q) :: q.nodeName != Some(node.name)
  {
    var targets, owned := M.Targets(d, nodes), M.OwnedPods(rows, d);
    var created := M.CreateMissing(rows, d, targets, M.Covered(owned), env, |targets|);
    StrayDeletionsAddNone(created, d, owned, M.Names(targets), env, |owned|);
    node := MissingMade(rows, d, nodes, M.Covered(owned), env, |targets|, p);
  }
}
