/** The objects the control plane works on, and the `pods` table. */
module Cluster {
  import opened Wrappers
  import Q = Quantity

  type Labels = map<string, string>

  datatype PodPhase = Pending | Running | Succeeded | Failed | Unknown

  /** A node selector requirement. */
  datatype Requirement = Requirement(key: string, operator: string, values: seq<string>)

  /** A label selector requirement, whose value list may be missing. */
  datatype LabelRequirement = LabelRequirement(key: string, operator: string, values: Option<seq<string>>)

  datatype LabelSelector = LabelSelector(matchLabels: Option<Labels>, matchExpressions: Option<seq<LabelRequirement>>)

  datatype PodAffinityTerm = PodAffinityTerm(
    labelSelector: Option<LabelSelector>, namespaces: seq<string>, topologyKey: string)

  /** The required terms; an absent pod (anti-)affinity has none. */
  datatype Affinity = Affinity(
    nodeTerms: Option<seq<seq<Requirement>>>, podTerms: seq<PodAffinityTerm>, antiTerms: seq<PodAffinityTerm>)

  datatype Resource = Cpu | Memory

  /** Parsed quantities; a resource that is missing or does not parse has no entry. */
  type Quantities = map<Resource, Q.U64>

  /** How a quantity map reads: `get(key).and_then(parse)` for each resource.
      Parsing is pure, so objects carry the result instead of the text. */
  function ReadQuantities(raw: Option<map<string, string>>): (q: Quantities)
    ensures Cpu in q <==> raw.Some? && "cpu" in raw.value && Q.ParseCpuMillicores(raw.value["cpu"]).Some?
    ensures Cpu in q ==> Some(q[Cpu]) == Q.ParseCpuMillicores(raw.value["cpu"])
    ensures Memory in q <==> raw.Some? && "memory" in raw.value && Q.ParseMemoryBytes(raw.value["memory"]).Some?
    ensures Memory in q ==> Some(q[Memory]) == Q.ParseMemoryBytes(raw.value["memory"])
  {
    if raw.None? then map[]
    else
      var cpu := if "cpu" in raw.value then Q.ParseCpuMillicores(raw.value["cpu"]) else None;
      var mem := if "memory" in raw.value then Q.ParseMemoryBytes(raw.value["memory"]) else None;
      (if cpu.Some? then map[Cpu := cpu.value] else map[]) + (if mem.Some? then map[Memory := mem.value] else map[])
  }

  /** A container's requests. */
  datatype Container = Container(requests: Quantities)

  /** `owners` lists the uids of the owner references. */
  datatype Pod = Pod(
    namespace: string, name: string, labels: Option<Labels>, owners: seq<string>,
    containers: seq<Container>, nodeSelector: Option<Labels>, affinity: Option<Affinity>,
    nodeName: Option<string>, phase: Option<PodPhase>)

  predicate IsRunning(p: Pod) {
    p.phase == Some(Running)
  }

  datatype NodeCondition = NodeCondition(kind: string, status: string)

  datatype Node = Node(
    name: string, labels: Option<Labels>, allocatable: Quantities,
    conditions: Option<seq<NodeCondition>>)

  predicate UniqueNames(nodes: seq<Node>) {
    forall i, j | 0 <= i < j < |nodes| :: nodes[i].name != nodes[j].name
  }

  /** Every pair of `selector` is among `labels`. */
  predicate Contains(labels: Labels, selector: Labels) {
    forall k | k in selector :: k in labels && labels[k] == selector[k]
  }

  predicate HasKey(p: Pod, namespace: string, name: string) {
    p.namespace == namespace && p.name == name
  }

  /** The name of a controller's pod: the owner's, and a random suffix. */
  function GeneratedName(owner: string, suffix: string): string {
    owner + "-" + suffix
  }

  lemma SuffixDecidesName(owner: string, s: string, t: string)
    ensures GeneratedName(owner, s) == GeneratedName(owner, t) <==> s == t
  {
    assert GeneratedName(owner, s)[|owner| + 1..] == s && GeneratedName(owner, t)[|owner| + 1..] == t;
  }

  predicate SameKey(p: Pod, q: Pod) {
    HasKey(p, q.namespace, q.name)
  }

  /** The table's UNIQUE(name, namespace) constraint. */
  predicate UniqueKeys(rows: seq<Pod>) {
    forall i, j | 0 <= i < j < |rows| :: !SameKey(rows[i], rows[j])
  }

  // ---------------------------------------------------------------------
  // Statements on the pods table, as functions of its rows (newest first)
  // ---------------------------------------------------------------------

  /** The rows that satisfy `keep`, in order. */
  function Filter<T(!new)>(s: seq<T>, keep: T -> bool): (r: seq<T>)
    ensures forall x :: x in r <==> x in s && keep(x)
  {
    if s == [] then [] else
      var rest := Filter(s[..|s| - 1], keep);
      if keep(s[|s| - 1]) then rest + [s[|s| - 1]] else rest
  }

  predicate Selected(p: Pod, namespace: Option<string>, selector: Option<Labels>) {
    (namespace.Some? ==> p.namespace == namespace.value) &&
    (selector.Some? ==> p.labels.Some? && Contains(p.labels.value, selector.value))
  }

  function ListPods(rows: seq<Pod>, namespace: Option<string>, selector: Option<Labels>): seq<Pod> {
    Filter(rows, p => Selected(p, namespace, selector))
  }

  /** The row a pod is stored as: a missing status is written as Pending. */
  function Stored(p: Pod): Pod {
    p.(phase := Some(p.phase.GetOr(Pending)))
  }

  /** The position of a key, or the table's length. */
  function Find(rows: seq<Pod>, namespace: string, name: string): (i: nat)
    ensures i <= |rows|
    ensures i < |rows| ==> HasKey(rows[i], namespace, name)
    ensures forall k | 0 <= k < i :: !HasKey(rows[k], namespace, name)
  {
    if rows == [] || HasKey(rows[0], namespace, name) then 0 else 1 + Find(rows[1..], namespace, name)
  }

  predicate Present(rows: seq<Pod>, namespace: string, name: string) {
    Find(rows, namespace, name) < |rows|
  }

  /** SELECT ... WHERE namespace = ? AND name = ?. */
  function RowAt(rows: seq<Pod>, namespace: string, name: string): Option<Pod> {
    var i := Find(rows, namespace, name);
    if i < |rows| then Some(rows[i]) else None
  }

  /** INSERT ... ON CONFLICT (name, namespace) DO UPDATE. */
  function Put(rows: seq<Pod>, p: Pod): (r: seq<Pod>)
    requires UniqueKeys(rows)
    ensures UniqueKeys(r) && Stored(p) in r
  {
    var i := Find(rows, p.namespace, p.name);
    var r := if i < |rows| then rows[i := Stored(p)] else [Stored(p)] + rows;
    assert r[if i < |rows| then i else 0] == Stored(p);
    r
  }

  function Remove(rows: seq<Pod>, namespace: string, name: string): (r: seq<Pod>)
    requires UniqueKeys(rows)
    ensures UniqueKeys(r)
    ensures forall p :: p in r <==> p in rows && !HasKey(p, namespace, name)
  {
    var i := Find(rows, namespace, name);
    if i < |rows| then rows[..i] + rows[i + 1..] else rows
  }

  /** UPDATE pods SET node_name = ? WHERE namespace = ? AND name = ?. */
  function BindRow(rows: seq<Pod>, namespace: string, name: string, node: string): (r: seq<Pod>)
    requires UniqueKeys(rows)
    ensures UniqueKeys(r) && |r| == |rows|
  {
    var i := Find(rows, namespace, name);
    if i < |rows| then rows[i := rows[i].(nodeName := Some(node))] else rows
  }

  /** An upsert answers for its own key and leaves every other key alone. */
  lemma PutRow(rows: seq<Pod>, p: Pod, namespace: string, name: string)
    requires UniqueKeys(rows)
    ensures RowAt(Put(rows, p), namespace, name)
         == if HasKey(p, namespace, name) then Some(Stored(p)) else RowAt(rows, namespace, name)
  {
    var r := Put(rows, p);
    var i, j := Find(rows, p.namespace, p.name), Find(rows, namespace, name);
    if HasKey(p, namespace, name) {
      assert HasKey(r[if i < |rows| then i else 0], namespace, name);
    } else if i < |rows| {
      FindAt(r, namespace, name, j);
    } else {
      FindAt(r, namespace, name, j + 1);
    }
  }

  /** The search stops exactly at the first row with the key. */
  lemma FindAt(rows: seq<Pod>, namespace: string, name: string, i: nat)
    requires i <= |rows| && (i < |rows| ==> HasKey(rows[i], namespace, name))
    requires forall k | 0 <= k < i :: !HasKey(rows[k], namespace, name)
    ensures Find(rows, namespace, name) == i
  {
    var f := Find(rows, namespace, name);
    if f < i {
      assert false;
    }
  }

  /** A bind answers for its own key, if it is there, and leaves every other row
      alone; it asks nothing of the node the row had. */
  lemma BindRowAt(rows: seq<Pod>, namespace: string, name: string, node: string, ns: string, n: string)
    requires UniqueKeys(rows)
    ensures
      var before, after := RowAt(rows, ns, n), RowAt(BindRow(rows, namespace, name, node), ns, n);
      after == if ns == namespace && n == name && before.Some?
               then Some(before.value.(nodeName := Some(node)))
               else before
  {
    FindAt(BindRow(rows, namespace, name, node), ns, n, Find(rows, ns, n));
  }

  lemma NoRow(rows: seq<Pod>, namespace: string, name: string)
    requires forall p | p in rows :: !HasKey(p, namespace, name)
    ensures RowAt(rows, namespace, name).None?
  {
    FindAt(rows, namespace, name, |rows|);
  }

  /** A deletion empties its own key and leaves every other key alone. */
  lemma RemoveRow(rows: seq<Pod>, namespace: string, name: string, ns: string, n: string)
    requires UniqueKeys(rows)
    ensures RowAt(Remove(rows, namespace, name), ns, n)
         == if ns == namespace && n == name then None else RowAt(rows, ns, n)
  {
    var r := Remove(rows, namespace, name);
    var i, j, f := Find(rows, namespace, name), Find(rows, ns, n), Find(r, ns, n);
    if ns == namespace && n == name {
      NoRow(r, ns, n);
    } else if i < |rows| {
      FindAt(r, ns, n, if i < j then j - 1 else j);
    }
  }

  predicate Unscheduled(p: Pod) {
    p.nodeName.None? && p.phase == Some(Pending)
  }

  function Reverse<T>(s: seq<T>): (r: seq<T>)
    ensures |r| == |s| && forall i | 0 <= i < |s| :: r[i] == s[|s| - 1 - i]
  {
    if s == [] then [] else [s[|s| - 1]] + Reverse(s[..|s| - 1])
  }

  /** SELECT ... WHERE node_name IS NULL AND status = 'Pending', oldest first. */
  function ListUnscheduled(rows: seq<Pod>): seq<Pod> {
    Reverse(Filter(rows, Unscheduled))
  }

  /** The `pods` table, one atomic statement per method. */
  class PodTable {
    var rows: seq<Pod>

    ghost predicate Valid()
      reads this
    {
      UniqueKeys(rows)
    }

    constructor (rows: seq<Pod>)
      requires UniqueKeys(rows)
      ensures Valid() && this.rows == rows
    {
      this.rows := rows;
    }

    method List(namespace: Option<string>, selector: Option<Labels>) returns (pods: seq<Pod>)
      ensures pods == ListPods(rows, namespace, selector)
    {
      pods := [];
      for i := 0 to |rows|
        invariant pods == ListPods(rows[..i], namespace, selector)
      {
        assert rows[..i + 1][..i] == rows[..i];
        if namespace.Some? && rows[i].namespace != namespace.value {
          continue;
        }
        if selector.Some? && !(rows[i].labels.Some? && Contains(rows[i].labels.value, selector.value)) {
          continue;
        }
        pods := pods + [rows[i]];
      }
      assert rows[..|rows|] == rows;
    }

    method Get(namespace: string, name: string) returns (pod: Option<Pod>)
      ensures pod.Some? <==> Present(rows, namespace, name)
      ensures pod.Some? ==> pod.value == rows[Find(rows, namespace, name)]
    {
      var i := Find(rows, namespace, name);
      pod := if i < |rows| then Some(rows[i]) else None;
    }

    method Create(pod: Pod)
      requires Valid()
      modifies this
      ensures Valid() && rows == Put(old(rows), pod)
    {
      rows := Put(rows, pod);
    }

    method Delete(namespace: string, name: string) returns (found: bool)
      requires Valid()
      modifies this
      ensures Valid() && rows == Remove(old(rows), namespace, name)
      ensures found <==> Present(old(rows), namespace, name)
    {
      found := Find(rows, namespace, name) < |rows|;
      rows := Remove(rows, namespace, name);
    }

    method BindToNode(namespace: string, name: string, node: string)
      requires Valid()
      modifies this
      ensures Valid() && rows == BindRow(old(rows), namespace, name, node)
    {
      rows := BindRow(rows, namespace, name, node);
    }
  }
}
