/** Applying image layers: tar entries in order, whiteouts in place, against the
    declarative union of layers. */
module Layers {
  import opened Wrappers

  type Path = seq<string>

  /** What a tar entry carries; `header` stands for mode, owner and times. */
  datatype Item = Directory(header: string) | Regular(header: string, content: string)
    | Symlink(header: string, target: string)

  /** A path of the root file system; a parent no entry described is implicit. */
  datatype Node = Extracted(item: Item) | Implicit

  predicate IsDir(n: Node) {
    n.Implicit? || n.item.Directory?
  }

  datatype Entry = Entry(absolute: bool, path: Path, item: Item)

  /** What an entry does. A marker may hand the file system a path that is absolute
      or climbs above the root, and then acts outside; one whose path goes up but
      stays below the root acts where the path leads. */
  datatype Op =
    | Opaque(dir: Path)
    | Whiteout(victim: Path)
    | Detour(path: Path, empties: bool)
    | Outside
    | Skip
    | Put(path: Path, item: Item)

  function FileName(path: Path): string {
    if path == [] then "" else path[|path| - 1]
  }

  function Parent(path: Path): Path {
    if path == [] then [] else path[..|path| - 1]
  }

  predicate StartsWith(s: string, prefix: string) {
    prefix <= s
  }

  /** A path with its `..` resolved against the names before them; None when it
      climbs above where it starts. */
  function Normal(path: Path): Option<Path> {
    if path == [] then Some([])
    else
      var up, c := Normal(path[..|path| - 1]), path[|path| - 1];
      if up.None? then None
      else if c != ".." then Some(up.value + [c])
      else if up.value == [] then None
      else Some(Parent(up.value))
  }

  /** A marker at work on this path: it empties a directory, or deletes. */
  function Marker(absolute: bool, path: Path, empties: bool): Op {
    if absolute || Normal(path).None? then Outside
    else if ".." in path then Detour(path, empties)
    else if empties then Opaque(path)
    else Whiteout(path)
  }

  predicate IsOpaque(e: Entry) {
    FileName(e.path) == ".wh..wh..opq"
  }

  predicate IsMarker(e: Entry) {
    StartsWith(FileName(e.path), ".wh.")
  }

  /** The path a marker is about. */
  function Marked(e: Entry): Path
    requires IsMarker(e)
  {
    if IsOpaque(e) || FileName(e.path)[4..] == "." then Parent(e.path) else Parent(e.path) + [FileName(e.path)[4..]]
  }

  /** Deleting a directory under a name that ends in `.` or `..` removes what is in
      it and then fails on the name, so that it only empties. */
  predicate Empties(e: Entry)
    requires IsMarker(e)
  {
    IsOpaque(e) || FileName(e.path)[4..] in {".", ".."}
  }

  /** Markers come first; the check for absolute paths and `..` is for the others. */
  function Classify(e: Entry): Op {
    if IsMarker(e) then Marker(e.absolute, Marked(e), Empties(e))
    else if e.absolute || ".." in e.path || e.path == [] then Skip
    else Put(e.path, e.item)
  }

  /** The root file system; its root directory is not an entry. */
  type Tree = map<Path, Node>

  /** Every path's parents exist and are directories. */
  ghost predicate TreeOk(t: Tree) {
    forall p | p in t :: p != [] && forall a: Path | [] < a < p :: a in t && IsDir(t[a])
  }

  /** The paths below an opaque directory, or at and below a victim. */
  predicate Covers(op: Op, p: Path) {
    match op
    case Opaque(dir) => dir < p
    case Whiteout(victim) => victim <= p
    case _ => false
  }

  /** Where a path leads: every name on the way is a directory. */
  function Resolve(t: Tree, path: Path): Option<Path> {
    if path == [] then Some([])
    else
      var up, c := Resolve(t, path[..|path| - 1]), path[|path| - 1];
      if up.None? || !(up.value == [] || (up.value in t && IsDir(t[up.value]))) then None
      else if c != ".." then Some(up.value + [c])
      else if up.value == [] then None
      else Some(Parent(up.value))
  }

  /** What a detour comes to in a tree. */
  function Arrive(t: Tree, path: Path, empties: bool): Op {
    var q := Resolve(t, path);
    if q.None? then Skip else if empties then Opaque(q.value) else Whiteout(q.value)
  }

  function Without(t: Tree, op: Op): Tree {
    map p | p in t && !Covers(op, p) :: t[p]
  }

  function Parents(path: Path): set<Path> {
    set k | 0 < k < |path| :: path[..k]
  }

  /** A parent is something else than a directory, or the path changes between
      directory and not. */
  predicate Conflicts(t: Tree, path: Path, item: Item) {
    (exists a :: a in Parents(path) && a in t && !IsDir(t[a])) ||
    (path in t && (IsDir(t[path]) != item.Directory?))
  }

  /** Unpacking one entry: missing parents, then the path itself. */
  function PutAt(t: Tree, path: Path, item: Item): Tree {
    (map a | a in Parents(path) && a !in t :: Implicit) + t[path := Extracted(item)]
  }

  /** One entry on the tree; None when unpacking fails. */
  function Step(t: Tree, op: Op): Option<Tree> {
    match op
    case Skip => Some(t)
    case Outside => Some(t)
    case Put(path, item) => if Conflicts(t, path, item) then None else Some(PutAt(t, path, item))
    case Detour(path, empties) => Some(Without(t, Arrive(t, path, empties)))
    case _ => Some(Without(t, op))
  }

  /** The tree after the first `n` entries, if none of them failed. */
  function Extract(t: Tree, es: seq<Entry>, n: nat): Option<Tree>
    requires n <= |es|
  {
    if n == 0 then Some(t)
    else
      var before := Extract(t, es, n - 1);
      if before.None? then None else Step(before.value, Classify(es[n - 1]))
  }

  class RootFs {
    var tree: Tree

    ghost predicate Valid()
      reads this
    {
      TreeOk(tree)
    }

    constructor ()
      ensures Valid() && tree == map[]
    {
      tree := map[];
    }

    /** Remove a path and everything below it. */
    method RemoveAll(victim: Path)
      modifies this
      ensures tree == Without(old(tree), Whiteout(victim))
    {
      tree := Without(tree, Whiteout(victim));
    }

    /** Empty a directory, child by child. */
    method ClearDirectory(dir: Path)
      requires Valid()
      modifies this
      ensures tree == Without(old(tree), Opaque(dir))
    {
      if dir != [] && !(dir in tree && IsDir(tree[dir])) {
        NothingBelow(tree, dir);
        return;
      }
      ghost var before := tree;
      var children := set p | p in tree && |p| == |dir| + 1 && dir < p;
      ChildrenAtFirst(tree, dir, children);
      while children != {}
        invariant Clearing(before, tree, dir, children)
        decreases |children|
      {
        ghost var now := tree;
        var child :| child in children;
        RemoveAll(child);
        ChildRemoved(before, now, dir, children, child);
        children := children - {child};
      }
      Cleared(before, tree, dir);
    }

    /** One entry; false when it fails to unpack, and then nothing is done. */
    method ApplyEntry(op: Op) returns (ok: bool)
      requires Valid() && (op.Put? ==> op.path != [])
      modifies this
      ensures Valid() && Applied(old(tree), op, tree, ok)
    {
      ok := true;
      StepOk(tree, op);
      match op
      case Opaque(dir) => ClearDirectory(dir);
      case Whiteout(victim) => RemoveAll(victim);
      case Detour(path, empties) =>
        var place := Resolve(tree, path);
        if place.Some? && empties {
          ClearDirectory(place.value);
        } else if place.Some? {
          RemoveAll(place.value);
        } else {
          NothingCovered(tree);
        }
      case Outside =>
      case Skip =>
      case Put(path, item) =>
        if Conflicts(tree, path, item) {
          ok := false;
        } else {
          tree := PutAt(tree, path, item);
        }
    }

    /** Apply one layer; false when an entry failed to unpack. */
    method ExtractTar(es: seq<Entry>) returns (ok: bool)
      requires Valid()
      modifies this
      ensures Valid() && Unpacked(old(tree), es, tree, ok)
    {
      for i := 0 to |es|
        invariant Valid() && Extract(old(tree), es, i) == Some(tree)
      {
        ghost var before := tree;
        ok := ApplyEntry(Classify(es[i]));
        ExtractStep(old(tree), es, i, before, tree, ok);
        if !ok {
          FailureStays(old(tree), es, i + 1, |es|);
          return;
        }
      }
      ok := true;
    }

    /** Apply the layers in order. */
    method ApplyLayers(layers: seq<seq<Entry>>) returns (ok: bool)
      requires Valid()
      modifies this
      ensures Valid() && AllUnpacked(old(tree), layers, |layers|, tree, ok)
    {
      for i := 0 to |layers|
        invariant Valid() && AllUnpacked(old(tree), layers, i, tree, true)
      {
        ghost var before := tree;
        ok := ExtractTar(layers[i]);
        LayerStep(old(tree), layers, i, before, tree, ok);
        if !ok {
          FailedLayerStays(old(tree), layers, i + 1, |layers|, tree);
          return;
        }
      }
      ok := true;
    }
  }

  /** The outcome of one entry is its step. */
  predicate Applied(before: Tree, op: Op, after: Tree, ok: bool) {
    if ok then Step(before, op) == Some(after) else Step(before, op).None?
  }

  lemma ExtractStep(t: Tree, es: seq<Entry>, i: nat, before: Tree, after: Tree, ok: bool)
    requires i < |es| && Extract(t, es, i) == Some(before) && Applied(before, Classify(es[i]), after, ok)
    ensures if ok then Extract(t, es, i + 1) == Some(after) else Extract(t, es, i + 1).None?
  {
  }

  /** The outcome of one layer is its extraction. */
  predicate Unpacked(before: Tree, es: seq<Entry>, after: Tree, ok: bool) {
    if ok then Extract(before, es, |es|) == Some(after) else Extract(before, es, |es|).None?
  }

  /** The outcome of the first `n` layers. */
  predicate AllUnpacked(before: Tree, layers: seq<seq<Entry>>, n: nat, after: Tree, ok: bool)
    requires n <= |layers|
  {
    if ok then ExtractAll(before, layers, n) == Some(after) else ExtractAll(before, layers, n).None?
  }

  lemma LayerStep(t: Tree, layers: seq<seq<Entry>>, i: nat, before: Tree, after: Tree, ok: bool)
    requires i < |layers| && AllUnpacked(t, layers, i, before, true) && Unpacked(before, layers[i], after, ok)
    ensures AllUnpacked(t, layers, i + 1, after, ok)
  {
  }

  /** What is left while the children of `dir` are removed one by one. */
  ghost predicate Clearing(before: Tree, now: Tree, dir: Path, children: set<Path>) {
    (forall c | c in children :: |c| == |dir| + 1 && dir < c) &&
    (forall p :: p in now <==> p in before && Remains(p, dir, children)) &&
    (forall p | p in now :: now[p] == before[p])
  }

  /** Not below the directory, or below a child still there. */
  predicate Remains(p: Path, dir: Path, children: set<Path>) {
    dir < p ==> p[..|dir| + 1] in children
  }

  lemma ChildrenAtFirst(t: Tree, dir: Path, children: set<Path>)
    requires TreeOk(t) && children == set p | p in t && |p| == |dir| + 1 && dir < p
    ensures Clearing(t, t, dir, children)
  {
    forall p | p in t
      ensures Remains(p, dir, children)
    {
      if dir < p {
        var a := p[..|dir| + 1];
        assert dir < a && |a| == |dir| + 1;
        assert a == p || [] < a < p;
      }
    }
  }

  lemma ChildRemoved(before: Tree, now: Tree, dir: Path, children: set<Path>, child: Path)
    requires Clearing(before, now, dir, children) && child in children
    ensures Clearing(before, Without(now, Whiteout(child)), dir, children - {child})
  {
    forall p
      ensures Remains(p, dir, children - {child}) <==> Remains(p, dir, children) && !(child <= p)
    {
      BelowChild(dir, child, p);
    }
  }

  lemma Cleared(before: Tree, now: Tree, dir: Path)
    requires Clearing(before, now, dir, {})
    ensures now == Without(before, Opaque(dir))
  {
    forall p
      ensures Remains(p, dir, {}) <==> !(dir < p)
    {
    }
  }

  lemma BelowChild(dir: Path, child: Path, p: Path)
    requires dir < child && |child| == |dir| + 1
    ensures child <= p <==> dir < p && p[..|dir| + 1] == child
  {
  }

  function ExtractAll(t: Tree, layers: seq<seq<Entry>>, n: nat): Option<Tree>
    requires n <= |layers|
  {
    if n == 0 then Some(t)
    else
      var before := ExtractAll(t, layers, n - 1);
      if before.None? then None else Extract(before.value, layers[n - 1], |layers[n - 1]|)
  }

  lemma {:induction false} FailureStays(t: Tree, es: seq<Entry>, n: nat, m: nat)
    requires n <= m <= |es| && Extract(t, es, n).None?
    ensures Extract(t, es, m).None?
  {
    if n < m {
      FailureStays(t, es, n, m - 1);
      assert Extract(t, es, m - 1).None?;
    }
  }

  lemma {:induction false} FailedLayerStays(t: Tree, layers: seq<seq<Entry>>, n: nat, m: nat, after: Tree)
    requires n <= m <= |layers| && AllUnpacked(t, layers, n, after, false)
    ensures AllUnpacked(t, layers, m, after, false)
  {
    if n < m {
      FailedLayerStays(t, layers, n, m - 1, after);
    }
  }

  lemma NothingBelow(t: Tree, dir: Path)
    requires TreeOk(t) && dir != [] && !(dir in t && IsDir(t[dir]))
    ensures Without(t, Opaque(dir)) == t
  {
    assert [] < dir;
    assert forall p | p in t :: !(dir < p);
  }

  lemma ParentsAre(path: Path, a: Path)
    ensures a in Parents(path) <==> [] < a < path
  {
    if [] < a < path {
      assert path[..|a|] == a;
    }
  }

  lemma NothingCovered(t: Tree)
    ensures Without(t, Skip) == t
  {
  }

  lemma PutOk(t: Tree, path: Path, item: Item)
    requires TreeOk(t) && path != [] && !Conflicts(t, path, item)
    ensures TreeOk(PutAt(t, path, item))
  {
    var r := PutAt(t, path, item);
    forall p, a: Path | p in r && [] < a < p
      ensures a in r && IsDir(r[a])
    {
      ParentsAre(path, p);
      ParentsAre(path, a);
      if p in t {
        assert a in t && IsDir(t[a]);
      } else {
        assert a in Parents(path);
      }
    }
  }

  lemma WithoutOk(t: Tree, op: Op)
    requires TreeOk(t)
    ensures TreeOk(Without(t, op))
  {
    var r := Without(t, op);
    forall p, a: Path | p in r && [] < a < p
      ensures a in r && IsDir(r[a])
    {
      assert Covers(op, a) ==> Covers(op, p);
    }
  }

  /** Every entry keeps the tree well formed. */
  lemma StepOk(t: Tree, op: Op)
    requires TreeOk(t) && (op.Put? ==> op.path != [])
    ensures Step(t, op).Some? ==> TreeOk(Step(t, op).value)
  {
    match op
    case Skip =>
    case Outside =>
    case Put(path, item) =>
      if !Conflicts(t, path, item) {
        PutOk(t, path, item);
      }
    case Detour(path, empties) => WithoutOk(t, Arrive(t, path, empties));
    case _ => WithoutOk(t, op);
  }

  // ---------------------------------------------------------------------
  // One path at a time: the last entry that concerns it wins
  // ---------------------------------------------------------------------

  function At(t: Tree, p: Path): Option<Node> {
    if p in t then Some(t[p]) else None
  }

  /** What one entry does to one path. */
  function Touch(x: Option<Node>, op: Op, p: Path): Option<Node> {
    if Covers(op, p) then None
    else if op.Put? && op.path == p then Some(Extracted(op.item))
    else if op.Put? && [] < p < op.path && x.None? then Some(Implicit)
    else x
  }

  function Trace(x: Option<Node>, es: seq<Entry>, n: nat, p: Path): Option<Node>
    requires n <= |es|
  {
    if n == 0 then x else Touch(Trace(x, es, n - 1, p), Classify(es[n - 1]), p)
  }

  /** No marker of the layer takes a detour. */
  predicate Direct(es: seq<Entry>) {
    forall i | 0 <= i < |es| :: !Classify(es[i]).Detour?
  }

  lemma StepTouches(t: Tree, op: Op, p: Path)
    requires Step(t, op).Some? && !op.Detour?
    ensures At(Step(t, op).value, p) == Touch(At(t, p), op, p)
  {
    if op.Put? {
      ParentsAre(op.path, p);
    }
  }

  /** The in-place tree, read at one path, is the trace of that path. */
  lemma {:induction false} ExtractIsTrace(t: Tree, es: seq<Entry>, n: nat, p: Path)
    requires n <= |es| && Extract(t, es, n).Some? && Direct(es)
    ensures At(Extract(t, es, n).value, p) == Trace(At(t, p), es, n, p)
  {
    if n > 0 {
      ExtractIsTrace(t, es, n - 1, p);
      StepTouches(Extract(t, es, n - 1).value, Classify(es[n - 1]), p);
    }
  }

  // ---------------------------------------------------------------------
  // The declarative union of one layer over a lower tree
  // ---------------------------------------------------------------------

  /** The layer's own version of a path. */
  function LastPut(es: seq<Entry>, n: nat, p: Path): Option<Item>
    requires n <= |es|
  {
    if n == 0 then None
    else
      var op := Classify(es[n - 1]);
      if op.Put? && op.path == p then Some(op.item) else LastPut(es, n - 1, p)
  }

  /** A whiteout or opaque marker of the layer hides the lower version. */
  predicate Hidden(es: seq<Entry>, n: nat, p: Path)
    requires n <= |es|
  {
    exists i :: 0 <= i < n && Covers(Classify(es[i]), p)
  }

  /** The layer has an entry below this path. */
  predicate HasBelow(es: seq<Entry>, n: nat, p: Path)
    requires n <= |es|
  {
    exists i :: 0 <= i < n && IsBelow(Classify(es[i]), p)
  }

  predicate IsBelow(op: Op, p: Path) {
    op.Put? && [] < p < op.path
  }

  /** The union at one path: the layer's version, or the lower one unless it is
      hidden, or a directory the layer needs. Markers hide lower layers only,
      wherever they stand in their own. */
  function UnionAt(lower: Option<Node>, es: seq<Entry>, n: nat, p: Path): Option<Node>
    requires n <= |es|
  {
    var own := LastPut(es, n, p);
    if own.Some? then Some(Extracted(own.value))
    else if lower.Some? && !Hidden(es, n, p) then lower
    else if HasBelow(es, n, p) then Some(Implicit)
    else None
  }

  /** The layer's version of `p` is followed by a marker that covers it. */
  predicate CoveredSince(es: seq<Entry>, n: nat, p: Path)
    requires n <= |es|
  {
    n > 0 &&
    var op := Classify(es[n - 1]);
    !(op.Put? && op.path == p) && (CoveredSince(es, n - 1, p) || (LastPut(es, n - 1, p).Some? && Covers(op, p)))
  }

  /** Markers precede the versions they would cover. */
  ghost predicate MarkersFirst(es: seq<Entry>, n: nat)
    requires n <= |es|
  {
    forall p :: !CoveredSince(es, n, p)
  }

  /** After the last marker that covers `p`, an entry below `p` follows. */
  predicate BelowSince(es: seq<Entry>, n: nat, p: Path)
    requires n <= |es|
  {
    n > 0 &&
    var op := Classify(es[n - 1]);
    IsBelow(op, p) || (!Covers(op, p) && BelowSince(es, n - 1, p))
  }

  /** What a path holds, by what the entries so far were: own version, covered
      since, lower version hidden, an entry below it since. */
  predicate Cases(x: Option<Node>, own: Option<Item>, covered: bool, hidden: bool, below: bool, trace: Option<Node>) {
    (own.Some? && !covered ==> trace == Some(Extracted(own.value))) &&
    (covered ==> own.Some? && (trace == None || trace == Some(Implicit))) &&
    (own.None? && x.Some? && !hidden ==> trace == x) &&
    (own.None? && !(x.Some? && !hidden) ==> trace == if below then Some(Implicit) else None)
  }

  lemma CasesStep(x: Option<Node>, own: Option<Item>, covered: bool, hidden: bool, below: bool, trace: Option<Node>,
                  op: Op, p: Path)
    requires Cases(x, own, covered, hidden, below, trace)
    ensures
      var put := op.Put? && op.path == p;
      Cases(x, if put then Some(op.item) else own, !put && (covered || (own.Some? && Covers(op, p))),
            hidden || Covers(op, p), IsBelow(op, p) || (!Covers(op, p) && below), Touch(trace, op, p))
  {
  }

  predicate CasesAt(x: Option<Node>, es: seq<Entry>, n: nat, p: Path)
    requires n <= |es|
  {
    Cases(x, LastPut(es, n, p), CoveredSince(es, n, p), Hidden(es, n, p), BelowSince(es, n, p), Trace(x, es, n, p))
  }

  lemma CasesAtStep(x: Option<Node>, es: seq<Entry>, n: nat, p: Path)
    requires 0 < n <= |es| && CasesAt(x, es, n - 1, p)
    ensures CasesAt(x, es, n, p)
  {
    var m := n - 1;
    HiddenStep(es, n, p);
    CasesStep(x, LastPut(es, m, p), CoveredSince(es, m, p), Hidden(es, m, p), BelowSince(es, m, p),
              Trace(x, es, m, p), Classify(es[m]), p);
  }

  /** The trace of a path, in closed form. */
  lemma {:induction false} TraceCases(x: Option<Node>, es: seq<Entry>, n: nat, p: Path)
    requires n <= |es|
    ensures CasesAt(x, es, n, p)
  {
    if n > 0 {
      TraceCases(x, es, n - 1, p);
      CasesAtStep(x, es, n, p);
    }
  }

  lemma HiddenStep(es: seq<Entry>, n: nat, p: Path)
    requires 0 < n <= |es|
    ensures Hidden(es, n, p) <==> Hidden(es, n - 1, p) || Covers(Classify(es[n - 1]), p)
  {
  }

  /** A marker over a path is a marker over everything below it. */
  lemma CoversBelow(op: Op, p: Path, q: Path)
    requires p < q && Covers(op, p)
    ensures Covers(op, q)
  {
  }

  lemma {:induction false} UncoveredEntryBelow(es: seq<Entry>, n: nat, p: Path, q: Path)
    requires n <= |es| && [] < p < q && LastPut(es, n, q).Some? && !CoveredSince(es, n, q)
    ensures BelowSince(es, n, p)
  {
    var op := Classify(es[n - 1]);
    if !(op.Put? && op.path == q) {
      UncoveredEntryBelow(es, n - 1, p, q);
      if Covers(op, p) {
        CoversBelow(op, p, q);
      }
    }
  }

  lemma {:induction false} BelowSinceHasBelow(es: seq<Entry>, n: nat, p: Path)
    requires n <= |es| && BelowSince(es, n, p)
    ensures HasBelow(es, n, p)
  {
    if !IsBelow(Classify(es[n - 1]), p) {
      BelowSinceHasBelow(es, n - 1, p);
    }
  }

  lemma {:induction false} PutIsLast(es: seq<Entry>, n: nat, i: nat)
    requires i < n <= |es| && Classify(es[i]).Put?
    ensures LastPut(es, n, Classify(es[i]).path).Some?
  {
    if i < n - 1 {
      PutIsLast(es, n - 1, i);
    }
  }

  /** With markers first, the trace is the union at every path. */
  lemma TraceIsUnion(x: Option<Node>, es: seq<Entry>, n: nat, p: Path)
    requires n <= |es| && MarkersFirst(es, n)
    ensures Trace(x, es, n, p) == UnionAt(x, es, n, p)
  {
    TraceCases(x, es, n, p);
    if BelowSince(es, n, p) {
      BelowSinceHasBelow(es, n, p);
    }
    if HasBelow(es, n, p) {
      var i :| 0 <= i < n && IsBelow(Classify(es[i]), p);
      PutIsLast(es, n, i);
      UncoveredEntryBelow(es, n, p, Classify(es[i]).path);
    }
  }

  /** A layer that unpacks leaves exactly its union with what was there, if and
      only if its markers precede the versions they would cover. */
  lemma LayerIsUnion(t: Tree, es: seq<Entry>)
    requires Extract(t, es, |es|).Some? && Direct(es)
    ensures (forall p :: At(Extract(t, es, |es|).value, p) == UnionAt(At(t, p), es, |es|, p)) <==>
      MarkersFirst(es, |es|)
  {
    var r := Extract(t, es, |es|).value;
    if MarkersFirst(es, |es|) {
      forall p
        ensures At(r, p) == UnionAt(At(t, p), es, |es|, p)
      {
        ExtractIsTrace(t, es, |es|, p);
        TraceIsUnion(At(t, p), es, |es|, p);
      }
    } else {
      var p :| CoveredSince(es, |es|, p);
      ExtractIsTrace(t, es, |es|, p);
      TraceCases(At(t, p), es, |es|, p);
    }
  }

  // ---------------------------------------------------------------------
  // When unpacking succeeds, and stacks of layers
  // ---------------------------------------------------------------------

  /** No marker comes after an entry it covers. */
  predicate Ordered(es: seq<Entry>) {
    forall i, j | 0 <= i < j < |es| && Classify(es[i]).Put? :: !Covers(Classify(es[j]), Classify(es[i]).path)
  }

  /** An entry finds only directories above it and keeps its path's type, in the
      union of the lower tree with the entries before it. */
  predicate KeepsTypes(t: Tree, es: seq<Entry>, i: nat)
    requires i < |es|
  {
    var op := Classify(es[i]);
    op.Put? ==>
      (forall a | a in Parents(op.path) :: var x := UnionAt(At(t, a), es, i, a); x.Some? ==> IsDir(x.value)) &&
      (var x := UnionAt(At(t, op.path), es, i, op.path); x.Some? ==> IsDir(x.value) == op.item.Directory?)
  }

  predicate NoTypeChange(t: Tree, es: seq<Entry>) {
    forall i | 0 <= i < |es| :: KeepsTypes(t, es, i)
  }

  lemma {:induction false} OrderedIsMarkersFirst(es: seq<Entry>, n: nat, p: Path)
    requires Ordered(es) && n <= |es|
    ensures !CoveredSince(es, n, p)
  {
    if n > 0 {
      OrderedIsMarkersFirst(es, n - 1, p);
      if LastPut(es, n - 1, p).Some? {
        var i := WhichPut(es, n - 1, p);
        assert Classify(es[i]).Put?;
      }
    }
  }

  lemma {:induction false} WhichPut(es: seq<Entry>, n: nat, p: Path) returns (i: nat)
    requires n <= |es| && LastPut(es, n, p).Some?
    ensures i < n && Classify(es[i]).Put? && Classify(es[i]).path == p
  {
    var op := Classify(es[n - 1]);
    if op.Put? && op.path == p {
      i := n - 1;
    } else {
      i := WhichPut(es, n - 1, p);
    }
  }

  lemma {:induction false} OrderedLayerUnpacks(t: Tree, es: seq<Entry>, n: nat)
    requires Ordered(es) && Direct(es) && NoTypeChange(t, es) && n <= |es|
    ensures Extract(t, es, n).Some?
    ensures forall p :: At(Extract(t, es, n).value, p) == UnionAt(At(t, p), es, n, p)
  {
    if n > 0 {
      OrderedLayerUnpacks(t, es, n - 1);
      var before := Extract(t, es, n - 1).value;
      assert KeepsTypes(t, es, n - 1);
      assert forall p :: At(before, p) == UnionAt(At(t, p), es, n - 1, p);
      assert Step(before, Classify(es[n - 1])).Some?;
    }
    forall p
      ensures At(Extract(t, es, n).value, p) == UnionAt(At(t, p), es, n, p)
    {
      forall q
        ensures !CoveredSince(es, n, q)
      {
        OrderedIsMarkersFirst(es, n, q);
      }
      ExtractIsTrace(t, es, n, p);
      TraceIsUnion(At(t, p), es, n, p);
    }
  }

  /** The union of a stack of layers, layer by layer. */
  function StackAt(base: Option<Node>, layers: seq<seq<Entry>>, n: nat, p: Path): Option<Node>
    requires n <= |layers|
  {
    if n == 0 then base else UnionAt(StackAt(base, layers, n - 1, p), layers[n - 1], |layers[n - 1]|, p)
  }

  /** Each layer is ordered, takes no detours and, over the union of the layers below it, changes
      no path's type. */
  ghost predicate WellStacked(t: Tree, layers: seq<seq<Entry>>, n: nat)
    requires n <= |layers|
  {
    n == 0 ||
    (WellStacked(t, layers, n - 1) && Ordered(layers[n - 1]) && Direct(layers[n - 1]) &&
     Fits(t, layers, n - 1))
  }

  ghost predicate Fits(t: Tree, layers: seq<seq<Entry>>, i: nat)
    requires i < |layers|
  {
    forall lower: Tree | IsStack(lower, t, layers, i) :: NoTypeChange(lower, layers[i])
  }

  /** A tree that is the union of the lowest `n` layers over `t`. */
  ghost predicate IsStack(r: Tree, t: Tree, layers: seq<seq<Entry>>, n: nat)
    requires n <= |layers|
  {
    forall p :: At(r, p) == StackAt(At(t, p), layers, n, p)
  }

  /** Pulling a well-stacked image succeeds and leaves exactly the union. */
  lemma {:induction false} ImageIsUnion(t: Tree, layers: seq<seq<Entry>>, n: nat)
    requires n <= |layers| && WellStacked(t, layers, n)
    ensures ExtractAll(t, layers, n).Some?
    ensures IsStack(ExtractAll(t, layers, n).value, t, layers, n)
  {
    if n > 0 {
      ImageIsUnion(t, layers, n - 1);
      var lower := ExtractAll(t, layers, n - 1).value;
      assert IsStack(lower, t, layers, n - 1);
      OrderedLayerUnpacks(lower, layers[n - 1], |layers[n - 1]|);
    }
  }

  // ---------------------------------------------------------------------
  // The union in closed form
  // ---------------------------------------------------------------------

  /** Layer `i`'s own version of a path. */
  function OwnAt(layers: seq<seq<Entry>>, i: nat, p: Path): Option<Item>
    requires i < |layers|
  {
    LastPut(layers[i], |layers[i]|, p)
  }

  predicate HiddenBy(layers: seq<seq<Entry>>, i: nat, p: Path)
    requires i < |layers|
  {
    Hidden(layers[i], |layers[i]|, p)
  }

  predicate NeededBy(layers: seq<seq<Entry>>, i: nat, p: Path)
    requires i < |layers|
  {
    HasBelow(layers[i], |layers[i]|, p)
  }

  predicate LeftAlone(layers: seq<seq<Entry>>, i: nat, p: Path)
    requires i < |layers|
  {
    OwnAt(layers, i, p).None? && !HiddenBy(layers, i, p)
  }

  /** No layer from `lo` on has a version of the path or hides it. */
  predicate Exposed(layers: seq<seq<Entry>>, lo: nat, n: nat, p: Path)
    requires n <= |layers|
  {
    forall j | lo <= j < n :: LeftAlone(layers, j, p)
  }

  /** Layer `k` has the topmost version, and no later layer hides it. */
  predicate Topmost(layers: seq<seq<Entry>>, k: nat, n: nat, p: Path)
    requires k < n <= |layers|
  {
    OwnAt(layers, k, p).Some? && Exposed(layers, k + 1, n, p)
  }

  /** Layer `k` needs the directory, and no later layer hides it. */
  predicate Needed(layers: seq<seq<Entry>>, k: nat, n: nat, p: Path)
    requires k < n <= |layers|
  {
    NeededBy(layers, k, p) && Exposed(layers, k + 1, n, p)
  }

  /** `r` is the topmost version of the path that no later layer hides; failing
      that the base's, under the same condition; failing that a directory some
      layer needs and none after it hides; failing that, nothing. */
  ghost predicate IsTopmost(r: Option<Node>, base: Option<Node>, layers: seq<seq<Entry>>, n: nat, p: Path)
    requires n <= |layers|
  {
    if exists k :: 0 <= k < n && Topmost(layers, k, n, p) then
      forall k | 0 <= k < n && Topmost(layers, k, n, p) :: r == Some(Extracted(OwnAt(layers, k, p).value))
    else if base.Some? && Exposed(layers, 0, n, p) then r == base
    else r == if exists k :: 0 <= k < n && Needed(layers, k, n, p) then Some(Implicit) else None
  }

  lemma {:induction false} TopmostShows(base: Option<Node>, layers: seq<seq<Entry>>, n: nat, p: Path, k: nat)
    requires k < n <= |layers| && Topmost(layers, k, n, p)
    ensures StackAt(base, layers, n, p) == Some(Extracted(OwnAt(layers, k, p).value))
  {
    if k < n - 1 {
      TopmostShows(base, layers, n - 1, p, k);
      assert LeftAlone(layers, n - 1, p);
    }
  }

  lemma {:induction false} BaseShows(base: Option<Node>, layers: seq<seq<Entry>>, n: nat, p: Path)
    requires n <= |layers| && base.Some? && Exposed(layers, 0, n, p)
    ensures StackAt(base, layers, n, p) == base
  {
    if n > 0 {
      BaseShows(base, layers, n - 1, p);
      assert LeftAlone(layers, n - 1, p);
    }
  }

  lemma {:induction false} NeededShows(base: Option<Node>, layers: seq<seq<Entry>>, n: nat, p: Path, k: nat)
    requires k < n <= |layers| && Needed(layers, k, n, p)
    ensures StackAt(base, layers, n, p).Some?
  {
    if k < n - 1 {
      NeededShows(base, layers, n - 1, p, k);
      assert LeftAlone(layers, n - 1, p);
    }
  }

  lemma LayerShows(lower: Option<Node>, layers: seq<seq<Entry>>, i: nat, p: Path)
    requires i < |layers|
    ensures
      var r, over := UnionAt(lower, layers[i], |layers[i]|, p), LeftAlone(layers, i, p) && lower.Some?;
      (over ==> r == lower) &&
      (!over && r.Some? ==> OwnAt(layers, i, p).Some? || (NeededBy(layers, i, p) && r == Some(Implicit)))
  {
  }

  lemma ExposedStep(layers: seq<seq<Entry>>, n: nat, p: Path)
    requires 0 < n <= |layers| && LeftAlone(layers, n - 1, p)
    ensures forall lo | 0 <= lo < n :: Exposed(layers, lo, n, p) <==> Exposed(layers, lo, n - 1, p)
  {
  }

  /** `k` is the layer a version comes from; the number of layers stands for the base. */
  predicate IsSource(r: Option<Node>, base: Option<Node>, layers: seq<seq<Entry>>, n: nat, p: Path, k: nat)
    requires n <= |layers|
  {
    k <= n &&
    (k == n ==> Exposed(layers, 0, n, p) && r == base) &&
    (k < n && !Topmost(layers, k, n, p) ==> Needed(layers, k, n, p) && r == Some(Implicit))
  }

  /** A layer that leaves the path alone leaves its source. */
  lemma SourceStays(r: Option<Node>, base: Option<Node>, layers: seq<seq<Entry>>, n: nat, p: Path, k: nat)
    requires 0 < n <= |layers| && LeftAlone(layers, n - 1, p) && IsSource(r, base, layers, n - 1, p, k)
    ensures IsSource(r, base, layers, n, p, if k == n - 1 then n else k)
  {
    ExposedStep(layers, n, p);
  }

  /** The layer a path's version comes from, or the base. */
  lemma {:induction false} ComesFrom(base: Option<Node>, layers: seq<seq<Entry>>, n: nat, p: Path) returns (k: nat)
    requires n <= |layers| && StackAt(base, layers, n, p).Some?
    ensures IsSource(StackAt(base, layers, n, p), base, layers, n, p, k)
  {
    if n == 0 {
      return 0;
    }
    var lower := StackAt(base, layers, n - 1, p);
    LayerShows(lower, layers, n - 1, p);
    if LeftAlone(layers, n - 1, p) && lower.Some? {
      var below := ComesFrom(base, layers, n - 1, p);
      SourceStays(lower, base, layers, n, p, below);
      k := if below == n - 1 then n else below;
    } else {
      k := n - 1;
      assert Exposed(layers, k + 1, n, p);
    }
  }

  /** The fold of unions is that version, at every path. */
  lemma StackIsTopmost(base: Option<Node>, layers: seq<seq<Entry>>, n: nat, p: Path)
    requires n <= |layers|
    ensures IsTopmost(StackAt(base, layers, n, p), base, layers, n, p)
  {
    forall k | 0 <= k < n && Topmost(layers, k, n, p)
      ensures StackAt(base, layers, n, p) == Some(Extracted(OwnAt(layers, k, p).value))
    {
      TopmostShows(base, layers, n, p, k);
    }
    if base.Some? && Exposed(layers, 0, n, p) {
      BaseShows(base, layers, n, p);
    }
    if k :| 0 <= k < n && Needed(layers, k, n, p) {
      NeededShows(base, layers, n, p, k);
    }
    if StackAt(base, layers, n, p).Some? {
      var _ := ComesFrom(base, layers, n, p);
    }
  }

  /** There is one such version, so that the two definitions agree. */
  lemma TopmostIsUnique(r: Option<Node>, base: Option<Node>, layers: seq<seq<Entry>>, n: nat, p: Path)
    requires n <= |layers|
    ensures IsTopmost(r, base, layers, n, p) <==> r == StackAt(base, layers, n, p)
  {
    StackIsTopmost(base, layers, n, p);
  }

  /** Pulling a well-stacked image leaves at every path the topmost version that no
      later layer hides. */
  lemma ImageIsTopmost(t: Tree, layers: seq<seq<Entry>>, p: Path)
    requires WellStacked(t, layers, |layers|)
    ensures ExtractAll(t, layers, |layers|).Some?
    ensures IsTopmost(At(ExtractAll(t, layers, |layers|).value, p), At(t, p), layers, |layers|, p)
  {
    ImageIsUnion(t, layers, |layers|);
    StackIsTopmost(At(t, p), layers, |layers|, p);
  }

  // ---------------------------------------------------------------------
  // Where a layer acts
  // ---------------------------------------------------------------------

  /** `Path::join`: an absolute path replaces what it is joined to. */
  function Join(root: Path, absolute: bool, path: Path): Path {
    if absolute then path else root + path
  }

  /** A host path with its `..` resolved by name; the parent of `/` is `/`. */
  function Lexical(path: Path): Path {
    if path == [] then []
    else
      var up, c := Lexical(path[..|path| - 1]), path[|path| - 1];
      if c == ".." then Parent(up) else up + [c]
  }

  /** What a marker hands the file system lies at or below the root. */
  predicate StaysBelow(root: Path, e: Entry)
    requires IsMarker(e)
  {
    root <= Lexical(Join(root, e.absolute, Marked(e)))
  }

  lemma {:induction false} LexicalPlain(path: Path)
    requires ".." !in path
    ensures Lexical(path) == path && Normal(path) == Some(path)
  {
    if path != [] {
      var n := |path| - 1;
      LexicalPlain(path[..n]);
      assert path[n] in path;
      assert path == path[..n] + [path[n]];
    }
  }

  /** A path that does not climb stays below whatever it is joined to. */
  lemma {:induction false} NormalStays(root: Path, path: Path)
    requires ".." !in root && Normal(path).Some?
    ensures Lexical(root + path) == root + Normal(path).value
  {
    if path == [] {
      assert root + path == root;
      LexicalPlain(root);
    } else {
      var n := |path| - 1;
      assert (root + path)[..|root| + n] == root + path[..n];
      NormalStays(root, path[..n]);
      if path[n] == ".." {
        assert Parent(root + Normal(path[..n]).value) == root + Parent(Normal(path[..n]).value);
      }
    }
  }

  /** One that climbs leaves a root whose name it does not mention. */
  lemma {:induction false} ClimbLeaves(name: string, path: Path)
    requires name !in path && name != ".." && Normal(path).None?
    ensures name !in Lexical([name] + path)
  {
    var n := |path| - 1;
    assert ([name] + path)[..n + 1] == [name] + path[..n];
    if Normal(path[..n]).None? {
      ClimbLeaves(name, path[..n]);
    } else {
      LexicalPlain([name]);
      NormalStays([name], path[..n]);
    }
  }

  lemma {:induction false} LexicalNames(path: Path, name: string)
    requires name !in path
    ensures name !in Lexical(path)
  {
    if path != [] {
      LexicalNames(path[..|path| - 1], name);
    }
  }

  /** A name longer than any on the path, and so not on it. */
  function Unused(path: Path): (name: string)
    ensures |name| > 2 && forall c | c in path :: |c| < |name|
  {
    if path == [] then "new"
    else
      var rest := Unused(path[1..]);
      if |path[0]| < |rest| then rest else path[0] + "new"
  }

  lemma OutsideIff(e: Entry)
    ensures Classify(e).Outside? <==> IsMarker(e) && (e.absolute || Normal(Marked(e)).None?)
  {
  }

  lemma NotBelow(name: string, path: Path)
    requires name !in path
    ensures !([name] <= path)
  {
    assert path == [] || path[0] in path;
  }

  /** A root that a marker which is absolute or climbs leaves. */
  lemma SomeRootIsLeft(absolute: bool, path: Path) returns (root: Path)
    requires absolute || Normal(path).None?
    ensures root != [] && ".." !in root && !(root <= Lexical(Join(root, absolute, path)))
  {
    var name := Unused(path);
    assert name !in path && |name| > |".."|;
    root := [name];
    if absolute {
      LexicalNames(path, name);
    } else {
      ClimbLeaves(name, path);
    }
    NotBelow(name, Lexical(Join(root, absolute, path)));
  }

  /** Whatever directory the root is, a marker's path stays below it if and only if
      the marker is neither absolute nor climbs. */
  lemma MarkerConfinedIff(e: Entry)
    requires IsMarker(e)
    ensures (forall root: Path | root != [] && ".." !in root :: StaysBelow(root, e))
       <==> !e.absolute && Normal(Marked(e)).Some?
  {
    if !e.absolute && Normal(Marked(e)).Some? {
      forall root: Path | root != [] && ".." !in root
        ensures StaysBelow(root, e)
      {
        NormalStays(root, Marked(e));
      }
    } else {
      var root := SomeRootIsLeft(e.absolute, Marked(e));
      assert !StaysBelow(root, e);
    }
  }

  function Ups(path: Path): nat {
    if path == [] then 0 else Ups(path[..|path| - 1]) + if path[|path| - 1] == ".." then 1 else 0
  }

  /** Climbing, by counting: some first part of the path has more `..` than names. */
  lemma {:induction false} ClimbsIff(path: Path)
    ensures Ups(path) <= |path|
    ensures Normal(path).None? <==> exists k :: 0 <= k <= |path| && 2 * Ups(path[..k]) > k
    ensures Normal(path).Some? ==> |Normal(path).value| == |path| - 2 * Ups(path)
  {
    assert path[..|path|] == path;
    if path != [] {
      var n := |path| - 1;
      ClimbsIff(path[..n]);
      assert forall k | 0 <= k <= n :: path[..n][..k] == path[..k];
    }
  }

  /** No marker of the layer is absolute or climbs. */
  predicate Confined(es: seq<Entry>) {
    forall i | 0 <= i < |es| && IsMarker(es[i]) :: !es[i].absolute && Normal(Marked(es[i])).Some?
  }

  /** Every path a marker of the layer hands the file system is below the root. */
  ghost predicate ActsBelow(es: seq<Entry>) {
    forall i, root: Path | 0 <= i < |es| && IsMarker(es[i]) && root != [] && ".." !in root :: StaysBelow(root, es[i])
  }

  lemma PutsAreBelow(e: Entry)
    ensures Classify(e).Put? ==> !e.absolute && ".." !in Classify(e).path
  {
  }

  /** A layer acts only below the root, whatever directory that is, if and only if
      none of its markers is absolute or climbs. Its other entries always do. */
  lemma ConfinedIff(es: seq<Entry>)
    ensures ActsBelow(es) <==> Confined(es)
    ensures Confined(es) <==> forall i | 0 <= i < |es| :: !Classify(es[i]).Outside?
    ensures forall i | 0 <= i < |es| && Classify(es[i]).Put? :: !es[i].absolute && ".." !in Classify(es[i]).path
  {
    BelowIff(es);
    forall i | 0 <= i < |es|
      ensures Classify(es[i]).Outside? <==> IsMarker(es[i]) && (es[i].absolute || Normal(Marked(es[i])).None?)
      ensures Classify(es[i]).Put? ==> !es[i].absolute && ".." !in Classify(es[i]).path
    {
      OutsideIff(es[i]);
      PutsAreBelow(es[i]);
    }
  }

  lemma BelowIff(es: seq<Entry>)
    ensures ActsBelow(es) <==> Confined(es)
  {
    forall i | 0 <= i < |es| && IsMarker(es[i])
      ensures (forall root: Path | root != [] && ".." !in root :: StaysBelow(root, es[i]))
         <==> !es[i].absolute && Normal(Marked(es[i])).Some?
    {
      MarkerConfinedIff(es[i]);
    }
  }

  /** A whiteout with an absolute path leaves the tree alone and is handed to the
      file system as it stands. */
  lemma AbsoluteMarkerActsOutside(t: Tree, root: Path, dir: Path, name: string, item: Item)
    requires ".wh." + name != ".wh..wh..opq" && name != "."
    ensures
      var e := Entry(true, dir + [".wh." + name], item);
      IsMarker(e) && Step(t, Classify(e)) == Some(t) && Join(root, e.absolute, Marked(e)) == dir + [name]
  {
    var e := Entry(true, dir + [".wh." + name], item);
    assert FileName(e.path) == ".wh." + name && Parent(e.path) == dir && (".wh." + name)[4..] == name;
  }

  /** The two markers: `.wh..wh..opq` empties the directory it stands in,
      `.wh.` and a name removes that sibling with all below it. */
  lemma MarkersMean(t: Tree, dir: Path, name: string, item: Item)
    requires ".wh." + name != ".wh..wh..opq" && name != "" && name != "." && ".." !in dir + [name]
    ensures
      var emptied := Extract(t, [Entry(false, dir + [".wh..wh..opq"], item)], 1);
      emptied.Some? && forall p :: At(emptied.value, p) == if dir < p then None else At(t, p)
    ensures
      var white := Extract(t, [Entry(false, dir + [".wh." + name], item)], 1);
      white.Some? && forall p :: At(white.value, p) == if dir + [name] <= p then None else At(t, p)
  {
    var a, b := Entry(false, dir + [".wh..wh..opq"], item), Entry(false, dir + [".wh." + name], item);
    assert Parent(a.path) == dir && Parent(b.path) == dir;
    LexicalPlain(dir);
    LexicalPlain(dir + [name]);
    assert StartsWith(".wh..wh..opq", ".wh.");
    assert Classify(a) == Opaque(dir);
    assert (".wh." + name)[4..] == name && StartsWith(".wh." + name, ".wh.");
    assert Classify(b) == Whiteout(dir + [name]);
    assert Extract(t, [a], 1) == Step(t, Opaque(dir));
    assert Extract(t, [b], 1) == Step(t, Whiteout(dir + [name]));
  }

  /** Where the path has led after its first `k` names there is a directory. */
  predicate LedTo(t: Tree, path: Path, k: nat)
    requires k <= |path|
  {
    var q := Normal(path[..k]);
    q.Some? && (q.value == [] || (q.value in t && IsDir(t[q.value])))
  }

  /** The path leads somewhere below the root, over directories. */
  predicate Leads(t: Tree, path: Path) {
    Normal(path).Some? && forall k | 0 <= k < |path| :: LedTo(t, path, k)
  }

  /** A path leads where its `..`, taken against the names before them, say, exactly
      if there is a directory at every place on the way. */
  lemma {:induction false} ResolvesIff(t: Tree, path: Path)
    ensures Resolve(t, path) == if Leads(t, path) then Normal(path) else None
  {
    if path != [] {
      var n := |path| - 1;
      var up := path[..n];
      ResolvesIff(t, up);
      forall k | 0 <= k < n
        ensures LedTo(t, path, k) <==> LedTo(t, up, k)
      {
        assert path[..k] == up[..k];
      }
      assert Leads(t, path) ==> LedTo(t, path, n);
      assert Leads(t, up) && LedTo(t, path, n) && Normal(path).Some? ==> Leads(t, path);
    }
  }

  /** What a marker leaves that empties, or deletes, where a path leads. */
  ghost predicate ActsAt(t: Tree, after: Option<Tree>, path: Path, empties: bool) {
    after.Some? &&
    forall p :: At(after.value, p) ==
      if Leads(t, path) && Normal(path).value <= p && (empties ==> p != Normal(path).value) then None else At(t, p)
  }

  lemma DetourActs(t: Tree, path: Path, empties: bool)
    requires ".." in path
    ensures ActsAt(t, Step(t, Marker(false, path, empties)), path, empties)
  {
    ResolvesIff(t, path);
  }

  /** A marker whose path goes up on its way does at the place it leads to what the
      plain one would do there, and nothing if it leads nowhere. A name of one dot
      empties the marker's own directory, one of two dots the directory above. */
  lemma DetoursMean(t: Tree, dir: Path, name: string, item: Item)
    requires ".wh." + name != ".wh..wh..opq" && name != "" && name != "." && name != ".."
    ensures ".." in dir ==> ActsAt(t, Extract(t, [Entry(false, dir + [".wh..wh..opq"], item)], 1), dir, true)
    ensures ".." in dir ==> ActsAt(t, Extract(t, [Entry(false, dir + [".wh." + name], item)], 1), dir + [name], false)
    ensures ".." in dir ==> ActsAt(t, Extract(t, [Entry(false, dir + [".wh.."], item)], 1), dir, true)
    ensures ActsAt(t, Extract(t, [Entry(false, dir + [".wh..."], item)], 1), dir + [".."], true)
  {
    OneMarker(t, dir, ".wh..wh..opq", item);
    OneMarker(t, dir, ".wh." + name, item);
    OneMarker(t, dir, ".wh..", item);
    OneMarker(t, dir, ".wh...", item);
    assert (".wh." + name)[4..] == name && ".wh.."[4..] == "." && ".wh..."[4..] == "..";
    if ".." in dir {
      DetourActs(t, dir, true);
      DetourActs(t, dir + [name], false);
    }
    DetourActs(t, dir + [".."], true);
  }

  lemma OneMarker(t: Tree, dir: Path, file: string, item: Item)
    requires ".wh." <= file
    ensures
      var about := if file == ".wh..wh..opq" || file[4..] == "." then dir else dir + [file[4..]];
      var empties := file == ".wh..wh..opq" || file[4..] in {".", ".."};
      Extract(t, [Entry(false, dir + [file], item)], 1) == Step(t, Marker(false, about, empties))
  {
    var e := Entry(false, dir + [file], item);
    assert Parent(e.path) == dir && FileName(e.path) == file;
    assert Extract(t, [e], 1) == Step(t, Classify(e));
  }

  /** A marker after the entry it covers: the entry is lost, the union keeps it. */
  lemma LateWhiteoutDeletesOwnEntry(t: Tree, dir: Path, name: string, item: Item)
    requires ".." !in dir + [name] && !StartsWith(name, ".wh.") && !Conflicts(t, dir + [name], item)
    requires ".wh." + name != ".wh..wh..opq" && name != "" && name != "."
    ensures
      var p, es := dir + [name], [Entry(false, dir + [name], item), Entry(false, dir + [".wh." + name], item)];
      Extract(t, es, 2).Some? && At(Extract(t, es, 2).value, p) == None &&
      UnionAt(At(t, p), es, 2, p) == Some(Extracted(item))
  {
    var p, marker := dir + [name], ".wh." + name;
    var es := [Entry(false, p, item), Entry(false, dir + [marker], item)];
    assert marker[4..] == name && StartsWith(marker, ".wh.") && StartsWith(".wh..wh..opq", ".wh.");
    assert Parent(es[1].path) == dir && FileName(es[1].path) == marker && FileName(p) == name;
    var put := Classify(es[0]);
    LexicalPlain(p);
    assert put == Put(p, item) && Classify(es[1]) == Whiteout(p);
    assert Extract(t, es, 1) == Step(t, put);
    assert LastPut(es, 1, p) == Some(item);
  }
}
