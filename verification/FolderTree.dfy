/** The directory tree of the files drawer, as a value: how files are added to it, and what
    its counters then mean. */
module FolderTree {
  import opened Prelude
  import opened FolderPaths

  /** A file with what the caller's `meta` says of it; an infinite size is no size. */
  datatype File = File(id: nat, relPath: string, size: Option<int>)

  function SegmentsOf(f: File): (segs: seq<string>)
    ensures AreSegments(segs)
  {
    Segments(Normalize(f.relPath))
  }

  /** The file was uploaded inside a folder with a usable name. */
  predicate InFolder(f: File) {
    var segs := SegmentsOf(f);
    !("/" <= Normalize(f.relPath)) && |segs| >= 2 && segs[0] != "." && segs[0] != ".."
  }

  function PathOf(f: File): string {
    Join(SegmentsOf(f))
  }

  /** The directory the file lies in directly. */
  function DirOf(f: File): string {
    var segs := SegmentsOf(f);
    if segs == [] then "" else Join(segs[..|segs| - 1])
  }

  function SizeOf(f: File): int {
    if f.size.Some? then f.size.value else 0
  }

  // ---------------------------------------------------------------------------------------
  // What the counters are meant to say

  predicate Under(dir: string, f: File) {
    InFolder(f) && LiesUnder(dir, PathOf(f))
  }

  function Count(dir: string, files: seq<File>): nat {
    if files == [] then 0 else Count(dir, files[..|files| - 1]) + if Under(dir, files[|files| - 1]) then 1 else 0
  }

  function Total(dir: string, files: seq<File>): int {
    if files == [] then 0
    else Total(dir, files[..|files| - 1]) + if Under(dir, files[|files| - 1]) then SizeOf(files[|files| - 1]) else 0
  }

  function Direct(dir: string, files: seq<File>): seq<File> {
    if files == [] then []
    else
      var last := files[|files| - 1];
      Direct(dir, files[..|files| - 1]) + if InFolder(last) && DirOf(last) == dir then [last] else []
  }

  function Outside(files: seq<File>): seq<File> {
    if files == [] then []
    else Outside(files[..|files| - 1]) + if InFolder(files[|files| - 1]) then [] else [files[|files| - 1]]
  }

  // ---------------------------------------------------------------------------------------
  // The tree

  /** A directory; its children are named by their paths. */
  datatype Node = Node(files: seq<File>, children: seq<string>, fileCount: nat, size: int)

  /** The directories by path, and their paths in first-seen order. */
  datatype Tree = Tree(order: seq<string>, nodes: map<string, Node>)

  const EMPTY_NODE := Node([], [], 0, 0)

  /** The tree with a directory in it, and its parents, each linked to its parent. */
  function Ensure(t: Tree, segs: seq<string>): (r: Tree)
    requires segs != []
    ensures Join(segs) in r.nodes && forall p :: p in t.nodes ==> p in r.nodes
    decreases |segs|
  {
    var path := Join(segs);
    if path in t.nodes then t
    else
      var t1 := Tree(t.order + [path], t.nodes[path := EMPTY_NODE]);
      if |segs| == 1 then t1
      else
        var up := segs[..|segs| - 1];
        AddChild(Ensure(t1, up), Join(up), path)
  }

  function AddChild(t: Tree, parent: string, path: string): Tree
    requires parent in t.nodes
  {
    var node := t.nodes[parent];
    if path in node.children then t else t.(nodes := t.nodes[parent := node.(children := node.children + [path])])
  }

  function Bump(t: Tree, path: string, size: int): Tree
    requires path in t.nodes
  {
    var node := t.nodes[path];
    t.(nodes := t.nodes[path := node.(fileCount := node.fileCount + 1, size := node.size + size)])
  }

  function Push(t: Tree, path: string, f: File): Tree
    requires path in t.nodes
  {
    var node := t.nodes[path];
    t.(nodes := t.nodes[path := node.(files := node.files + [f])])
  }

  /** The walk down the first d levels of a path, counting the file at each. */
  function Along(t: Tree, segs: seq<string>, size: int, d: nat): Tree
    requires d <= |segs|
  {
    if d == 0 then t
    else
      assert segs[..d] != [];
      Bump(Ensure(Along(t, segs, size, d - 1), segs[..d]), Join(segs[..d]), size)
  }

  function AddFile(t: Tree, f: File): Tree {
    if !InFolder(f) then t
    else
      var segs := SegmentsOf(f);
      var up := segs[..|segs| - 1];
      Push(Ensure(Along(t, segs, SizeOf(f), |segs| - 1), up), Join(up), f)
  }

  function Build(files: seq<File>): Tree {
    if files == [] then Tree([], map[]) else AddFile(Build(files[..|files| - 1]), files[|files| - 1])
  }

  // ---------------------------------------------------------------------------------------
  // The invariant, between files and between two levels of one file's path

  /** One of the first d levels of the path. */
  ghost predicate Level(p: string, segs: seq<string>, d: nat)
    requires d <= |segs|
  {
    exists i :: 0 < i <= d && p == Join(segs[..i])
  }

  ghost predicate Ordered(t: Tree) {
    && (forall i, j :: 0 <= i < j < |t.order| ==> t.order[i] != t.order[j])
    && (forall p :: p in t.nodes <==> p in t.order)
  }

  ghost predicate Known(t: Tree, done: seq<File>, segs: seq<string>, d: nat)
    requires d <= |segs|
  {
    forall p :: p in t.nodes <==> Count(p, done) > 0 || Level(p, segs, d)
  }

  ghost predicate CountedAt(p: string, n: Node, done: seq<File>, bumped: bool, size: int) {
    && n.fileCount == Count(p, done) + (if bumped then 1 else 0)
    && n.size == Total(p, done) + (if bumped then size else 0)
    && n.files == Direct(p, done)
  }

  ghost predicate Counted(t: Tree, done: seq<File>, segs: seq<string>, size: int, d: nat)
    requires d <= |segs|
  {
    forall p :: p in t.nodes ==> CountedAt(p, t.nodes[p], done, Level(p, segs, d), size)
  }

  /** The children among some directories, in their order. */
  function ChildrenIn(p: string, order: seq<string>): seq<string> {
    if order == [] then []
    else ChildrenIn(p, order[..|order| - 1]) + if IsChild(p, order[|order| - 1]) then [order[|order| - 1]] else []
  }

  ghost predicate Linked(t: Tree) {
    forall p :: p in t.nodes ==> t.nodes[p].children == ChildrenIn(p, t.order)
  }

  ghost predicate Mid(t: Tree, done: seq<File>, segs: seq<string>, size: int, d: nat)
    requires d <= |segs|
  {
    Ordered(t) && Known(t, done, segs, d) && Counted(t, done, segs, size, d) && Linked(t)
  }

  // ---------------------------------------------------------------------------------------
  // One level

  lemma ChildrenSnoc(p: string, order: seq<string>, path: string)
    ensures ChildrenIn(p, order + [path]) == ChildrenIn(p, order) + if IsChild(p, path) then [path] else []
  {
    assert (order + [path])[..|order|] == order;
  }

  lemma {:induction false} ChildrenAre(p: string, order: seq<string>, c: string)
    ensures c in ChildrenIn(p, order) <==> c in order && IsChild(p, c)
  {
    if order != [] {
      var front, last := order[..|order| - 1], order[|order| - 1];
      ChildrenAre(p, front, c);
      assert order == front + [last];
    }
  }

  lemma {:induction false} NoChildren(p: string, order: seq<string>)
    requires forall c :: c in order ==> !IsChild(p, c)
    ensures ChildrenIn(p, order) == []
  {
    if order != [] {
      NoChildren(p, order[..|order| - 1]);
    }
  }

  /** Nothing is counted where nothing lies. */
  lemma {:induction false} NothingThere(p: string, files: seq<File>)
    requires Count(p, files) == 0
    ensures Total(p, files) == 0 && Direct(p, files) == []
  {
    if files != [] {
      NothingThere(p, files[..|files| - 1]);
      if InFolder(files[|files| - 1]) {
        DirIsAbove(files[|files| - 1]);
      }
    }
  }

  lemma DirIsAbove(f: File)
    requires InFolder(f)
    ensures Under(DirOf(f), f)
  {
    UnderPrefix(SegmentsOf(f), |SegmentsOf(f)| - 1);
  }

  lemma UnderIsTransitive(a: string, b: string, c: string)
    requires LiesUnder(a, b) && LiesUnder(b, c)
    ensures LiesUnder(a, c)
  {
    assert b <= c;
  }

  lemma {:induction false} CountsAbove(p: string, c: string, files: seq<File>)
    requires LiesUnder(p, c)
    ensures Count(c, files) <= Count(p, files)
  {
    if files != [] {
      var last := files[|files| - 1];
      CountsAbove(p, c, files[..|files| - 1]);
      if LiesUnder(c, PathOf(last)) {
        UnderIsTransitive(p, c, PathOf(last));
      }
    }
  }

  /** The levels of a path differ. */
  lemma LevelsDiffer(segs: seq<string>, d: nat)
    requires d < |segs| && AreSegments(segs)
    ensures !Level(Join(segs[..d + 1]), segs, d)
    ensures forall p :: Level(p, segs, d + 1) <==> Level(p, segs, d) || p == Join(segs[..d + 1])
  {
    forall i | 0 < i <= d
      ensures Join(segs[..d + 1]) != Join(segs[..i])
    {
      PrefixesDiffer(segs, i, d + 1);
    }
  }

  lemma PrefixesDiffer(segs: seq<string>, i: nat, j: nat)
    requires i < j <= |segs| && AreSegments(segs)
    ensures Join(segs[..i]) != Join(segs[..j])
  {
    assert |segs[..i]| != |segs[..j]|;
    if Join(segs[..i]) == Join(segs[..j]) {
      JoinInjective(segs[..i], segs[..j]);
    }
  }

  lemma NotBothUnder(a: string, b: string)
    requires LiesUnder(a, b)
    ensures !LiesUnder(b, a)
  {}

  /** A new level has no children yet: they would have made it known. */
  lemma NewHasNoChildren(t: Tree, done: seq<File>, segs: seq<string>, d: nat)
    requires d < |segs| && AreSegments(segs) && Ordered(t) && Known(t, done, segs, d) && Join(segs[..d + 1]) !in t.nodes
    ensures ChildrenIn(Join(segs[..d + 1]), t.order) == []
  {
    var path := Join(segs[..d + 1]);
    forall c | c in t.order
      ensures !IsChild(path, c)
    {
      if LiesUnder(path, c) {
        CountsAbove(path, c, done);
      }
      if Level(c, segs, d) {
        var i :| 0 < i <= d && c == Join(segs[..i]);
        assert segs[..d + 1][..i] == segs[..i];
        UnderPrefix(segs[..d + 1], i);
        NotBothUnder(c, path);
      }
    }
    NoChildren(path, t.order);
  }

  /** Which directory a directory is a child of. */
  lemma ChildOfOne(segs: seq<string>)
    requires segs != [] && AreSegments(segs)
    ensures forall p :: IsChild(p, Join(segs)) <==> |segs| > 1 && p == Join(segs[..|segs| - 1])
  {
    hide IsChild, Join;
    if |segs| > 1 {
      ChildOfParent(segs);
    }
    forall p
      ensures IsChild(p, Join(segs)) <==> |segs| > 1 && p == Join(segs[..|segs| - 1])
    {
      if IsChild(p, Join(segs)) {
        ChildOnlyOfParent(p, segs);
      }
    }
  }

  /** Adding a missing level: an empty node, linked to the level above. */
  lemma EnsureNew(t: Tree, done: seq<File>, segs: seq<string>, size: int, d: nat)
    requires d < |segs| && AreSegments(segs) && Mid(t, done, segs, size, d) && Join(segs[..d + 1]) !in t.nodes
    ensures var path := Join(segs[..d + 1]);
            var r := Ensure(t, segs[..d + 1]);
            && r.order == t.order + [path]
            && (forall p :: p in r.nodes <==> p in t.nodes || p == path)
            && r.nodes[path] == EMPTY_NODE
            && forall p :: p in t.nodes ==>
                 r.nodes[p] == t.nodes[p].(children := t.nodes[p].children + if IsChild(p, path) then [path] else [])
  {
    var path := Join(segs[..d + 1]);
    var t1 := Tree(t.order + [path], t.nodes[path := EMPTY_NODE]);
    ChildOfOne(segs[..d + 1]);
    hide Count, Total, Direct, IsChild, Join, ChildrenIn, Counted;
    assert |segs[..d + 1]| == d + 1;
    if d > 0 {
      var up := segs[..d + 1][..d];
      assert up == segs[..d];
      assert Level(Join(up), segs, d);
      assert Ensure(t1, up) == t1;
      ChildrenAre(Join(up), t.order, path);
      assert path !in t.nodes[Join(up)].children;
    }
  }

  lemma NotItsOwnChild(p: string)
    ensures !IsChild(p, p)
  {}

  lemma NewLinked(t: Tree, done: seq<File>, segs: seq<string>, size: int, d: nat)
    requires d < |segs| && AreSegments(segs) && Mid(t, done, segs, size, d) && Join(segs[..d + 1]) !in t.nodes
    ensures Linked(Ensure(t, segs[..d + 1]))
  {
    var path := Join(segs[..d + 1]);
    EnsureNew(t, done, segs, size, d);
    NewHasNoChildren(t, done, segs, d);
    hide Ensure, Count, Total, Direct, IsChild, Level, Join, Known, Counted, ChildrenIn, Ordered;
    var u := Ensure(t, segs[..d + 1]);
    forall p | p in u.nodes
      ensures u.nodes[p].children == ChildrenIn(p, u.order)
    {
      ChildrenSnoc(p, t.order, path);
      if p == path {
        NotItsOwnChild(path);
      }
    }
  }

  lemma NewCounted(t: Tree, done: seq<File>, segs: seq<string>, size: int, d: nat)
    requires d < |segs| && AreSegments(segs) && Mid(t, done, segs, size, d) && Join(segs[..d + 1]) !in t.nodes
    ensures Counted(Ensure(t, segs[..d + 1]), done, segs, size, d)
  {
    var path := Join(segs[..d + 1]);
    EnsureNew(t, done, segs, size, d);
    NothingThere(path, done);
    hide Ensure, Count, Total, Direct, IsChild, Join, Linked, ChildrenIn, Ordered;
    var u := Ensure(t, segs[..d + 1]);
    assert CountedAt(path, u.nodes[path], done, Level(path, segs, d), size);
    hide Known, Level;
    forall p | p in t.nodes
      ensures CountedAt(p, u.nodes[p], done, Level(p, segs, d), size)
    {
      assert CountedAt(p, t.nodes[p], done, Level(p, segs, d), size);
    }
  }

  lemma NewKnown(t: Tree, done: seq<File>, segs: seq<string>, size: int, d: nat)
    requires d < |segs| && AreSegments(segs) && Mid(t, done, segs, size, d) && Join(segs[..d + 1]) !in t.nodes
    ensures Ordered(Ensure(t, segs[..d + 1])) && Known(Ensure(t, segs[..d + 1]), done, segs, d + 1)
  {
    EnsureNew(t, done, segs, size, d);
    LevelsDiffer(segs, d);
    hide Ensure, Counted, Linked, Level, Count, IsChild, Join;
  }

  lemma LevelThere(t: Tree, done: seq<File>, segs: seq<string>, d: nat)
    requires d < |segs| && AreSegments(segs) && Known(t, done, segs, d) && Join(segs[..d + 1]) in t.nodes
    ensures Known(t, done, segs, d + 1) && Ensure(t, segs[..d + 1]) == t
  {
    LevelsDiffer(segs, d);
    hide Level, Count, Join;
  }

  /** With the next level there, but the file not yet counted at it. */
  ghost predicate Between(u: Tree, done: seq<File>, segs: seq<string>, size: int, d: nat)
    requires d < |segs|
  {
    Ordered(u) && Known(u, done, segs, d + 1) && Counted(u, done, segs, size, d) && Linked(u)
  }

  lemma EnsureKeeps(t: Tree, done: seq<File>, segs: seq<string>, size: int, d: nat)
    requires d < |segs| && AreSegments(segs) && Mid(t, done, segs, size, d)
    ensures Between(Ensure(t, segs[..d + 1]), done, segs, size, d)
  {
    if Join(segs[..d + 1]) !in t.nodes {
      NewLinked(t, done, segs, size, d);
      NewCounted(t, done, segs, size, d);
      NewKnown(t, done, segs, size, d);
    } else {
      LevelThere(t, done, segs, d);
    }
    hide Ordered, Known, Counted, Linked, Join;
  }

  lemma BumpKeeps(u: Tree, done: seq<File>, segs: seq<string>, size: int, d: nat)
    requires d < |segs| && AreSegments(segs) && Between(u, done, segs, size, d) && Join(segs[..d + 1]) in u.nodes
    ensures Mid(Bump(u, Join(segs[..d + 1]), size), done, segs, size, d + 1)
  {
    LevelsDiffer(segs, d);
    hide Level, Count, Total, Direct, Join, ChildrenIn;
    var path := Join(segs[..d + 1]);
    var r := Bump(u, path, size);
    forall p | p in r.nodes
      ensures CountedAt(p, r.nodes[p], done, Level(p, segs, d + 1), size)
    {
      assert CountedAt(p, u.nodes[p], done, Level(p, segs, d), size);
    }
  }

  /** The levels down to d, one after the other. */
  lemma {:induction false} AlongKeeps(t: Tree, done: seq<File>, segs: seq<string>, size: int, d: nat)
    requires d <= |segs| && AreSegments(segs) && Mid(t, done, segs, size, 0)
    ensures Mid(Along(t, segs, size, d), done, segs, size, d)
  {
    hide Mid, Between;
    if d > 0 {
      AlongKeeps(t, done, segs, size, d - 1);
      EnsureKeeps(Along(t, segs, size, d - 1), done, segs, size, d - 1);
      BumpKeeps(Ensure(Along(t, segs, size, d - 1), segs[..d]), done, segs, size, d - 1);
    }
  }

  // ---------------------------------------------------------------------------------------
  // One file

  /** The tree of the files so far. */
  ghost predicate Inv(t: Tree, done: seq<File>) {
    Ordered(t) && Linked(t) && (forall p :: p in t.nodes <==> Count(p, done) > 0)
    && forall p :: p in t.nodes ==> CountedAt(p, t.nodes[p], done, false, 0)
  }

  lemma InvIsMid(t: Tree, done: seq<File>, segs: seq<string>, size: int)
    requires Inv(t, done)
    ensures Mid(t, done, segs, size, 0)
  {
    assert forall p :: !Level(p, segs, 0);
    hide Count, Total, Direct;
    forall p | p in t.nodes
      ensures CountedAt(p, t.nodes[p], done, Level(p, segs, 0), size)
    {
      assert CountedAt(p, t.nodes[p], done, false, 0);
    }
  }

  lemma LevelsAreAbove(f: File, p: string)
    requires InFolder(f)
    ensures var segs := SegmentsOf(f); Level(p, segs, |segs| - 1) <==> Under(p, f)
  {
    var segs := SegmentsOf(f);
    if Level(p, segs, |segs| - 1) {
      var i :| 0 < i <= |segs| - 1 && p == Join(segs[..i]);
      UnderPrefix(segs, i);
    }
    if Under(p, f) {
      var d := UnderOnlyPrefixes(p, segs);
    }
  }

  lemma OneMoreFile(p: string, done: seq<File>, f: File)
    ensures Count(p, done + [f]) == Count(p, done) + if Under(p, f) then 1 else 0
    ensures Total(p, done + [f]) == Total(p, done) + if Under(p, f) then SizeOf(f) else 0
    ensures Direct(p, done + [f]) == Direct(p, done) + if InFolder(f) && DirOf(f) == p then [f] else []
  {
    var all := done + [f];
    assert all[..|done|] == done && all[|done|] == f;
    hide Under, InFolder, DirOf;
  }

  lemma CountedOneMore(p: string, n: Node, done: seq<File>, f: File, above: bool)
    requires above == Under(p, f) && CountedAt(p, n, done, above, SizeOf(f))
    ensures var pushed := if InFolder(f) && DirOf(f) == p then n.(files := n.files + [f]) else n;
            CountedAt(p, pushed, done + [f], false, 0)
  {
    OneMoreFile(p, done, f);
    hide Count, Total, Direct, Under, InFolder, DirOf, SizeOf;
  }

  lemma PushKeeps(u: Tree, done: seq<File>, f: File)
    requires InFolder(f) && Mid(u, done, SegmentsOf(f), SizeOf(f), |SegmentsOf(f)| - 1) && DirOf(f) in u.nodes
    ensures Inv(Push(u, DirOf(f), f), done + [f])
  {
    var segs, size := SegmentsOf(f), SizeOf(f);
    var r, files := Push(u, DirOf(f), f), done + [f];
    hide Level, Count, Total, Direct, Under, InFolder, DirOf, SizeOf, ChildrenIn, SegmentsOf, CountedAt, Linked;
    assert Linked(r) by { PushLinked(u, DirOf(f), f); }
    forall p
      ensures p in r.nodes <==> Count(p, files) > 0
      ensures p in r.nodes ==> CountedAt(p, r.nodes[p], files, false, 0)
    {
      OneMoreFile(p, done, f);
      LevelsAreAbove(f, p);
      if p in r.nodes {
        CountedOneMore(p, u.nodes[p], done, f, Level(p, segs, |segs| - 1));
      }
    }
  }

  lemma PushLinked(u: Tree, dir: string, f: File)
    requires Linked(u) && dir in u.nodes
    ensures Linked(Push(u, dir, f))
  {
    hide ChildrenIn;
  }

  lemma AddFileKeeps(t: Tree, done: seq<File>, f: File)
    requires Inv(t, done)
    ensures Inv(AddFile(t, f), done + [f])
  {
    if InFolder(f) {
      var segs, size := SegmentsOf(f), SizeOf(f);
      var n := |segs| - 1;
      InvIsMid(t, done, segs, size);
      AlongKeeps(t, done, segs, size, n);
      var u := Along(t, segs, size, n);
      LastLevelThere(t, segs, size);
      PushKeeps(u, done, f);
    } else {
      hide Ordered, Linked;
      forall p
        ensures Count(p, done + [f]) == Count(p, done) && Total(p, done + [f]) == Total(p, done) && Direct(p, done + [f]) == Direct(p, done)
      {
        OneMoreFile(p, done, f);
      }
      hide Count, Total, Direct, InFolder;
    }
  }

  lemma LastLevelThere(t: Tree, segs: seq<string>, size: int)
    requires |segs| > 1
    ensures var u := Along(t, segs, size, |segs| - 1);
            Join(segs[..|segs| - 1]) in u.nodes && Ensure(u, segs[..|segs| - 1]) == u
  {}

  /** For any list of files, every counter of the tree counts exactly the files below it. */
  lemma {:induction false} BuildCounts(files: seq<File>)
    ensures Inv(Build(files), files)
  {
    if files != [] {
      var front := files[..|files| - 1];
      BuildCounts(front);
      hide Inv;
      AddFileKeeps(Build(front), front, files[|files| - 1]);
      assert files == front + [files[|files| - 1]];
    }
  }

  // ---------------------------------------------------------------------------------------
  // What follows for the finished tree

  lemma {:induction false} CountedFile(dir: string, files: seq<File>) returns (f: File)
    requires Count(dir, files) > 0
    ensures f in files && Under(dir, f)
  {
    f := files[|files| - 1];
    if !Under(dir, f) {
      f := CountedFile(dir, files[..|files| - 1]);
    }
  }

  lemma {:induction false} FileCounted(dir: string, files: seq<File>, f: File)
    requires f in files && Under(dir, f)
    ensures Count(dir, files) > 0
  {
    if files[|files| - 1] != f {
      var front := files[..|files| - 1];
      assert files == front + [files[|files| - 1]];
      FileCounted(dir, front, f);
    }
  }

  /** Every directory but the top ones is a child of exactly one other; the top ones, whose
      path is a single name, are children of none. */
  lemma OneParent(files: seq<File>, c: string)
    requires c in Build(files).nodes
    ensures var t := Build(files);
            && (forall p, q :: p in t.nodes && q in t.nodes && c in t.nodes[p].children && c in t.nodes[q].children ==> p == q)
            && ('/' in c <==> exists p :: p in t.nodes && c in t.nodes[p].children)
  {
    BuildCounts(files);
    var t := Build(files);
    var f := CountedFile(c, files);
    var d := UnderOnlyPrefixes(c, SegmentsOf(f));
    var segs := SegmentsOf(f)[..d];
    forall p | p in t.nodes
      ensures c in t.nodes[p].children <==> |segs| > 1 && p == Join(segs[..|segs| - 1])
    {
      ChildrenAre(p, t.order, c);
      if IsChild(p, c) {
        ChildOnlyOfParent(p, segs);
      }
      if |segs| > 1 {
        ChildOfParent(segs);
      }
    }
    JoinHasSlash(segs);
    if |segs| > 1 {
      var up := Join(segs[..|segs| - 1]);
      assert segs[..|segs| - 1] == SegmentsOf(f)[..d - 1];
      UnderPrefix(SegmentsOf(f), d - 1);
      FileCounted(up, files, f);
      assert up in t.nodes && c in t.nodes[up].children;
    }
  }

  /** The sum of the counters of some directories. */
  function SumCounts(dirs: seq<string>, files: seq<File>): nat {
    if dirs == [] then 0 else SumCounts(dirs[..|dirs| - 1], files) + Count(dirs[|dirs| - 1], files)
  }

  function Hits(dirs: seq<string>, f: File): nat {
    if dirs == [] then 0 else Hits(dirs[..|dirs| - 1], f) + if Under(dirs[|dirs| - 1], f) then 1 else 0
  }

  lemma {:induction false} SumOneMore(dirs: seq<string>, files: seq<File>, f: File)
    ensures SumCounts(dirs, files + [f]) == SumCounts(dirs, files) + Hits(dirs, f)
  {
    if dirs != [] {
      SumOneMore(dirs[..|dirs| - 1], files, f);
      OneMoreFile(dirs[|dirs| - 1], files, f);
    }
  }

  lemma {:induction false} SumOfNothing(dirs: seq<string>)
    ensures SumCounts(dirs, []) == 0
  {
    if dirs != [] {
      SumOfNothing(dirs[..|dirs| - 1]);
    }
  }

  /** A file lies under so many of the directories, if they differ. */
  lemma {:induction false} HitsOnly(dirs: seq<string>, f: File, x: string)
    requires forall i, j :: 0 <= i < j < |dirs| ==> dirs[i] != dirs[j]
    requires forall c :: c in dirs ==> (Under(c, f) <==> c == x)
    ensures Hits(dirs, f) == if x in dirs then 1 else 0
  {
    if dirs != [] {
      var front, last := dirs[..|dirs| - 1], dirs[|dirs| - 1];
      assert dirs == front + [last];
      HitsOnly(front, f, x);
    }
  }

  /** The directories at the top, in their order. */
  function Tops(order: seq<string>): seq<string> {
    if order == [] then []
    else Tops(order[..|order| - 1]) + if '/' in order[|order| - 1] then [] else [order[|order| - 1]]
  }

  lemma {:induction false} TopsAre(order: seq<string>)
    requires forall i, j :: 0 <= i < j < |order| ==> order[i] != order[j]
    ensures var tops := Tops(order);
            && (forall c :: c in tops <==> c in order && '/' !in c)
            && (forall i, j :: 0 <= i < j < |tops| ==> tops[i] != tops[j])
  {
    if order != [] {
      var front, last := order[..|order| - 1], order[|order| - 1];
      assert order == front + [last];
      TopsAre(front);
    }
  }

  lemma {:induction false} ChildrenDiffer(p: string, order: seq<string>)
    requires forall i, j :: 0 <= i < j < |order| ==> order[i] != order[j]
    ensures var cs := ChildrenIn(p, order); forall i, j :: 0 <= i < j < |cs| ==> cs[i] != cs[j]
  {
    if order != [] {
      var front, last := order[..|order| - 1], order[|order| - 1];
      assert order == front + [last];
      ChildrenDiffer(p, front);
      ChildrenAre(p, front, last);
    }
  }

  lemma TopOf(files: seq<File>, f: File)
    requires f in files && InFolder(f)
    ensures var tops := Tops(Build(files).order);
            SegmentsOf(f)[0] in tops && forall c :: c in tops ==> (Under(c, f) <==> c == SegmentsOf(f)[0])
  {
    BuildCounts(files);
    var t, segs := Build(files), SegmentsOf(f);
    TopsAre(t.order);
    assert segs[..1] == [segs[0]] && Join(segs[..1]) == segs[0];
    UnderPrefix(segs, 1);
    FileCounted(segs[0], files, f);
    forall c | c in Tops(t.order) && Under(c, f)
      ensures c == segs[0]
    {
      var d := UnderOnlyPrefixes(c, segs);
      JoinHasSlash(segs[..d]);
    }
  }

  lemma {:induction false} TopsCover(files: seq<File>, part: seq<File>)
    requires forall f :: f in part ==> f in files
    ensures |Outside(part)| + SumCounts(Tops(Build(files).order), part) == |part|
    decreases |part|
  {
    var tops := Tops(Build(files).order);
    if part == [] {
      SumOfNothing(tops);
    } else {
      var front, f := part[..|part| - 1], part[|part| - 1];
      assert part == front + [f];
      TopsCover(files, front);
      SumOneMore(tops, front, f);
      BuildCounts(files);
      TopsAre(Build(files).order);
      hide Build, Tops, Under, SumCounts, Inv;
      if InFolder(f) {
        TopOf(files, f);
        HitsOnly(tops, f, SegmentsOf(f)[0]);
      } else {
        NotUnder(f);
        HitsOnly(tops, f, "/");
      }
    }
  }

  lemma NotUnder(f: File)
    requires !InFolder(f)
    ensures forall c :: !Under(c, f)
  {}

  /** The files at the top and the counters of the top directories add up to all files. */
  lemma NoFileLost(files: seq<File>)
    ensures var t := Build(files);
            && (forall d :: d in Tops(t.order) ==> d in t.nodes)
            && |Outside(files)| + FileCounts(t, Tops(t.order)) == |files|
  {
    TopsCover(files, files);
    BuildCounts(files);
    TopsAre(Build(files).order);
    CountersAgree(files, Tops(Build(files).order));
  }

  lemma ChildrenOf(files: seq<File>, p: string)
    requires p in Build(files).nodes
    ensures var t := Build(files);
            var cs := t.nodes[p].children;
            && (forall i, j :: 0 <= i < j < |cs| ==> cs[i] != cs[j])
            && (forall c :: c in cs <==> IsChild(p, c) && Count(c, files) > 0)
  {
    BuildCounts(files);
    var t := Build(files);
    ChildrenDiffer(p, t.order);
    assert t.nodes[p].children == ChildrenIn(p, t.order);
    hide Build, ChildrenIn;
    forall c
      ensures c in t.nodes[p].children <==> IsChild(p, c) && Count(c, files) > 0
    {
      ChildrenAre(p, t.order, c);
    }
  }

  /** A file below a directory lies directly in it or below exactly one of its children. */
  lemma ChildOf(files: seq<File>, p: string, f: File)
    requires f in files && p in Build(files).nodes
    ensures var cs := Build(files).nodes[p].children;
            Hits(cs, f) == if Under(p, f) && DirOf(f) != p then 1 else 0
  {
    var cs := Build(files).nodes[p].children;
    ChildrenOf(files, p);
    if Under(p, f) {
      var d := UnderOnlyPrefixes(p, SegmentsOf(f));
      UnderNext(f, p, d);
      DirectOrNext(f, p, d);
      hide *;
      if DirOf(f) != p {
        var next := Join(SegmentsOf(f)[..d + 1]);
        FileCounted(next, files, f);
        HitsOnly(cs, f, next);
      } else {
        HitsNone(cs, f);
      }
    } else {
      hide *;
      forall c | c in cs
        ensures !Under(c, f)
      {
        UnderParent(p, c, f);
      }
      HitsNone(cs, f);
    }
  }

  lemma UnderParent(p: string, c: string, f: File)
    requires IsChild(p, c) && !Under(p, f)
    ensures !Under(c, f)
  {
    if LiesUnder(c, PathOf(f)) {
      UnderIsTransitive(p, c, PathOf(f));
    }
  }

  lemma DirectOrNext(f: File, p: string, d: nat)
    requires InFolder(f) && 0 < d < |SegmentsOf(f)| && p == Join(SegmentsOf(f)[..d])
    ensures var segs := SegmentsOf(f);
            && (DirOf(f) == p <==> d == |segs| - 1)
            && IsChild(p, Join(segs[..d + 1]))
            && (d < |segs| - 1 ==> Under(Join(segs[..d + 1]), f))
  {
    var segs := SegmentsOf(f);
    hide Join;
    assert segs[..d + 1][..d] == segs[..d];
    ChildOfParent(segs[..d + 1]);
    if d < |segs| - 1 {
      PrefixesDiffer(segs, d, |segs| - 1);
      UnderPrefix(segs, d + 1);
    }
  }

  lemma {:induction false} HitsNone(dirs: seq<string>, f: File)
    requires forall c :: c in dirs ==> !Under(c, f)
    ensures Hits(dirs, f) == 0
  {
    if dirs != [] {
      HitsNone(dirs[..|dirs| - 1], f);
    }
  }

  /** Of a directory's children only the next level of the path has the file below it. */
  lemma UnderNext(f: File, p: string, d: nat)
    requires InFolder(f) && 0 < d < |SegmentsOf(f)| && p == Join(SegmentsOf(f)[..d])
    ensures var segs := SegmentsOf(f);
            forall c :: IsChild(p, c) ==> (Under(c, f) <==> d + 1 < |segs| && c == Join(segs[..d + 1]))
  {
    var segs := SegmentsOf(f);
    forall c | IsChild(p, c)
      ensures Under(c, f) <==> d + 1 < |segs| && c == Join(segs[..d + 1])
    {
      if d + 1 < |segs| {
        UnderPrefix(segs, d + 1);
      }
      if Under(c, f) {
        var e := UnderOnlyPrefixes(c, segs);
        ChildOnlyOfParent(p, segs[..e]);
        assert segs[..e][..e - 1] == segs[..e - 1];
        JoinInjective(segs[..e - 1], segs[..d]);
        assert |segs[..e - 1]| == |segs[..d]|;
      }
    }
  }

  lemma {:induction false} ChildrenCover(files: seq<File>, p: string, part: seq<File>)
    requires p in Build(files).nodes && forall f :: f in part ==> f in files
    ensures Count(p, part) == |Direct(p, part)| + SumCounts(Build(files).nodes[p].children, part)
    decreases |part|
  {
    var cs := Build(files).nodes[p].children;
    hide Build, Under, InFolder, DirOf, Hits;
    if part == [] {
      SumOfNothing(cs);
    } else {
      var front, f := part[..|part| - 1], part[|part| - 1];
      assert part == front + [f];
      ChildrenCover(files, p, front);
      SumOneMore(cs, front, f);
      ChildOf(files, p, f);
      DirectIsUnder(f);
    }
  }

  lemma DirectIsUnder(f: File)
    ensures InFolder(f) ==> Under(DirOf(f), f)
    ensures forall p :: Under(p, f) ==> InFolder(f)
  {
    if InFolder(f) {
      DirIsAbove(f);
    }
  }

  /** The sum of the sizes below some directories, and of some files. */
  function SumTotals(dirs: seq<string>, files: seq<File>): int {
    if dirs == [] then 0 else SumTotals(dirs[..|dirs| - 1], files) + Total(dirs[|dirs| - 1], files)
  }

  function SumSizes(files: seq<File>): int {
    if files == [] then 0 else SumSizes(files[..|files| - 1]) + SizeOf(files[|files| - 1])
  }

  lemma {:induction false} TotalsOneMore(dirs: seq<string>, files: seq<File>, f: File)
    requires Hits(dirs, f) <= 1
    ensures SumTotals(dirs, files + [f]) == SumTotals(dirs, files) + if Hits(dirs, f) == 1 then SizeOf(f) else 0
  {
    if dirs != [] {
      TotalsOneMore(dirs[..|dirs| - 1], files, f);
      OneMoreFile(dirs[|dirs| - 1], files, f);
    }
  }

  lemma {:induction false} TotalsOfNothing(dirs: seq<string>)
    ensures SumTotals(dirs, []) == 0
  {
    if dirs != [] {
      TotalsOfNothing(dirs[..|dirs| - 1]);
    }
  }

  lemma {:induction false} SizesCover(files: seq<File>, p: string, part: seq<File>)
    requires p in Build(files).nodes && forall f :: f in part ==> f in files
    ensures Total(p, part) == SumSizes(Direct(p, part)) + SumTotals(Build(files).nodes[p].children, part)
    decreases |part|
  {
    var cs := Build(files).nodes[p].children;
    hide Build, Under, InFolder, DirOf, Hits, SizeOf;
    if part == [] {
      TotalsOfNothing(cs);
    } else {
      var front, f := part[..|part| - 1], part[|part| - 1];
      assert part == front + [f];
      SizesCover(files, p, front);
      ChildOf(files, p, f);
      TotalsOneMore(cs, front, f);
      DirectIsUnder(f);
      OneMoreSize(Direct(p, front), f);
    }
  }

  lemma OneMoreSize(files: seq<File>, f: File)
    ensures SumSizes(files + [f]) == SumSizes(files) + SizeOf(f) && files + [] == files
  {
    assert (files + [f])[..|files|] == files;
  }

  /** The sums of what the tree's counters say. */
  function FileCounts(t: Tree, dirs: seq<string>): nat
    requires forall d :: d in dirs ==> d in t.nodes
  {
    if dirs == [] then 0 else FileCounts(t, dirs[..|dirs| - 1]) + t.nodes[dirs[|dirs| - 1]].fileCount
  }

  function Sizes(t: Tree, dirs: seq<string>): int
    requires forall d :: d in dirs ==> d in t.nodes
  {
    if dirs == [] then 0 else Sizes(t, dirs[..|dirs| - 1]) + t.nodes[dirs[|dirs| - 1]].size
  }

  lemma {:induction false} CountersAgree(files: seq<File>, dirs: seq<string>)
    requires forall d :: d in dirs ==> d in Build(files).nodes
    ensures FileCounts(Build(files), dirs) == SumCounts(dirs, files) && Sizes(Build(files), dirs) == SumTotals(dirs, files)
  {
    if dirs != [] {
      CountersAgree(files, dirs[..|dirs| - 1]);
      BuildCounts(files);
      hide Build;
      assert CountedAt(dirs[|dirs| - 1], Build(files).nodes[dirs[|dirs| - 1]], files, false, 0);
    }
  }

  /** A directory's counter is its own files and its children's counters, and its size the
      sizes of its own files and its children's sizes. */
  lemma OwnAndChildren(files: seq<File>, p: string)
    requires p in Build(files).nodes
    ensures var t := Build(files);
            var node := t.nodes[p];
            && (forall c :: c in node.children ==> c in t.nodes)
            && node.fileCount == |node.files| + FileCounts(t, node.children)
            && node.size == SumSizes(node.files) + Sizes(t, node.children)
  {
    BuildCounts(files);
    ChildrenOf(files, p);
    var cs := Build(files).nodes[p].children;
    assert CountedAt(p, Build(files).nodes[p], files, false, 0);
    assert forall c :: c in cs ==> c in Build(files).nodes;
    hide Build, Count, Total, Inv;
    ChildrenCover(files, p, files);
    SizesCover(files, p, files);
    CountersAgree(files, cs);
  }

  lemma {:induction false} DirectHolds(dir: string, files: seq<File>, f: File)
    ensures multiset(Direct(dir, files))[f] == if InFolder(f) && DirOf(f) == dir then multiset(files)[f] else 0
    ensures multiset(Outside(files))[f] == if InFolder(f) then 0 else multiset(files)[f]
  {
    hide InFolder, DirOf;
    if files != [] {
      var front, last := files[..|files| - 1], files[|files| - 1];
      assert files == front + [last];
      DirectHolds(dir, front, f);
    }
  }

  /** Every accepted file is among the own files of exactly one directory, the one it lies in,
      as often as it is in the list; every other file is at the top level. */
  lemma EveryFileOnce(files: seq<File>, f: File)
    requires f in files
    ensures var t := Build(files);
            && (InFolder(f) ==> DirOf(f) in t.nodes)
            && (forall p :: p in t.nodes ==>
                  multiset(t.nodes[p].files)[f] == if InFolder(f) && p == DirOf(f) then multiset(files)[f] else 0)
            && multiset(Outside(files))[f] == if InFolder(f) then 0 else multiset(files)[f]
  {
    BuildCounts(files);
    DirectHolds("", files, f);
    DirectIsUnder(f);
    if InFolder(f) {
      FileCounted(DirOf(f), files, f);
    }
    hide Build, InFolder, DirOf, Direct, Outside;
    forall p | p in Build(files).nodes
      ensures multiset(Build(files).nodes[p].files)[f] == if InFolder(f) && p == DirOf(f) then multiset(files)[f] else 0
    {
      assert CountedAt(p, Build(files).nodes[p], files, false, 0);
      DirectHolds(p, files, f);
    }
  }

  // ---------------------------------------------------------------------------------------
  // Which files are in a folder, and the order of the directories

  lemma StartOf(runs: seq<string>, names: seq<string>)
    requires AreRuns(runs, names) && names != [] && IsName(names[0])
    ensures "/" <= Normalize(Written(runs, names)) <==> runs[0] != ""
  {
    var path := Written(runs, names);
    var first := if runs[0] != "" then runs[0][0] else names[0][0];
    assert AllSlashes(runs[0]) && !IsSlash(names[0][0]);
    assert path != "" && path[0] == first && IsSlash(first) == (runs[0] != "");
    assert Normalize(path)[0] == if first == '\\' then '/' else first;
  }

  /** A file is in a folder exactly if its path, with slashes of either kind and however many, does not
      start with one, has at least two names, and the first is neither . nor ... */
  lemma InFolderExactly(f: File, runs: seq<string>, names: seq<string>)
    requires AreRuns(runs, names) && (forall k :: 0 <= k < |names| ==> IsName(names[k])) && f.relPath == Written(runs, names)
    ensures InFolder(f) <==> runs[0] == "" && |names| >= 2 && names[0] != "." && names[0] != ".."
    ensures PathOf(f) == Join(names)
  {
    NamesOf(runs, names);
    if names != [] {
      StartOf(runs, names);
    }
    hide Segments, Normalize, Written, AreRuns, IsName;
  }

  /** Directories are only added behind those there are. */
  lemma {:induction false} EnsureAppends(t: Tree, segs: seq<string>)
    requires segs != []
    ensures t.order <= Ensure(t, segs).order
    decreases |segs|
  {
    if Join(segs) !in t.nodes && |segs| > 1 {
      EnsureAppends(Tree(t.order + [Join(segs)], t.nodes[Join(segs) := EMPTY_NODE]), segs[..|segs| - 1]);
    }
  }

  lemma {:induction false} AlongAppends(t: Tree, segs: seq<string>, size: int, d: nat)
    requires d <= |segs|
    ensures t.order <= Along(t, segs, size, d).order
  {
    if d > 0 {
      AlongAppends(t, segs, size, d - 1);
      EnsureAppends(Along(t, segs, size, d - 1), segs[..d]);
    }
  }

  lemma AddFileAppends(t: Tree, f: File)
    ensures t.order <= AddFile(t, f).order
  {
    if InFolder(f) {
      var segs := SegmentsOf(f);
      AlongAppends(t, segs, SizeOf(f), |segs| - 1);
      EnsureAppends(Along(t, segs, SizeOf(f), |segs| - 1), segs[..|segs| - 1]);
    }
  }

  lemma {:induction false} BuildAppends(files: seq<File>, n: nat)
    requires n <= |files|
    ensures Build(files[..n]).order <= Build(files).order
    decreases |files|
  {
    if n < |files| {
      var front := files[..|files| - 1];
      BuildAppends(front, n);
      assert front[..n] == files[..n];
      AddFileAppends(Build(front), files[|files| - 1]);
    } else {
      assert files[..n] == files;
    }
  }

  /** Of two directories, the first has a file below it as soon as the second has. */
  ghost predicate SeenBefore(a: string, b: string, files: seq<File>) {
    forall n :: 0 <= n <= |files| && Count(b, files[..n]) > 0 ==> Count(a, files[..n]) > 0
  }

  /** Directories are listed as they are first seen. */
  lemma FirstSeenFirst(files: seq<File>, i: nat, j: nat)
    requires i < j < |Build(files).order|
    ensures SeenBefore(Build(files).order[i], Build(files).order[j], files)
  {
    var t := Build(files);
    BuildCounts(files);
    forall n | 0 <= n <= |files| && Count(t.order[j], files[..n]) > 0
      ensures Count(t.order[i], files[..n]) > 0
    {
      BuildCounts(files[..n]);
      BuildAppends(files, n);
      var early := Build(files[..n]);
      assert t.order[j] in early.order;
      assert early.order[i] in early.nodes;
    }
  }

  lemma {:induction false} ChildrenInOrder(p: string, order: seq<string>, a: nat, b: nat) returns (i: nat, j: nat)
    requires a < b < |ChildrenIn(p, order)|
    ensures i < j < |order| && order[i] == ChildrenIn(p, order)[a] && order[j] == ChildrenIn(p, order)[b]
  {
    var front, last := order[..|order| - 1], order[|order| - 1];
    var before := ChildrenIn(p, front);
    if b < |before| {
      i, j := ChildrenInOrder(p, front, a, b);
    } else {
      ChildrenAre(p, front, before[a]);
      i :| 0 <= i < |front| && front[i] == before[a];
      j := |order| - 1;
    }
  }

  /** So are the children of a directory. */
  lemma ChildrenAsSeen(files: seq<File>, p: string, a: nat, b: nat)
    requires p in Build(files).nodes && a < b < |Build(files).nodes[p].children|
    ensures var children := Build(files).nodes[p].children; SeenBefore(children[a], children[b], files)
  {
    BuildCounts(files);
    hide SeenBefore;
    var i, j := ChildrenInOrder(p, Build(files).order, a, b);
    FirstSeenFirst(files, i, j);
  }

  lemma {:induction false} TopsInOrder(order: seq<string>, a: nat, b: nat) returns (i: nat, j: nat)
    requires a < b < |Tops(order)|
    ensures i < j < |order| && order[i] == Tops(order)[a] && order[j] == Tops(order)[b]
  {
    var front, last := order[..|order| - 1], order[|order| - 1];
    var before := Tops(front);
    if b < |before| {
      i, j := TopsInOrder(front, a, b);
    } else {
      i := TopIsThere(front, a);
      j := |order| - 1;
    }
  }

  lemma {:induction false} TopIsThere(order: seq<string>, a: nat) returns (i: nat)
    requires a < |Tops(order)|
    ensures i < |order| && order[i] == Tops(order)[a]
  {
    var front := order[..|order| - 1];
    if a < |Tops(front)| {
      i := TopIsThere(front, a);
    } else {
      i := |order| - 1;
    }
  }

  /** And the directories at the top. */
  lemma TopsAsSeen(files: seq<File>, a: nat, b: nat)
    requires a < b < |Tops(Build(files).order)|
    ensures var tops := Tops(Build(files).order); SeenBefore(tops[a], tops[b], files)
  {
    hide SeenBefore;
    var i, j := TopsInOrder(Build(files).order, a, b);
    FirstSeenFirst(files, i, j);
  }
}
