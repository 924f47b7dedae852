/** The drawer's tree as the program builds it: shared, mutable directory nodes. */
module FolderTreeBuilder {
  import opened FolderPaths
  import opened FolderTree

  class FolderNode {
    const name: string
    const path: string
    var files: seq<File>
    var children: seq<FolderNode>
    var fileCount: nat
    var size: int

    constructor (name: string, path: string)
      ensures this.name == name && this.path == path && Value() == EMPTY_NODE && children == []
    {
      this.name, this.path := name, path;
      files, children, fileCount, size := [], [], 0, 0;
    }

    function ChildPaths(): (r: seq<string>)
      reads this
      ensures |r| == |children| && forall k :: 0 <= k < |children| ==> r[k] == children[k].path
    {
      seq(|children|, k requires 0 <= k < |children| reads this => children[k].path)
    }

    function Value(): Node
      reads this
    {
      Node(files, ChildPaths(), fileCount, size)
    }
  }

  /** The name is the last segment of the path. */
  predicate Named(name: string, path: string) {
    IsSegment(name) && (path == name || (|path| > |name| && path[|path| - |name| - 1..] == "/" + name))
  }

  lemma LastNamed(segments: seq<string>)
    requires segments != [] && AreSegments(segments)
    ensures Named(segments[|segments| - 1], Join(segments))
  {
    var d := |segments| - 1;
    assert segments[d..] == [segments[d]] && Join([segments[d]]) == segments[d];
    assert d == 0 ==> segments == [segments[d]];
    assert IsSegment(segments[d]);
    hide Join, IsSegment, AreSegments;
    if d > 0 {
      JoinInTwo(segments, d);
      NamedLast(Join(segments[..d]), segments[d]);
    }
  }

  lemma NamedLast(front: string, name: string)
    requires IsSegment(name)
    ensures Named(name, front + "/" + name)
  {
    assert (front + "/" + name)[|front|..] == "/" + name;
  }

  lemma FrontSegments(segments: seq<string>, d: nat)
    requires d <= |segments| && AreSegments(segments)
    ensures AreSegments(segments[..d])
  {}

  lemma AddFileIs(t: Tree, f: File)
    requires InFolder(f)
    ensures var segs := SegmentsOf(f);
            |segs| >= 2
            && var up := segs[..|segs| - 1]; AddFile(t, f) == Push(Ensure(Along(t, segs, SizeOf(f), |segs| - 1), up), Join(up), f)
  {}

  class TreeBuilder {
    var folders: map<string, FolderNode>
    var order: seq<string>
    var rootFiles: seq<File>

    /** Every node is registered under its path and named by the last segment of it, and children are registered nodes. */
    ghost predicate Rep()
      reads this, folders.Values
    {
      && (forall p :: p in folders ==> folders[p].path == p && Named(folders[p].name, p))
      && (forall p, k :: p in folders && 0 <= k < |folders[p].children| ==>
            var c := folders[p].children[k]; c.path in folders && folders[c.path] == c)
    }

    ghost function View(): Tree
      reads this, folders.Values
    {
      Tree(order, map p | p in folders :: folders[p].Value())
    }

    constructor ()
      ensures Rep() && View() == Build([]) && folders == map[] && rootFiles == []
    {
      folders, order, rootFiles := map[], [], [];
    }

    /** The node of a directory, made and linked to its parent if need be. */
    method EnsureNode(segments: seq<string>) returns (node: FolderNode)
      requires Rep() && segments != [] && AreSegments(segments)
      modifies this, folders.Values
      ensures Rep() && View() == Ensure(old(View()), segments)
      ensures forall p :: p in old(folders) ==> p in folders && folders[p] == old(folders)[p]
      ensures forall p :: p in folders && p !in old(folders) ==> fresh(folders[p])
      ensures Join(segments) in folders && node == folders[Join(segments)] && node.path == Join(segments)
      ensures rootFiles == old(rootFiles)
      decreases |segments|
    {
      hide AddChild, Join, Rep, View, FolderNode.Value, Named, AreSegments;
      LastNamed(segments);
      ViewParts();
      var path := Join(segments);
      if path in folders {
        node := folders[path];
        Registered(path);
        return;
      }
      node := Register(segments[|segments| - 1], path);
      assert folders.Values <= old(folders).Values + {node};
      if |segments| > 1 {
        FrontSegments(segments, |segments| - 1);
        var parent := EnsureNode(segments[..|segments| - 1]);
        LinkChild(parent, node);
      }
    }

    lemma ViewParts()
      ensures View().nodes.Keys == folders.Keys && View().order == order
    {}

    lemma Registered(path: string)
      requires Rep() && path in folders
      ensures folders[path].path == path
    {}

    /** A new node under a path that has none. */
    method Register(name: string, path: string) returns (node: FolderNode)
      requires Rep() && path !in folders && Named(name, path)
      modifies this`folders, this`order
      ensures Rep() && View() == Tree(old(order) + [path], old(View()).nodes[path := EMPTY_NODE])
      ensures fresh(node) && node.path == path && folders == old(folders)[path := node]
    {
      node := new FolderNode(name, path);
      folders := folders[path := node];
      order := order + [path];
      assert View().nodes == old(View()).nodes[path := EMPTY_NODE];
    }

    method LinkChild(parent: FolderNode, node: FolderNode)
      requires Rep() && parent.path in folders && folders[parent.path] == parent
      requires node.path in folders && folders[node.path] == node
      modifies parent
      ensures Rep() && View() == AddChild(old(View()), parent.path, node.path)
    {
      if node !in parent.children {
        assert node.path !in parent.ChildPaths();
        parent.children := parent.children + [node];
        assert parent.ChildPaths() == old(parent.ChildPaths()) + [node.path];
      } else {
        var k :| 0 <= k < |parent.children| && parent.children[k] == node;
        assert parent.ChildPaths()[k] == node.path;
      }
      assert View().nodes == AddChild(old(View()), parent.path, node.path).nodes;
    }

    /** Counts a file at every level above it and puts it in its directory. */
    method AddToFolders(file: File)
      requires Rep() && InFolder(file)
      modifies this, folders.Values
      ensures Rep() && View() == AddFile(old(View()), file) && rootFiles == old(rootFiles)
      ensures forall p :: p in old(folders) ==> p in folders && folders[p] == old(folders)[p]
      ensures forall p :: p in folders && p !in old(folders) ==> fresh(folders[p])
    {
      var segments, size := SegmentsOf(file), SizeOf(file);
      hide *;
      AddFileIs(View(), file);
      CountAlong(segments, size);
      FrontSegments(segments, |segments| - 1);
      var leaf := EnsureNode(segments[..|segments| - 1]);
      PutIn(leaf, file);
    }

    /** The loop over the levels. */
    method CountAlong(segments: seq<string>, size: int)
      requires Rep() && segments != [] && AreSegments(segments)
      modifies this, folders.Values
      ensures Rep() && View() == Along(old(View()), segments, size, |segments| - 1) && rootFiles == old(rootFiles)
      ensures forall p :: p in old(folders) ==> p in folders && folders[p] == old(folders)[p]
      ensures forall p :: p in folders && p !in old(folders) ==> fresh(folders[p])
    {
      hide Ensure, Bump, Join, Rep, View, AreSegments;
      ghost var t := View();
      for depth := 1 to |segments|
        invariant Rep() && View() == Along(t, segments, size, depth - 1) && rootFiles == old(rootFiles)
        invariant forall p :: p in old(folders) ==> p in folders && folders[p] == old(folders)[p]
        invariant forall p :: p in folders && p !in old(folders) ==> fresh(folders[p])
      {
        FrontSegments(segments, depth);
        var node := EnsureNode(segments[..depth]);
        CountAt(node, size);
      }
    }

    method CountAt(node: FolderNode, size: int)
      requires Rep() && node.path in folders && folders[node.path] == node
      modifies node
      ensures Rep() && View() == Bump(old(View()), node.path, size)
    {
      node.fileCount := node.fileCount + 1;
      node.size := node.size + size;
      assert node.ChildPaths() == old(node.ChildPaths());
      assert View().nodes == Bump(old(View()), node.path, size).nodes;
    }

    method PutIn(node: FolderNode, file: File)
      requires Rep() && node.path in folders && folders[node.path] == node
      modifies node
      ensures Rep() && View() == Push(old(View()), node.path, file)
    {
      node.files := node.files + [file];
      assert node.ChildPaths() == old(node.ChildPaths());
      assert View().nodes == Push(old(View()), node.path, file).nodes;
    }

    /** The directories at the top, in the order of the map. */
    method TopFolders() returns (top: seq<FolderNode>)
      requires Rep() && forall p :: p in order ==> p in folders
      ensures |top| == |Tops(order)| && forall k :: 0 <= k < |top| ==> top[k].path == Tops(order)[k]
    {
      top := [];
      for i := 0 to |order|
        invariant |top| == |Tops(order[..i])| && forall k :: 0 <= k < |top| ==> top[k].path == Tops(order[..i])[k]
      {
        assert order[..i + 1][..i] == order[..i];
        if '/' !in order[i] {
          top := top + [folders[order[i]]];
        }
      }
      assert order[..|order|] == order;
    }
  }

  /** The whole tree of a list of files. */
  method FileFolderTree(files: seq<File>) returns (builder: TreeBuilder, folders: seq<FolderNode>)
    ensures fresh(builder) && builder.Rep() && builder.View() == Build(files) && builder.rootFiles == Outside(files)
    ensures |folders| == |Tops(builder.order)|
    ensures forall k :: 0 <= k < |folders| ==> folders[k].path == Tops(builder.order)[k]
  {
    hide AddFile, InFolder, Inv, Named;
    builder := new TreeBuilder();
    for i := 0 to |files|
      invariant fresh(builder) && builder.Rep() && (forall p :: p in builder.folders ==> fresh(builder.folders[p]))
      invariant builder.View() == Build(files[..i]) && builder.rootFiles == Outside(files[..i])
    {
      var file := files[i];
      OneMoreBuilt(files[..i], file);
      assert files[..i + 1] == files[..i] + [file];
      if !InFolder(file) {
        builder.rootFiles := builder.rootFiles + [file];
        continue;
      }
      builder.AddToFolders(file);
    }
    assert files[..|files|] == files;
    OrderIsKeys(files);
    folders := builder.TopFolders();
  }

  lemma OneMoreBuilt(done: seq<File>, f: File)
    ensures Build(done + [f]) == if InFolder(f) then AddFile(Build(done), f) else Build(done)
    ensures Outside(done + [f]) == Outside(done) + if InFolder(f) then [] else [f]
  {
    assert (done + [f])[..|done|] == done;
    hide InFolder;
  }

  lemma OrderIsKeys(files: seq<File>)
    ensures forall p :: p in Build(files).order <==> p in Build(files).nodes
  {
    BuildCounts(files);
  }
}
