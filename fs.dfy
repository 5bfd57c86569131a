/**
 * The part of the file system the map and the placement bar read and write:
 * directories and text files under one base directory. A tree is the sequence
 * of its entries; the order of the entries is the order `iterdir()` lists them
 * in, and a file that is created goes to the end.
 */
module Fs {
  import opened Wrappers
  import opened Text
  import opened Sorting

  /** A path relative to the base directory, one string per component. */
  type Path = seq<string>

  /** `path.name`: the last component. */
  function Name(p: Path): string {
    if p == [] then "" else p[|p| - 1]
  }

  /** `str(path)` below the base directory. */
  function PathText(p: Path): string {
    Join(p, "/")
  }

  datatype Node = Dir | File(text: string, mtime: int)

  datatype Entry = Entry(path: Path, node: Node)

  type Tree = seq<Entry>

  /** No path appears twice. */
  predicate Distinct(t: Tree) {
    forall i, j :: 0 <= i < j < |t| ==> t[i].path != t[j].path
  }

  /** Index of the entry at `p`, or `|t|`. */
  function Find(t: Tree, p: Path): (k: nat)
    ensures k <= |t|
    ensures k < |t| ==> t[k].path == p
    ensures forall i :: 0 <= i < k ==> t[i].path != p
  {
    if t == [] then 0 else if t[0].path == p then 0 else 1 + Find(t[1..], p)
  }

  predicate Exists(t: Tree, p: Path) {
    Find(t, p) < |t|
  }

  predicate IsDir(t: Tree, p: Path) {
    Find(t, p) < |t| && t[Find(t, p)].node == Dir
  }

  predicate IsFile(t: Tree, p: Path) {
    Find(t, p) < |t| && t[Find(t, p)].node.File?
  }

  /** `read_text()`: None when `p` is missing or a directory (the call raises). */
  function ReadText(t: Tree, p: Path): (r: Option<string>)
    ensures r.Some? <==> IsFile(t, p)
  {
    var k := Find(t, p);
    if k < |t| && t[k].node.File? then Some(t[k].node.text) else None
  }

  /** `stat().st_mtime` of a file. */
  function MTime(t: Tree, p: Path): (r: Option<int>)
    ensures r.Some? <==> IsFile(t, p)
  {
    var k := Find(t, p);
    if k < |t| && t[k].node.File? then Some(t[k].node.mtime) else None
  }

  /** Is `p` directly inside `dir`? */
  predicate ChildOf(p: Path, dir: Path) {
    |p| == |dir| + 1 && p[..|dir|] == dir
  }

  /** Is `p` `dir` itself or somewhere below it? */
  predicate Under(p: Path, dir: Path) {
    |dir| <= |p| && p[..|dir|] == dir
  }

  /** `dir.iterdir()`: the paths of the entries directly inside `dir`, in order. */
  function Children(t: Tree, dir: Path): (r: seq<Path>)
    ensures forall k :: 0 <= k < |r| ==> ChildOf(r[k], dir) && Exists(t, r[k])
    ensures forall i :: 0 <= i < |t| && ChildOf(t[i].path, dir) ==> t[i].path in r
  {
    if t == [] then []
    else
      var rest := Children(t[1..], dir);
      assert forall k :: 0 <= k < |rest| ==> Exists(t, rest[k]) by {
        forall k | 0 <= k < |rest| {
          FindTail(t, rest[k]);
        }
      }
      if ChildOf(t[0].path, dir) then [t[0].path] + rest else rest
  }

  lemma FindTail(t: Tree, p: Path)
    requires t != [] && Exists(t[1..], p)
    ensures Exists(t, p)
  {
  }

  /** An existing path directly inside `dir` is listed by `dir.iterdir()`. */
  lemma ExistsChild(t: Tree, p: Path, dir: Path)
    requires Exists(t, p) && ChildOf(p, dir)
    ensures p in Children(t, dir)
  {
    assert ChildOf(t[Find(t, p)].path, dir);
  }

  /** The tree after writing `node` at `p`: replaced where it stands, or appended. */
  function Put(t: Tree, p: Path, node: Node): (r: Tree)
    ensures |r| == |t| || |r| == |t| + 1
  {
    var k := Find(t, p);
    if k < |t| then t[k := Entry(p, node)] else t + [Entry(p, node)]
  }

  /** `shutil.rmtree(dir)`: `dir` and everything below it are gone. */
  function RemoveTree(t: Tree, dir: Path): (r: Tree)
    ensures forall i :: 0 <= i < |r| ==> !Under(r[i].path, dir)
    ensures forall e :: e in r <==> e in t && !Under(e.path, dir)
  {
    if t == [] then []
    else if Under(t[0].path, dir) then RemoveTree(t[1..], dir)
    else [t[0]] + RemoveTree(t[1..], dir)
  }

  lemma {:induction false} RemoveTreeDistinct(t: Tree, dir: Path)
    requires Distinct(t)
    ensures Distinct(RemoveTree(t, dir))
  {
    if t != [] {
      RemoveTreeDistinct(t[1..], dir);
      var rest := RemoveTree(t[1..], dir);
      if !Under(t[0].path, dir) {
        forall i | 0 <= i < |rest| ensures rest[i].path != t[0].path {
          assert rest[i] in t[1..];
        }
      }
    }
  }

  /** Deleting `dir` leaves what every path outside it holds as it was. */
  lemma {:induction false} RemoveTreeElsewhere(t: Tree, dir: Path, q: Path)
    requires !Under(q, dir)
    ensures NodeAt(RemoveTree(t, dir), q) == NodeAt(t, q)
  {
    if t != [] {
      RemoveTreeElsewhere(t[1..], dir, q);
      NodeAtCons(t[0], t[1..], q);
      assert [t[0]] + t[1..] == t;
      if !Under(t[0].path, dir) {
        NodeAtCons(t[0], RemoveTree(t[1..], dir), q);
      } else {
        assert t[0].path != q;
      }
    }
  }

  lemma NodeAtCons(e: Entry, t: Tree, q: Path)
    ensures NodeAt([e] + t, q) == if e.path == q then Some(e.node) else NodeAt(t, q)
  {
    assert ([e] + t)[1..] == t;
  }

  /** Deleting `dir` deletes `dir` itself. */
  lemma RemoveTreeGone(t: Tree, dir: Path)
    ensures !Exists(RemoveTree(t, dir), dir)
  {
    var r := RemoveTree(t, dir);
    assert Under(dir, dir) by { assert dir[..|dir|] == dir; }
    assert forall i :: 0 <= i < |r| ==> r[i].path != dir;
  }

  /** The tree after writing each entry of `es` in turn. */
  function PutAll(t: Tree, es: seq<Entry>): Tree
    decreases |es|
  {
    if es == [] then t else PutAll(Put(t, es[0].path, es[0].node), es[1..])
  }

  lemma {:induction false} PutAllDistinct(t: Tree, es: seq<Entry>)
    requires Distinct(t)
    ensures Distinct(PutAll(t, es))
    decreases |es|
  {
    if es != [] {
      PutDistinct(t, es[0].path, es[0].node);
      PutAllDistinct(Put(t, es[0].path, es[0].node), es[1..]);
    }
  }

  /** The node at `p`, if any. */
  function NodeAt(t: Tree, p: Path): Option<Node> {
    var k := Find(t, p);
    if k < |t| then Some(t[k].node) else None
  }

  /** In a tree without repeated paths, an entry is what is found at its path. */
  lemma EntryFound(t: Tree, e: Entry)
    requires Distinct(t) && e in t
    ensures NodeAt(t, e.path) == Some(e.node)
  {
    var i :| 0 <= i < |t| && t[i] == e;
    assert Find(t, e.path) == i;
  }

  /** The entry standing at an existing path. */
  lemma EntryAt(t: Tree, p: Path)
    requires Exists(t, p)
    ensures Entry(p, NodeAt(t, p).value) in t
  {
    assert t[Find(t, p)] == Entry(p, NodeAt(t, p).value);
  }

  /** What the node at a path says about it. */
  lemma NodeAtKinds(t: Tree, p: Path)
    ensures IsDir(t, p) <==> NodeAt(t, p) == Some(Dir)
    ensures Exists(t, p) <==> NodeAt(t, p).Some?
    ensures forall text, m :: NodeAt(t, p) == Some(File(text, m)) ==> ReadText(t, p) == Some(text)
  {
  }

  /** Writes at other paths leave a path as it was. */
  lemma {:induction false} PutAllElsewhere(t: Tree, es: seq<Entry>, q: Path)
    requires forall k :: 0 <= k < |es| ==> es[k].path != q
    ensures NodeAt(PutAll(t, es), q) == NodeAt(t, q)
    decreases |es|
  {
    if es != [] {
      PutRead(t, es[0].path, es[0].node, q);
      PutAllElsewhere(Put(t, es[0].path, es[0].node), es[1..], q);
    }
  }

  /** No path is written twice. */
  predicate PathsDistinct(es: seq<Entry>) {
    forall a, b :: 0 <= a < b < |es| ==> es[a].path != es[b].path
  }

  /** When no path is written twice, each path ends up holding what was written to it. */
  lemma {:induction false} PutAllRead(t: Tree, es: seq<Entry>, i: nat)
    requires i < |es| && PathsDistinct(es)
    ensures NodeAt(PutAll(t, es), es[i].path) == Some(es[i].node)
    decreases |es|
  {
    var u := Put(t, es[0].path, es[0].node);
    assert PutAll(t, es) == PutAll(u, es[1..]);
    if i == 0 {
      PutRead(t, es[0].path, es[0].node, es[0].path);
      assert forall k :: 0 <= k < |es[1..]| ==> es[1..][k].path != es[0].path by {
        forall k | 0 <= k < |es[1..]| ensures es[1..][k].path != es[0].path {
          assert es[1..][k] == es[k + 1];
        }
      }
      PutAllElsewhere(u, es[1..], es[0].path);
    } else {
      assert PathsDistinct(es[1..]) by {
        forall a, b | 0 <= a < b < |es[1..]| ensures es[1..][a].path != es[1..][b].path {
          assert es[1..][a] == es[a + 1] && es[1..][b] == es[b + 1];
        }
      }
      assert es[1..][i - 1] == es[i];
      PutAllRead(u, es[1..], i - 1);
    }
  }

  /** What `Put` leaves at each path: the new node at `p`, the old one elsewhere. */
  lemma PutRead(t: Tree, p: Path, node: Node, q: Path)
    ensures NodeAt(Put(t, p, node), q) == if q == p then Some(node) else NodeAt(t, q)
  {
    var k := Find(t, p);
    if k < |t| {
      PutFindSame(t, k, p, node, q);
    } else {
      PutFindAppend(t, p, node, q);
    }
  }

  lemma PutFindSame(t: Tree, k: nat, p: Path, node: Node, q: Path)
    requires k < |t| && t[k].path == p
    ensures Find(t[k := Entry(p, node)], q) == Find(t, q)
  {
    if t != [] && k > 0 {
      PutFindSame(t[1..], k - 1, p, node, q);
      assert t[k := Entry(p, node)][1..] == t[1..][k - 1 := Entry(p, node)];
    }
  }

  lemma PutFindAppend(t: Tree, p: Path, node: Node, q: Path)
    requires !Exists(t, p)
    ensures Find(t + [Entry(p, node)], q) == if Exists(t, q) then Find(t, q) else if q == p then |t| else |t| + 1
  {
    if t != [] {
      PutFindAppend(t[1..], p, node, q);
      assert (t + [Entry(p, node)])[1..] == t[1..] + [Entry(p, node)];
    }
  }

  /** Writing keeps paths distinct. */
  lemma PutDistinct(t: Tree, p: Path, node: Node)
    requires Distinct(t)
    ensures Distinct(Put(t, p, node))
  {
  }

  /** Writing at `p` leaves what every other path holds as it was. */
  lemma PutElsewhere(t: Tree, p: Path, node: Node, q: Path)
    requires q != p
    ensures Exists(Put(t, p, node), q) == Exists(t, q)
    ensures IsDir(Put(t, p, node), q) == IsDir(t, q)
    ensures IsFile(Put(t, p, node), q) == IsFile(t, q)
    ensures ReadText(Put(t, p, node), q) == ReadText(t, q)
    ensures MTime(Put(t, p, node), q) == MTime(t, q)
  {
    var k := Find(t, p);
    if k < |t| {
      PutFindSame(t, k, p, node, q);
    } else {
      PutFindAppend(t, p, node, q);
    }
  }

  /** Every entry below the top level sits in a directory of the tree, as on a disk. */
  predicate Rooted(t: Tree) {
    forall i :: 0 <= i < |t| && |t[i].path| > 1 ==> IsDir(t, t[i].path[..|t[i].path| - 1])
  }

  /** In a rooted tree nothing exists below a path that does not exist. */
  lemma RootedParent(t: Tree, p: Path)
    requires Rooted(t)
    ensures Exists(t, p) && |p| > 1 ==> IsDir(t, p[..|p| - 1])
  {
    if Exists(t, p) {
      assert t[Find(t, p)].path == p;
    }
  }

  /** Writing a file that is not directly inside `dir` leaves `dir.iterdir()` as it was. */
  lemma PutChildren(t: Tree, p: Path, node: Node, dir: Path)
    requires !ChildOf(p, dir)
    ensures Children(Put(t, p, node), dir) == Children(t, dir)
  {
    var k := Find(t, p);
    if k < |t| {
      ChildrenReplace(t, k, node, dir);
    } else {
      ChildrenAppend(t, Entry(p, node), dir);
    }
  }

  lemma {:induction false} ChildrenReplace(t: Tree, k: nat, node: Node, dir: Path)
    requires k < |t|
    ensures Children(t[k := Entry(t[k].path, node)], dir) == Children(t, dir)
  {
    if k > 0 {
      ChildrenReplace(t[1..], k - 1, node, dir);
      assert t[k := Entry(t[k].path, node)][1..] == t[1..][k - 1 := Entry(t[k].path, node)];
    }
  }

  lemma {:induction false} ChildrenAppend(t: Tree, e: Entry, dir: Path)
    requires !ChildOf(e.path, dir)
    ensures Children(t + [e], dir) == Children(t, dir)
  {
    if t != [] {
      ChildrenAppend(t[1..], e, dir);
      assert (t + [e])[1..] == t[1..] + [e];
    }
  }

  /** A path no entry has is not listed. */
  lemma {:induction false} ChildrenOnly(t: Tree, dir: Path, p: Path)
    requires forall i :: 0 <= i < |t| ==> t[i].path != p
    ensures p !in Children(t, dir)
  {
    if t != [] {
      ChildrenOnly(t[1..], dir, p);
    }
  }

  /** `iterdir()` lists each entry once, and entries of one directory by distinct names. */
  lemma {:induction false} ChildrenUnique(t: Tree, dir: Path)
    requires Distinct(t)
    ensures Unique(Children(t, dir))
    ensures forall i, j :: 0 <= i < j < |Children(t, dir)| ==> Name(Children(t, dir)[i]) != Name(Children(t, dir)[j])
  {
    var c := Children(t, dir);
    if t != [] {
      ChildrenUnique(t[1..], dir);
      ChildrenOnly(t[1..], dir, t[0].path);
    }
    forall i, j | 0 <= i < j < |c| ensures Name(c[i]) != Name(c[j]) {
      if Name(c[i]) == Name(c[j]) {
        ChildName(c[i], c[j], dir);
      }
    }
  }

  /** Two entries directly inside one directory are told apart by their names. */
  lemma ChildName(p: Path, q: Path, dir: Path)
    requires ChildOf(p, dir) && ChildOf(q, dir) && Name(p) == Name(q)
    ensures p == q
  {
    assert p == p[..|dir|] + [Name(p)];
    assert q == q[..|dir|] + [Name(q)];
  }

  /**
   * The directories and files the map and the bar see. Writes take the time
   * they happen at (`now`), which becomes the file's `st_mtime`.
   */
  class Disk {
    var tree: Tree

    ghost predicate Valid()
      reads this
    {
      Distinct(tree)
    }

    constructor(t: Tree)
      requires Distinct(t)
      ensures Valid() && tree == t
    {
      tree := t;
    }

    /** `shutil.rmtree(dir)`. */
    method Remove(dir: Path)
      requires Valid()
      modifies this
      ensures Valid()
      ensures tree == RemoveTree(old(tree), dir)
    {
      RemoveTreeDistinct(tree, dir);
      tree := RemoveTree(tree, dir);
    }

    /** Create a directory, or copy a file with its time, at `p`. */
    method Place(p: Path, node: Node)
      requires Valid()
      modifies this
      ensures Valid()
      ensures tree == Put(old(tree), p, node)
    {
      PutDistinct(tree, p, node);
      tree := Put(tree, p, node);
    }

    method PlaceAll(es: seq<Entry>)
      requires Valid()
      modifies this
      ensures Valid()
      ensures tree == PutAll(old(tree), es)
    {
      PutAllDistinct(tree, es);
      tree := PutAll(tree, es);
    }

    /** `path.write_text(text)`. */
    method WriteText(p: Path, text: string, now: int)
      requires Valid()
      modifies this
      ensures Valid()
      ensures tree == Put(old(tree), p, File(text, now))
      ensures ReadText(tree, p) == Some(text)
    {
      PutDistinct(tree, p, File(text, now));
      PutRead(tree, p, File(text, now), p);
      tree := Put(tree, p, File(text, now));
    }
  }
}
