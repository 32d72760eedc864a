/** The walk that lists what goes into an archive: files, and directories that nothing else implies. */
module Collect {
  import opened Prelude
  import opened Octal
  import opened Ustar
  import opened UstarReader

  /** A directory's children are in the sorted order the walk visits them; Other is neither file nor directory. */
  datatype Node =
    | FileNode(bytes: seq<Byte>, mode: nat)
    | DirNode(mode: nat, children: seq<Child>)
    | Other

  datatype Child = Child(name: seq<Byte>, node: Node)

  function ChildPath(relative: seq<Byte>, name: seq<Byte>): seq<Byte> {
    if relative == [] then name else relative + [SLASH] + name
  }

  /** What one child contributes: a directory stands for itself only if nothing below it does. */
  function NodeEntries(path: seq<Byte>, n: Node, inner: seq<Entry>): seq<Entry> {
    match n
    case FileNode(bytes, mode) => [Entry(path, bytes, mode, File)]
    case DirNode(mode, _) => if inner == [] then [Entry(path, [], mode, Dir)] else inner
    case Other => []
  }

  function CollectAll(relative: seq<Byte>, children: seq<Child>): seq<Entry>
    decreases children
  {
    if children == [] then []
    else
      var c := children[0];
      var path := ChildPath(relative, c.name);
      assert c in children;
      var inner := if c.node.DirNode? then CollectAll(path, c.node.children) else [];
      NodeEntries(path, c.node, inner) + CollectAll(relative, children[1..])
  }

  function CollectNode(path: seq<Byte>, n: Node): seq<Entry> {
    NodeEntries(path, n, if n.DirNode? then CollectAll(path, n.children) else [])
  }

  lemma CollectOneMore(relative: seq<Byte>, children: seq<Child>, i: nat, entries: seq<Entry>)
    requires i < |children| && entries + CollectAll(relative, children[i..]) == CollectAll(relative, children)
    ensures entries + CollectNode(ChildPath(relative, children[i].name), children[i].node)
            + CollectAll(relative, children[i + 1..])
         == CollectAll(relative, children)
  {
    var rest := children[i..];
    assert rest[0] == children[i] && rest[1..] == children[i + 1..];
    CollectFirst(relative, rest);
    Associate(entries, CollectNode(ChildPath(relative, rest[0].name), rest[0].node), CollectAll(relative, rest[1..]));
  }

  lemma CollectFirst(relative: seq<Byte>, children: seq<Child>)
    requires children != []
    ensures CollectAll(relative, children)
         == CollectNode(ChildPath(relative, children[0].name), children[0].node) + CollectAll(relative, children[1..])
  {
  }

  lemma Associate(a: seq<Entry>, b: seq<Entry>, c: seq<Entry>)
    ensures a + b + c == a + (b + c)
  {
  }

  /** The same listing, pushed entry by entry as the walk does. */
  method CollectDir(relative: seq<Byte>, children: seq<Child>) returns (entries: seq<Entry>)
    ensures entries == CollectAll(relative, children)
    decreases children
  {
    entries := [];
    var i := 0;
    assert children[0..] == children;
    while i < |children|
      invariant i <= |children| && entries + CollectAll(relative, children[i..]) == CollectAll(relative, children)
    {
      CollectOneMore(relative, children, i, entries);
      var child := children[i];
      assert child in children;
      var path := ChildPath(relative, child.name);
      match child.node {
        case FileNode(bytes, mode) =>
          entries := entries + [Entry(path, bytes, mode, File)];
        case DirNode(mode, below) =>
          var inner := CollectDir(path, below);
          if |inner| == 0 {
            entries := entries + [Entry(path, [], mode, Dir)];
          } else {
            entries := entries + inner;
          }
        case Other =>
          assert entries + [] == entries;
      }
      i := i + 1;
    }
    assert entries + [] == entries;
  }

  // ---------------------------------------------------------------------
  // What the listing says of the tree

  /** The node found by following some names from a directory's children. */
  ghost predicate Under(children: seq<Child>, names: seq<seq<Byte>>, n: Node)
    decreases names
  {
    names != [] &&
    exists i :: 0 <= i < |children| && children[i].name == names[0] && Reaches(children[i].node, names[1..], n)
  }

  ghost predicate Reaches(from: Node, names: seq<seq<Byte>>, n: Node)
    decreases names
  {
    if names == [] then n == from else from.DirNode? && exists i ::
      0 <= i < |from.children| && from.children[i].name == names[0] && Reaches(from.children[i].node, names[1..], n)
  }

  function PathOf(relative: seq<Byte>, names: seq<seq<Byte>>): seq<Byte>
    decreases |names|
  {
    if names == [] then relative else PathOf(ChildPath(relative, names[0]), names[1..])
  }

  /** A directory with no file or directory in it. */
  predicate Barren(n: Node) {
    n.DirNode? && forall c :: c in n.children ==> c.node.Other?
  }

  /** The entry a node stands for, if it stands for one. */
  predicate StandsFor(n: Node, e: Entry, path: seq<Byte>) {
    || (n.FileNode? && e == Entry(path, n.bytes, n.mode, File))
    || (Barren(n) && e == Entry(path, [], n.mode, Dir))
  }

  lemma {:induction false} NothingCollected(relative: seq<Byte>, children: seq<Child>)
    ensures CollectAll(relative, children) == [] <==> forall c :: c in children ==> c.node.Other?
    decreases children
  {
    if children != [] {
      var c := children[0];
      assert children == [c] + children[1..] && c in children;
      NothingCollected(relative, children[1..]);
    }
  }

  /** Listed means standing for a node of the tree, at its path. */
  lemma {:induction false} ListedStands(relative: seq<Byte>, children: seq<Child>, e: Entry)
    returns (names: seq<seq<Byte>>, n: Node)
    requires e in CollectAll(relative, children)
    ensures Under(children, names, n) && StandsFor(n, e, PathOf(relative, names))
    decreases children
  {
    var c := children[0];
    var path := ChildPath(relative, c.name);
    if e in CollectNode(path, c.node) {
      if c.node.DirNode? && CollectAll(path, c.node.children) != [] {
        assert c in children;
        var inner, found := ListedStands(path, c.node.children, e);
        names, n := [c.name] + inner, found;
        assert names[1..] == inner;
        assert Reaches(c.node, inner, n);
      } else {
        names, n := [c.name], c.node;
        assert names[1..] == [];
        if c.node.DirNode? {
          NothingCollected(path, c.node.children);
        }
      }
    } else {
      var inner, found := ListedStands(relative, children[1..], e);
      names, n := inner, found;
      var i :| 0 <= i < |children[1..]| && children[1..][i].name == names[0]
        && Reaches(children[1..][i].node, names[1..], n);
      assert children[i + 1] == children[1..][i];
    }
  }

  lemma {:induction false} NodeIsListed(relative: seq<Byte>, children: seq<Child>, i: nat, e: Entry)
    requires i < |children| && e in CollectNode(ChildPath(relative, children[i].name), children[i].node)
    ensures e in CollectAll(relative, children)
  {
    if i > 0 {
      NodeIsListed(relative, children[1..], i - 1, e);
    }
  }

  /** Standing for a node means listed. */
  lemma {:induction false} StandsListed(
    relative: seq<Byte>, children: seq<Child>, names: seq<seq<Byte>>, n: Node, e: Entry)
    requires Under(children, names, n) && StandsFor(n, e, PathOf(relative, names))
    ensures e in CollectAll(relative, children)
    decreases |names|
  {
    var i :| 0 <= i < |children| && children[i].name == names[0] && Reaches(children[i].node, names[1..], n);
    var c := children[i];
    var path := ChildPath(relative, c.name);
    assert PathOf(relative, names) == PathOf(path, names[1..]);
    if names[1..] == [] {
      if c.node.DirNode? {
        NothingCollected(path, c.node.children);
      }
    } else {
      assert Under(c.node.children, names[1..], n);
      StandsListed(path, c.node.children, names[1..], n, e);
    }
    NodeIsListed(relative, children, i, e);
  }

  /** The listing is exactly the files and the barren directories of the tree, each under its path. */
  lemma ListingIsExact(children: seq<Child>, e: Entry)
    ensures e in CollectAll([], children) <==>
      exists names, n :: Under(children, names, n) && StandsFor(n, e, PathOf([], names))
  {
    if e in CollectAll([], children) {
      var names, n := ListedStands([], children, e);
    }
    if exists names, n :: Under(children, names, n) && StandsFor(n, e, PathOf([], names)) {
      var names, n :| Under(children, names, n) && StandsFor(n, e, PathOf([], names));
      StandsListed([], children, names, n, e);
    }
  }

  // ---------------------------------------------------------------------
  // No path twice

  /** As file systems have it: within a directory no two names are alike, and none is empty or has a slash in it. */
  ghost predicate ProperNames(children: seq<Child>) {
    && (forall i, k :: 0 <= i < k < |children| ==> children[i].name != children[k].name)
    && (forall c :: c in children ==> c.name != [] && SLASH !in c.name)
  }

  ghost predicate Proper(children: seq<Child>)
    decreases children
  {
    ProperNames(children) && forall c :: c in children && c.node.DirNode? ==> Proper(c.node.children)
  }

  /** The path itself or something below it. */
  predicate AtOrBelow(name: seq<Byte>, path: seq<Byte>) {
    name == path || (path <= name && |path| < |name| && name[|path|] == SLASH)
  }

  lemma BelowChild(name: seq<Byte>, relative: seq<Byte>, child: seq<Byte>)
    requires child != [] && AtOrBelow(name, ChildPath(relative, child)) && relative != []
    ensures AtOrBelow(name, relative)
  {
    assert relative + [SLASH] + child == relative + ([SLASH] + child);
    assert name[..|relative| + 1 + |child|] == relative + ([SLASH] + child);
    assert name[|relative|] == SLASH;
    assert name[..|relative|] == relative;
  }

  /** Everything a node contributes is at its path or below it. */
  lemma {:induction false} CollectedBelow(path: seq<Byte>, n: Node, e: Entry)
    requires path != [] && e in CollectNode(path, n) && (n.DirNode? ==> Proper(n.children))
    ensures AtOrBelow(e.name, path)
    decreases n, 1
  {
    if n.DirNode? && e in CollectAll(path, n.children) {
      ChildrenBelow(path, n.children, n.children, e);
    }
  }

  lemma {:induction false} ChildrenBelow(path: seq<Byte>, all: seq<Child>, children: seq<Child>, e: Entry)
    requires path != [] && Proper(all) && e in CollectAll(path, children) && forall c :: c in children ==> c in all
    ensures AtOrBelow(e.name, path)
    decreases all, 0, |children|
  {
    var c := children[0];
    assert c in children && c in all;
    CollectFirst(path, children);
    if e in CollectNode(ChildPath(path, c.name), c.node) {
      CollectedBelow(ChildPath(path, c.name), c.node, e);
      BelowChild(e.name, path, c.name);
    } else {
      ChildrenBelow(path, all, children[1..], e);
    }
  }

  function Base(relative: seq<Byte>): seq<Byte> {
    if relative == [] then [] else relative + [SLASH]
  }

  /** Two names without a slash, each ended or followed by one, are told apart by what holds them. */
  lemma NameDecides(base: seq<Byte>, a: seq<Byte>, b: seq<Byte>, name: seq<Byte>)
    requires SLASH !in a && SLASH !in b && AtOrBelow(name, base + a) && AtOrBelow(name, base + b)
    ensures a == b
  {
    var n := |base|;
    assert forall i :: 0 <= i < |a| ==> name[n + i] == (base + a)[n + i] == a[i];
    assert forall i :: 0 <= i < |b| ==> name[n + i] == (base + b)[n + i] == b[i];
    assert forall i :: 0 <= i < |a| ==> a[i] in a;
    assert forall i :: 0 <= i < |b| ==> b[i] in b;
    assert |a| == |b|;
    assert name[n..n + |a|] == a && name[n..n + |b|] == b;
  }

  ghost predicate NamesDiffer(entries: seq<Entry>) {
    forall i, k :: 0 <= i < k < |entries| ==> entries[i].name != entries[k].name
  }

  lemma DifferJoined(a: seq<Entry>, b: seq<Entry>)
    requires NamesDiffer(a) && NamesDiffer(b) && forall x, y :: x in a && y in b ==> x.name != y.name
    ensures NamesDiffer(a + b)
  {
    forall i, k | 0 <= i < k < |a + b|
      ensures (a + b)[i].name != (a + b)[k].name
    {
      if i < |a| <= k {
        assert a[i] in a && b[k - |a|] in b;
      }
    }
  }

  lemma ProperRest(children: seq<Child>)
    requires children != [] && Proper(children)
    ensures Proper(children[1..])
  {
    assert forall c :: c in children[1..] ==> c in children;
  }

  /** Where an entry of some children is: at or below one of them. */
  lemma {:induction false} BelowSome(relative: seq<Byte>, children: seq<Child>, e: Entry) returns (i: nat)
    requires Proper(children) && e in CollectAll(relative, children)
    ensures i < |children| && AtOrBelow(e.name, Base(relative) + children[i].name)
    decreases |children|
  {
    var c := children[0];
    assert c in children;
    CollectFirst(relative, children);
    if e in CollectNode(ChildPath(relative, c.name), c.node) {
      CollectedBelow(ChildPath(relative, c.name), c.node, e);
      assert ChildPath(relative, c.name) == Base(relative) + c.name;
      i := 0;
    } else {
      ProperRest(children);
      i := BelowSome(relative, children[1..], e);
      i := i + 1;
    }
  }

  /** No path is listed twice. */
  lemma {:induction false} NoPathTwice(relative: seq<Byte>, children: seq<Child>)
    requires Proper(children)
    ensures NamesDiffer(CollectAll(relative, children))
    decreases children
  {
    if children != [] {
      var c := children[0];
      var path := ChildPath(relative, c.name);
      var first, rest := CollectNode(path, c.node), CollectAll(relative, children[1..]);
      assert c in children;
      ProperRest(children);
      NoPathTwice(relative, children[1..]);
      if c.node.DirNode? {
        NoPathTwice(path, c.node.children);
      }
      forall x, y | x in first && y in rest
        ensures x.name != y.name
      {
        CollectedBelow(path, c.node, x);
        var i := BelowSome(relative, children[1..], y);
        assert path == Base(relative) + c.name && children[1..][i] == children[i + 1];
        if x.name == y.name {
          assert children[i + 1] in children;
          NameDecides(Base(relative), c.name, children[i + 1].name, x.name);
        }
      }
      DifferJoined(first, rest);
      CollectFirst(relative, children);
    }
  }

  /** A directory left out is implied: something below it is listed. */
  lemma {:induction false} DirectoriesAreImplied(n: Node) returns (names: seq<seq<Byte>>, below: Node)
    requires n.DirNode?
    ensures Reaches(n, names, below) && (below.FileNode? || Barren(below))
    decreases n
  {
    if Barren(n) {
      return [], n;
    }
    var c :| c in n.children && !c.node.Other?;
    var i :| 0 <= i < |n.children| && n.children[i] == c;
    if c.node.FileNode? {
      names, below := [c.name], c.node;
      assert names[1..] == [];
    } else {
      var inner, found := DirectoriesAreImplied(c.node);
      names, below := [c.name] + inner, found;
      assert names[1..] == inner;
    }
  }

  // ---------------------------------------------------------------------
  // From a tree to what a reader finds

  /** The whole archive of a tree, before compression. */
  method CreateArchive(children: seq<Child>) returns (r: Result<seq<Byte>, TarError>)
    ensures r == Archive(CollectAll([], children))
  {
    var entries := CollectDir([], children);
    r := CreateTar(entries);
  }

  lemma {:induction false} NormalMembers(entries: seq<Entry>, e: Entry)
    ensures e in Normals(entries) <==> exists o :: o in entries && e == Normal(o)
  {
    if entries != [] {
      assert entries == [entries[0]] + entries[1..];
      NormalMembers(entries[1..], e);
    }
  }

  /** The node, under some names, whose entry a reader sees as e. */
  ghost predicate ReadsAs(children: seq<Child>, e: Entry) {
    exists o, names, n :: Under(children, names, n) && StandsFor(n, o, PathOf([], names)) && e == Normal(o)
  }

  /**
   A reader of a tree's archive finds exactly its files and barren
   directories, with their paths, bytes and permission bits.
   */
  lemma TreeReadsBack(children: seq<Child>, e: Entry)
    requires Archive(CollectAll([], children)).Ok? && AllFit(CollectAll([], children))
    requires forall o :: o in CollectAll([], children) ==> Nameable(o)
    ensures Read(Archive(CollectAll([], children)).value).Some?
    ensures e in Read(Archive(CollectAll([], children)).value).value <==> ReadsAs(children, e)
  {
    var entries := CollectAll([], children);
    ArchiveRoundTrip(entries);
    NormalMembers(entries, e);
    if e in Normals(entries) {
      var o :| o in entries && e == Normal(o);
      ListingIsExact(children, o);
    }
    if ReadsAs(children, e) {
      var o, names, n :| Under(children, names, n) && StandsFor(n, o, PathOf([], names)) && e == Normal(o);
      ListingIsExact(children, o);
    }
  }
}
