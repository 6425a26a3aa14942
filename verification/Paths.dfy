/** Paths through the mounted tree: every path of lookups stays sound, and ".." leads back from a directory to where it was found. */
module Paths {
  import opened Options
  import opened Structure
  import opened Numbers
  import opened Lookup
  import opened Agreement
  import opened Resolution
  import T = SysctlTree
  import StructureInit

  function RootNode(nodes: seq<Snode>): Pfsnode
    requires nodes != []
  {
    Pfsnode(0, PfsId(NO_PID, NO_OBJECT, nodes[0].base))
  }

  /** The root of the tree that the initialisation builds is where every path starts, and it lists the processes last. */
  lemma MountedRoot(nodes: seq<Snode>)
    requires nodes != [] && Tree(nodes) && StructureInit.Of(nodes, 0).last == Some(Proc)
    ensures Sound(nodes, RootNode(nodes)) && EndsInProcs(nodes, RootNode(nodes))
  {
    assert LinkedUp(nodes, 0);
    assert ShapedAt(nodes, 0);
    RootIsSound(nodes);
    assert Siblings(nodes, nodes[0].kids);
  }

  /** Whatever the scan returns is a child of the directory, numbered or not. */
  lemma {:induction false} ScanFindsChild(nodes: seq<Snode>, w: World, v: Pfsnode, kids: seq<nat>, name: string)
    returns (a: nat, n: Option<nat>)
    requires forall b :: 0 <= b < |kids| ==> kids[b] < |nodes|
    requires Scan(nodes, w, v, kids, name).Some?
    ensures a < |kids| && Scan(nodes, w, v, kids, name).value == ChildOf(nodes, v, kids[a], n)
    ensures nodes[kids[a]].kind.This? || nodes[kids[a]].kind.Parent? ==> nodes[kids[a]].name == name
  {
    var c := kids[0];
    var k := nodes[c].kind;
    if name == nodes[c].name {
      a, n := 0, None;
    } else if k.Fd? {
      a, n := 0, Some(Atoi(name));
    } else if Dynamic(k) && !((!k.ProcName? && Digits(name) < |name|) || Atoi(name) == -1) {
      a, n := 0, Some(if k.Thread? then ObjectOf(Atoi(name)) else Atoi(name));
    } else {
      var b;
      b, n := ScanFindsChild(nodes, w, v, kids[1..], name);
      a := b + 1;
    }
  }

  lemma FindIsSound(nodes: seq<Snode>, w: World, v: Pfsnode, name: string)
    requires Tree(nodes) && Sound(nodes, v) && Find(nodes, w, v, name).Some?
    ensures Sound(nodes, Find(nodes, w, v, name).value)
  {
    if name == ".." {
      UpIsSound(nodes, v);
    } else if name != "." && !nodes[v.snode].kind.Sysctl? {
      assert Siblings(nodes, nodes[v.snode].kids);
      var a, n := ScanFindsChild(nodes, w, v, nodes[v.snode].kids, name);
      ChildIsSound(nodes, v, a, n);
    }
  }

  lemma UpIsSound(nodes: seq<Snode>, v: Pfsnode)
    requires Tree(nodes) && Sound(nodes, v)
    ensures Sound(nodes, UpNode(nodes, v))
  {
    assert LinkedUp(nodes, v.snode);
    assert ShapedAt(nodes, v.snode);
  }

  /** Looking up a path, one component after the other. */
  function FindPath(nodes: seq<Snode>, w: World, v: Pfsnode, path: seq<string>): Option<Pfsnode>
    requires Tree(nodes) && v.snode < |nodes|
    decreases |path|
  {
    if path == [] then Some(v)
    else
      var next := Find(nodes, w, v, path[0]);
      if next.None? || next.value.snode >= |nodes| then None else FindPath(nodes, w, next.value, path[1..])
  }

  /** Every node a path leads to from the root is sound. */
  lemma {:induction false} PathIsSound(nodes: seq<Snode>, w: World, v: Pfsnode, path: seq<string>)
    requires Tree(nodes) && Sound(nodes, v) && FindPath(nodes, w, v, path).Some?
    ensures Sound(nodes, FindPath(nodes, w, v, path).value)
    decreases |path|
  {
    if path != [] {
      FindIsSound(nodes, w, v, path[0]);
      PathIsSound(nodes, w, Find(nodes, w, v, path[0]).value, path[1..]);
    }
  }

  /** Two paths that end at the same id end at the same node. */
  lemma SameIdSameNode(nodes: seq<Snode>, w: World, root: Pfsnode, path: seq<string>, other: seq<string>)
    requires Tree(nodes) && Sound(nodes, root) && FindPath(nodes, w, root, path).Some? && FindPath(nodes, w, root, other).Some?
    ensures FindPath(nodes, w, root, path).value.id == FindPath(nodes, w, root, other).value.id ==>
              FindPath(nodes, w, root, path) == FindPath(nodes, w, root, other)
  {
    PathIsSound(nodes, w, root, path);
    PathIsSound(nodes, w, root, other);
    if FindPath(nodes, w, root, path).value.id == FindPath(nodes, w, root, other).value.id {
      IdNamesNode(nodes, FindPath(nodes, w, root, path).value, FindPath(nodes, w, root, other).value);
    }
  }

  lemma ChildDotDot(nodes: seq<Snode>, w: World, v: Pfsnode, name: string)
    requires Tree(nodes) && Sound(nodes, v) && !nodes[v.snode].kind.Sysctl? && name != "." && name != ".."
    requires Find(nodes, w, v, name).Some? && Find(nodes, w, v, name).value.snode < |nodes|
    ensures var r := Find(nodes, w, v, name).value;
            Find(nodes, w, r, "..") == if IsDir(nodes, w, r) then Some(v) else None
  {
    var kids := nodes[v.snode].kids;
    assert Siblings(nodes, kids);
    var a, n := ScanFindsChild(nodes, w, v, kids, name);
    ChildNames(nodes, v, a);
    DotDotInvertsLookup(nodes, v, a, n);
    ParentNode(nodes, v, a);
  }

  lemma ParentNode(nodes: seq<Snode>, v: Pfsnode, a: nat)
    requires Tree(nodes) && v.snode < |nodes| && a < |nodes[v.snode].kids|
    ensures nodes[v.snode].kids[a] < |nodes| && nodes[nodes[v.snode].kids[a]].parent == Some(v.snode)
  {
    assert LinkedDown(nodes, v.snode);
  }

  /** From any node a path reaches outside /proc/sys, looking up a name and then ".." returns to that very node exactly
      when the name leads to a directory; files and links refuse. */
  lemma DotDotReturns(nodes: seq<Snode>, w: World, root: Pfsnode, path: seq<string>, name: string)
    requires Tree(nodes) && Sound(nodes, root) && name != "." && name != ".."
    requires FindPath(nodes, w, root, path).Some?
    ensures var v := FindPath(nodes, w, root, path).value;
            && v.snode < |nodes|
            && var r := Find(nodes, w, v, name);
            (r.Some? && r.value.snode < |nodes| && !nodes[v.snode].kind.Sysctl? ==>
              Find(nodes, w, r.value, "..") == if IsDir(nodes, w, r.value) then Some(v) else None)
  {
    PathIsSound(nodes, w, root, path);
    var v := FindPath(nodes, w, root, path).value;
    var r := Find(nodes, w, v, name);
    if r.Some? && r.value.snode < |nodes| && !nodes[v.snode].kind.Sysctl? { ChildDotDot(nodes, w, v, name); }
  }

  /** At and below /proc/sys every directory shares one structure node, so ".." leads to the root of the file system from
      every level, and never back to the directory it came from. */
  lemma SysctlDotDotIsRoot(nodes: seq<Snode>, w: World, v: Pfsnode, name: string)
    requires Tree(nodes) && v.snode < |nodes| && nodes[v.snode].kind.Sysctl? && nodes[v.snode].parent == Some(0)
    requires IsDir(nodes, w, v) && name !in {"", ".", ".."}
    ensures Find(nodes, w, v, "..") == Some(RootNode(nodes))
    ensures var r := Find(nodes, w, v, name);
            r.Some? && IsDir(nodes, w, r.value) ==>
              Find(nodes, w, r.value, "..") == Some(RootNode(nodes)) && Find(nodes, w, r.value, "..") != Some(v)
  {
    assert LinkedUp(nodes, 0);
    assert ShapedAt(nodes, 0);
  }
}
