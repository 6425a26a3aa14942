/**
 The file system's layout: a tree of structure nodes built once, at the first mount, and the node
 ids derived from it.
 */
module Structure {
  import opened Options

  const NO_PID: int := -1
  const NO_OBJECT: nat := 0
  const ROOT_BASE: nat := 1
  const NAME_LEN: nat := 16

  /** The node types; `Text` stands for the Linux-compatible files of the root, which differ only in what they print. */
  datatype Kind =
    | Root | Proc | Thread | Dir | File | This | Parent | CurProc | ProcName | Fd | Text | ProcLink | Sysctl

  datatype Snode = Snode(kind: Kind, name: string, base: nat, process: bool, thread: bool, parent: Option<nat>, kids: seq<nat>)

  /** What a caller gives for a new node. */
  datatype Entry = Entry(name: string, kind: Kind, base: nat, process: bool, thread: bool)

  /** The entries that readdir replaces by processes, threads or descriptors. */
  predicate Dynamic(k: Kind) { k.Proc? || k.ProcName? || k.Thread? || k.Fd? }

  /** The types that have children in the layout; "." and ".." stand for directories and have none. */
  predicate Holder(k: Kind) { k.Root? || k.Proc? || k.Thread? || k.Dir? || k.ProcName? || k.Fd? }

  /** The types whose vnodes are directories; by-name entries are links, and sysctl nodes depend on their oid. */
  predicate Directory(k: Kind) { k.Root? || k.Proc? || k.Thread? || k.Dir? || k.This? || k.Parent? || k.Fd? }

  // ---------- building ----------

  function Cut(name: string): string { if |name| < NAME_LEN then name else name[..NAME_LEN - 1] }

  /** The tree with one more node, at the tail of its parent's children. */
  function Added(nodes: seq<Snode>, parent: Option<nat>, e: Entry): seq<Snode>
    requires parent.Some? ==> parent.value < |nodes|
  {
    match parent
    case None => nodes + [Snode(e.kind, Cut(e.name), e.base, e.process, e.thread, None, [])]
    case Some(p) =>
      var up := nodes[p];
      nodes[p := up.(kids := up.kids + [|nodes|])]
      + [Snode(e.kind, Cut(e.name), e.base, e.process || up.process, e.thread || up.thread, parent, [])]
  }

  // ---------- well-formed trees ----------

  /** A node other than the first hangs below an earlier one, and is among its children. */
  ghost predicate LinkedUp(nodes: seq<Snode>, i: nat)
    requires i < |nodes|
  {
    if i == 0 then nodes[i].parent.None?
    else nodes[i].parent.Some? && nodes[i].parent.value < i && i in nodes[nodes[i].parent.value].kids
  }

  ghost predicate LinkedDown(nodes: seq<Snode>, p: nat)
    requires p < |nodes|
  {
    forall a :: 0 <= a < |nodes[p].kids| ==> p < nodes[p].kids[a] < |nodes| && nodes[nodes[p].kids[a]].parent == Some(p)
  }

  ghost predicate Linked(nodes: seq<Snode>) {
    && (forall i :: 0 <= i < |nodes| ==> LinkedUp(nodes, i))
    && (forall p :: 0 <= p < |nodes| ==> LinkedDown(nodes, p))
  }

  ghost predicate UniqueBases(nodes: seq<Snode>) {
    forall i, j :: 0 <= i < j < |nodes| ==> nodes[i].base != nodes[j].base
  }

  /** What a node's type and flags must be below its parent. */
  predicate FitsBelow(up: Snode, kind: Kind, process: bool, thread: bool) {
    && (up.process ==> process) && (up.thread ==> thread)
    && (kind.Proc? || kind.ProcName? ==> process && !up.process && !up.thread)
    && (kind.Thread? ==> process && thread && !up.thread)
    && (kind.Fd? ==> process && !up.thread)
    && (up.kind.Fd? ==> kind.File? || kind.This? || kind.Parent?)
    && !kind.Root? && Holder(up.kind)
  }

  /** The characters that a printed number may start with. */
  predicate StartsNumber(c: char) { '0' <= c <= '9' || c == '-' }

  predicate GoodName(kind: Kind, name: string) {
    && name != "" && !StartsNumber(name[0])
    && (name == "." <==> kind.This?) && (name == ".." <==> kind.Parent?)
  }

  ghost predicate ShapedAt(nodes: seq<Snode>, i: nat)
    requires i < |nodes|
  {
    if nodes[i].parent.None? then nodes[i].kind.Root? && !nodes[i].process && !nodes[i].thread
    else
      && nodes[i].parent.value < |nodes|
      && FitsBelow(nodes[nodes[i].parent.value], nodes[i].kind, nodes[i].process, nodes[i].thread)
      && GoodName(nodes[i].kind, nodes[i].name)
  }

  ghost predicate Shaped(nodes: seq<Snode>) {
    forall i :: 0 <= i < |nodes| ==> ShapedAt(nodes, i)
  }

  /** Siblings have different names, and only the last may be dynamic. */
  ghost predicate Siblings(nodes: seq<Snode>, kids: seq<nat>) {
    && (forall a :: 0 <= a < |kids| ==> kids[a] < |nodes|)
    && (forall a, b :: 0 <= a < b < |kids| ==> nodes[kids[a]].name != nodes[kids[b]].name)
    && (forall a :: 0 <= a < |kids| - 1 ==> !Dynamic(nodes[kids[a]].kind))
  }

  /** Everything about the layout but the ids. */
  ghost predicate Formed(nodes: seq<Snode>) {
    Linked(nodes) && Shaped(nodes) && forall p :: 0 <= p < |nodes| ==> Siblings(nodes, nodes[p].kids)
  }

  ghost predicate Tree(nodes: seq<Snode>) {
    Formed(nodes) && UniqueBases(nodes)
  }

  function NamesIn(nodes: seq<Snode>, kids: seq<nat>): set<string> {
    if kids == [] then {}
    else
      var k := kids[|kids| - 1];
      NamesIn(nodes, kids[..|kids| - 1]) + (if k < |nodes| then {nodes[k].name} else {})
  }

  lemma {:induction false} NamesMember(nodes: seq<Snode>, kids: seq<nat>, a: nat)
    requires a < |kids| && kids[a] < |nodes|
    ensures nodes[kids[a]].name in NamesIn(nodes, kids)
  {
    if a < |kids| - 1 { NamesMember(nodes, kids[..|kids| - 1], a); }
  }

  lemma {:induction false} NamesSame(nodes: seq<Snode>, after: seq<Snode>, kids: seq<nat>)
    requires |nodes| <= |after|
    requires forall a :: 0 <= a < |kids| ==> kids[a] < |nodes| && after[kids[a]].name == nodes[kids[a]].name
    ensures NamesIn(after, kids) == NamesIn(nodes, kids)
  {
    if kids != [] { NamesSame(nodes, after, kids[..|kids| - 1]); }
  }

  ghost predicate HasDynamic(nodes: seq<Snode>, kids: seq<nat>) {
    exists a :: 0 <= a < |kids| && kids[a] < |nodes| && Dynamic(nodes[kids[a]].kind)
  }

  /** What keeps the layout well formed when a node is added below `p`. */
  ghost predicate Fits(nodes: seq<Snode>, p: nat, e: Entry)
    requires p < |nodes|
  {
    && FitsBelow(nodes[p], e.kind, e.process || nodes[p].process, e.thread || nodes[p].thread)
    && GoodName(e.kind, Cut(e.name))
    && Cut(e.name) !in NamesIn(nodes, nodes[p].kids)
    && !HasDynamic(nodes, nodes[p].kids)
  }

  lemma AddedIsLinkedUp(nodes: seq<Snode>, p: nat, e: Entry, i: nat)
    requires p < |nodes| && i <= |nodes| && (i < |nodes| ==> LinkedUp(nodes, i))
    ensures LinkedUp(Added(nodes, Some(p), e), i)
  {
    var after := Added(nodes, Some(p), e);
    if i == |nodes| {
      assert after[p].kids[|nodes[p].kids|] == i;
    } else if i > 0 {
      var q := nodes[i].parent.value;
      assert nodes[q].kids <= after[q].kids;
    }
  }

  lemma AddedIsLinkedDown(nodes: seq<Snode>, p: nat, e: Entry, q: nat)
    requires p < |nodes| && q < |nodes| && LinkedDown(nodes, q)
    ensures LinkedDown(Added(nodes, Some(p), e), q)
  {
  }

  lemma AddedIsLinked(nodes: seq<Snode>, p: nat, e: Entry)
    requires Linked(nodes) && p < |nodes|
    ensures Linked(Added(nodes, Some(p), e))
  {
    var after := Added(nodes, Some(p), e);
    forall i | 0 <= i < |after| ensures LinkedUp(after, i) { AddedIsLinkedUp(nodes, p, e, i); }
    forall q | 0 <= q < |after| ensures LinkedDown(after, q) {
      if q < |nodes| { AddedIsLinkedDown(nodes, p, e, q); }
    }
  }

  lemma AddedIsShaped(nodes: seq<Snode>, p: nat, e: Entry, i: nat)
    requires p < |nodes| && Fits(nodes, p, e) && i <= |nodes| && (i < |nodes| ==> ShapedAt(nodes, i))
    ensures ShapedAt(Added(nodes, Some(p), e), i)
  {
  }

  lemma AddedKeepsSiblings(nodes: seq<Snode>, p: nat, e: Entry, q: nat)
    requires p < |nodes| && q < |nodes| && Siblings(nodes, nodes[q].kids)
    requires Fits(nodes, p, e)
    ensures var after := Added(nodes, Some(p), e); Siblings(after, after[q].kids)
  {
    var after, kids := Added(nodes, Some(p), e), nodes[q].kids;
    assert forall a :: 0 <= a < |kids| ==> after[kids[a]].name == nodes[kids[a]].name && after[kids[a]].kind == nodes[kids[a]].kind;
    if p == q {
      forall a | 0 <= a < |kids| ensures nodes[kids[a]].name in NamesIn(nodes, kids) { NamesMember(nodes, kids, a); }
    }
  }

  lemma AddedKeepsFormed(nodes: seq<Snode>, p: nat, e: Entry)
    requires Formed(nodes) && p < |nodes| && Fits(nodes, p, e)
    ensures Formed(Added(nodes, Some(p), e))
  {
    var after := Added(nodes, Some(p), e);
    AddedIsLinked(nodes, p, e);
    forall i | 0 <= i < |after| ensures ShapedAt(after, i) { AddedIsShaped(nodes, p, e, i); }
    forall q | 0 <= q < |after| ensures Siblings(after, after[q].kids) {
      if q < |nodes| { AddedKeepsSiblings(nodes, p, e, q); }
    }
  }

  /** A fitting node keeps the tree well formed exactly when its id is new. */
  lemma AddedKeepsTree(nodes: seq<Snode>, p: nat, e: Entry)
    requires Tree(nodes) && p < |nodes| && Fits(nodes, p, e)
    ensures Tree(Added(nodes, Some(p), e)) <==> forall i :: 0 <= i < |nodes| ==> nodes[i].base != e.base
  {
    AddedKeepsFormed(nodes, p, e);
    var after := Added(nodes, Some(p), e);
    assert forall i :: 0 <= i < |nodes| ==> after[i].base == nodes[i].base;
    assert after[|nodes|].base == e.base;
  }

  // ---------- node ids ----------

  /** A node id: the owning process, the owning thread or descriptor, and the structure node's base id. */
  datatype PfsId = PfsId(pid: int, obj: nat, base: nat)

  /** A node of the mounted file system: a structure node and an id. */
  datatype Pfsnode = Pfsnode(snode: nat, id: PfsId)

  /** The id of the directory that holds a node; the root holds itself. */
  function ParentId(nodes: seq<Snode>, v: Pfsnode): PfsId
    requires v.snode < |nodes|
  {
    var s := nodes[v.snode];
    var up := if s.parent.Some? && s.parent.value < |nodes| then nodes[s.parent.value] else s;
    PfsId(if up.process then v.id.pid else NO_PID, if up.thread then v.id.obj else NO_OBJECT, up.base)
  }

  /** The node for child `c` of `v`; `n` replaces the pid below a process entry, the object below a thread or descriptor entry. */
  function ChildOf(nodes: seq<Snode>, v: Pfsnode, c: nat, n: Option<nat>): Pfsnode
    requires c < |nodes|
  {
    var k := nodes[c].kind;
    Pfsnode(c, PfsId(if n.Some? && (k.Proc? || k.ProcName?) then n.value else v.id.pid,
                     if n.Some? && (k.Thread? || k.Fd?) then n.value else v.id.obj,
                     nodes[c].base))
  }

  /** The exact condition under which going to a child and back returns the directory's own id. */
  lemma ParentOfChild(nodes: seq<Snode>, v: Pfsnode, a: nat, n: Option<nat>)
    requires Tree(nodes) && v.snode < |nodes| && v.id.base == nodes[v.snode].base && a < |nodes[v.snode].kids|
    ensures nodes[v.snode].kids[a] < |nodes|
    ensures ParentId(nodes, ChildOf(nodes, v, nodes[v.snode].kids[a], n)) == v.id
       <==> (!nodes[v.snode].process ==> v.id.pid == NO_PID) && (!nodes[v.snode].thread ==> v.id.obj == NO_OBJECT)
  {
    var c := nodes[v.snode].kids[a];
    assert LinkedDown(nodes, v.snode);
    assert ShapedAt(nodes, c);
  }

  /** What holds of every node reached from the root by lookups in the static tree. */
  ghost predicate Sound(nodes: seq<Snode>, v: Pfsnode) {
    && v.snode < |nodes| && v.id.base == nodes[v.snode].base
    && var s := nodes[v.snode];
    && (!s.process ==> v.id.pid == NO_PID)
    && (v.id.obj != NO_OBJECT && !s.thread && !s.kind.Fd? && !s.kind.Sysctl? ==>
          s.parent.Some? && s.parent.value < |nodes| && nodes[s.parent.value].kind.Fd?)
  }

  lemma RootIsSound(nodes: seq<Snode>)
    requires nodes != []
    requires !nodes[0].process && !nodes[0].thread
    ensures Sound(nodes, Pfsnode(0, PfsId(NO_PID, NO_OBJECT, nodes[0].base)))
  {
  }

  lemma ChildIsSound(nodes: seq<Snode>, v: Pfsnode, a: nat, n: Option<nat>)
    requires Tree(nodes) && Sound(nodes, v) && a < |nodes[v.snode].kids|
    ensures nodes[v.snode].kids[a] < |nodes| && Sound(nodes, ChildOf(nodes, v, nodes[v.snode].kids[a], n))
  {
    var c := nodes[v.snode].kids[a];
    assert LinkedDown(nodes, v.snode);
    assert ShapedAt(nodes, c);
    assert ShapedAt(nodes, v.snode);
  }

  /** Only descriptor entries hold an object without the thread flag, so every other directory gives its children its own id back. */
  lemma DotDotInvertsLookup(nodes: seq<Snode>, v: Pfsnode, a: nat, n: Option<nat>)
    requires Tree(nodes) && Sound(nodes, v) && a < |nodes[v.snode].kids| && nodes[v.snode].kids[a] < |nodes|
    ensures ParentId(nodes, ChildOf(nodes, v, nodes[v.snode].kids[a], n)) == v.id
       <==> (nodes[v.snode].kind.Fd? && !nodes[v.snode].thread ==> v.id.obj == NO_OBJECT)
  {
    var c := nodes[v.snode].kids[a];
    assert LinkedDown(nodes, v.snode);
    assert ShapedAt(nodes, c);
    assert ShapedAt(nodes, v.snode);
    ParentOfChild(nodes, v, a, n);
  }

  /** A sound node is told by its id alone. */
  lemma IdNamesNode(nodes: seq<Snode>, u: Pfsnode, v: Pfsnode)
    requires Tree(nodes) && Sound(nodes, u) && Sound(nodes, v) && u.id == v.id
    ensures u == v
  {
  }
}
