/** Listing agrees with lookup: which names a directory shows, which names it resolves, and when they lead to the same node. */
module Agreement {
  import opened Options
  import opened Structure
  import opened Numbers
  import opened FileIds
  import opened Lookup
  import R = Readdir
  import S = SysctlReaddir
  import T = SysctlTree

  // ---------- what readdir shows ----------

  /** An entry of a listing, and the node it stands for. */
  datatype Line = Line(entry: R.Entry, node: Pfsnode)

  function Entries(lines: seq<Line>): (es: seq<R.Entry>)
    ensures |es| == |lines| && forall i :: 0 <= i < |es| ==> es[i] == lines[i].entry
  {
    seq(|lines|, i requires 0 <= i < |lines| => lines[i].entry)
  }

  function ProcLine(c: nat, base: nat, pid: nat): Line {
    Line(R.Entry(Decimal(pid), FileId(pid, NO_OBJECT, base)), Pfsnode(c, PfsId(pid, NO_OBJECT, base)))
  }

  function NameOf(w: World, pid: nat): string { if pid in w.procs then ProcDirName(pid, w.procs[pid]) else "" }

  function NameLine(w: World, c: nat, base: nat, pid: nat): Line {
    Line(R.Entry(NameOf(w, pid), FileId(pid, NO_OBJECT, base)), Pfsnode(c, PfsId(pid, NO_OBJECT, base)))
  }

  function ThreadLine(c: nat, base: nat, pid: int, tid: Tid): Line {
    Line(R.Entry(LongName(tid), FileId(pid, tid, base)), Pfsnode(c, PfsId(pid, tid, base)))
  }

  function FdLine(c: nat, base: nat, pid: int, fd: nat): Line {
    Line(R.Entry(Decimal(fd), FileId(pid, fd, base)), Pfsnode(c, PfsId(pid, fd, base)))
  }

  /** A plain entry: "." has the directory's own id, ".." its parent's, everything else the directory's pid and object. */
  function PlainLine(nodes: seq<Snode>, v: Pfsnode, c: nat): Line
    requires c < |nodes| && v.snode < |nodes|
  {
    var s := nodes[c];
    match s.kind
    case This => Line(R.Entry(s.name, FileId(v.id.pid, v.id.obj, v.id.base)), v)
    case Parent => var id := ParentId(nodes, v); Line(R.Entry(s.name, FileId(id.pid, id.obj, id.base)), UpNode(nodes, v))
    case _ => Line(R.Entry(s.name, FileId(v.id.pid, v.id.obj, s.base)), Pfsnode(c, PfsId(v.id.pid, v.id.obj, s.base)))
  }

  /** The threads or descriptors of the directory's process cannot be listed. */
  predicate Lost(w: World, v: Pfsnode, k: Kind) {
    (k.Thread? || k.Fd?) && (v.id.pid !in w.procs || (k.Thread? && w.procs[v.id.pid].threads.None?))
  }

  /** The lines that child `c` contributes to the listing of `v`. */
  function LinesOf(nodes: seq<Snode>, w: World, v: Pfsnode, c: nat): seq<Line>
    requires c < |nodes| && v.snode < |nodes|
  {
    var k, base := nodes[c].kind, nodes[c].base;
    if Lost(w, v, k) then []
    else
      match k
      case Proc => var ids := Pids(w); seq(|ids|, i requires 0 <= i < |ids| => ProcLine(c, base, ids[i]))
      case ProcName => var ids := Pids(w); seq(|ids|, i requires 0 <= i < |ids| => NameLine(w, c, base, ids[i]))
      case Thread =>
        var ids := w.procs[v.id.pid].threads.value; seq(|ids|, i requires 0 <= i < |ids| => ThreadLine(c, base, v.id.pid, ids[i]))
      case Fd => var ids := w.procs[v.id.pid].fds; seq(|ids|, i requires 0 <= i < |ids| => FdLine(c, base, v.id.pid, ids[i]))
      case _ => [PlainLine(nodes, v, c)]
  }

  /** How readdir meets child `c`. */
  function ShownAs(nodes: seq<Snode>, w: World, v: Pfsnode, c: nat): R.Child
    requires c < |nodes| && v.snode < |nodes|
  {
    var k := nodes[c].kind;
    if Lost(w, v, k) then R.Gone
    else if k.Proc? || k.ProcName? then R.Procs(Entries(LinesOf(nodes, w, v, c)))
    else if k.Thread? || k.Fd? then R.Subs(Entries(LinesOf(nodes, w, v, c)))
    else R.Leaf(PlainLine(nodes, v, c).entry)
  }

  /** The kids of a directory are nodes. */
  ghost predicate KidsAreNodes(nodes: seq<Snode>, v: Pfsnode) {
    v.snode < |nodes| && forall a :: 0 <= a < |nodes[v.snode].kids| ==> nodes[v.snode].kids[a] < |nodes|
  }

  function Children(nodes: seq<Snode>, w: World, v: Pfsnode): (cs: seq<R.Child>)
    requires KidsAreNodes(nodes, v)
    ensures |cs| == |nodes[v.snode].kids|
    ensures forall a :: 0 <= a < |cs| ==> cs[a] == ShownAs(nodes, w, v, nodes[v.snode].kids[a])
  {
    var kids := nodes[v.snode].kids;
    seq(|kids|, a requires 0 <= a < |kids| => ShownAs(nodes, w, v, kids[a]))
  }

  predicate Allowed(w: World, v: Pfsnode) {
    v.id.pid == NO_PID || !w.check || Visible(w, v.id.pid)
  }

  // ---------- the listing is the children's lines ----------

  lemma {:induction false} FromChild(cs: seq<R.Child>, e: R.Entry) returns (i: nat)
    requires e in R.Listing(cs)
    ensures i < |cs| && (cs[i] == R.Leaf(e) || ((cs[i].Procs? || cs[i].Subs?) && e in cs[i].entries))
  {
    if cs[0].Leaf? && cs[0].entry != e {
      var j := FromChild(cs[1..], e);
      i := j + 1;
    } else {
      i := 0;
    }
  }

  /** With only the last child dynamic, every child's entries are listed. */
  lemma {:induction false} IntoListing(cs: seq<R.Child>, i: nat, e: R.Entry)
    requires i < |cs| && forall j :: 0 <= j < |cs| - 1 ==> cs[j].Leaf?
    requires cs[i] == R.Leaf(e) || ((cs[i].Procs? || cs[i].Subs?) && e in cs[i].entries)
    ensures e in R.Listing(cs)
  {
    if i > 0 { IntoListing(cs[1..], i - 1, e); }
  }

  lemma {:induction false} LineIn(lines: seq<Line>, e: R.Entry) returns (l: Line)
    requires e in Entries(lines)
    ensures l in lines && l.entry == e
  {
    var i :| 0 <= i < |lines| && Entries(lines)[i] == e;
    l := lines[i];
  }

  /** Every listed entry is a line of some child. */
  lemma ListedIsLine(nodes: seq<Snode>, w: World, v: Pfsnode, e: R.Entry) returns (a: nat, l: Line)
    requires KidsAreNodes(nodes, v) && e in R.Listing(Children(nodes, w, v))
    ensures a < |nodes[v.snode].kids| && l in LinesOf(nodes, w, v, nodes[v.snode].kids[a]) && l.entry == e
  {
    a := FromChild(Children(nodes, w, v), e);
    var c := nodes[v.snode].kids[a];
    if Dynamic(nodes[c].kind) { l := LineIn(LinesOf(nodes, w, v, c), e); } else { l := PlainLine(nodes, v, c); }
  }

  /** Every child's lines are listed. */
  lemma LineIsListed(nodes: seq<Snode>, w: World, v: Pfsnode, a: nat, l: Line)
    requires KidsAreNodes(nodes, v) && Siblings(nodes, nodes[v.snode].kids)
    requires a < |nodes[v.snode].kids| && l in LinesOf(nodes, w, v, nodes[v.snode].kids[a])
    ensures l.entry in R.Listing(Children(nodes, w, v))
  {
    var cs, c := Children(nodes, w, v), nodes[v.snode].kids[a];
    assert cs[a] == ShownAs(nodes, w, v, c);
    if Dynamic(nodes[c].kind) {
      var lines := LinesOf(nodes, w, v, c);
      var i :| 0 <= i < |lines| && lines[i] == l;
      assert Entries(lines)[i] == l.entry;
    }
    IntoListing(cs, a, l.entry);
  }

  // ---------- reaching a child ----------

  /** Names that no earlier child bears, and earlier children that are plain, lead the scan to child `a`. */
  lemma {:induction false} ScanSkips(nodes: seq<Snode>, w: World, v: Pfsnode, kids: seq<nat>, name: string, a: nat)
    requires forall b :: 0 <= b < |kids| ==> kids[b] < |nodes|
    requires a <= |kids|
    requires forall b :: 0 <= b < a ==> nodes[kids[b]].name != name && !Dynamic(nodes[kids[b]].kind)
    ensures Scan(nodes, w, v, kids, name) == Scan(nodes, w, v, kids[a..], name)
  {
    if a > 0 {
      ScanSkips(nodes, w, v, kids[1..], name, a - 1);
      assert kids[1..][a - 1..] == kids[a..];
    }
  }

  lemma ChildNames(nodes: seq<Snode>, v: Pfsnode, b: nat)
    requires Tree(nodes) && v.snode < |nodes| && b < |nodes[v.snode].kids|
    ensures var c := nodes[v.snode].kids[b];
            c < |nodes| && FitsBelow(nodes[v.snode], nodes[c].kind, nodes[c].process, nodes[c].thread) && GoodName(nodes[c].kind, nodes[c].name)
  {
    assert LinkedDown(nodes, v.snode);
    assert ShapedAt(nodes, nodes[v.snode].kids[b]);
  }

  /** A name that starts with a digit is matched by the dynamic child. */
  lemma NumberReachesDynamic(nodes: seq<Snode>, w: World, v: Pfsnode, a: nat, name: string)
    requires Tree(nodes) && v.snode < |nodes| && a < |nodes[v.snode].kids|
    requires name != "" && IsDigit(name[0]) && Directory(nodes[v.snode].kind)
    ensures forall b :: 0 <= b < |nodes[v.snode].kids| ==> nodes[v.snode].kids[b] < |nodes|
    ensures name != nodes[nodes[v.snode].kids[a]].name
    ensures Find(nodes, w, v, name) == Scan(nodes, w, v, nodes[v.snode].kids[a..], name)
  {
    var kids := nodes[v.snode].kids;
    forall b | 0 <= b < |kids| ensures kids[b] < |nodes| && name != nodes[kids[b]].name { ChildNames(nodes, v, b); }
    assert Siblings(nodes, kids);
    ScanSkips(nodes, w, v, kids, name, a);
  }

  // ---------- each kind of line ----------

  /** A directory of the static tree and its child number `a`. */
  ghost predicate DirAt(nodes: seq<Snode>, v: Pfsnode, a: nat) {
    && Tree(nodes) && Sound(nodes, v) && Directory(nodes[v.snode].kind)
    && a < |nodes[v.snode].kids| && nodes[v.snode].kids[a] < |nodes|
  }

  lemma PlainIsFound(nodes: seq<Snode>, w: World, v: Pfsnode, a: nat)
    requires DirAt(nodes, v, a) && !Dynamic(nodes[nodes[v.snode].kids[a]].kind)
    ensures var l := PlainLine(nodes, v, nodes[v.snode].kids[a]);
            && Find(nodes, w, v, l.entry.name) == Some(l.node)
            && l.node.snode < |nodes| && NodeFileId(nodes, l.node) == l.entry.ino
  {
    var kids := nodes[v.snode].kids;
    var c := kids[a];
    ChildNames(nodes, v, a);
    assert Siblings(nodes, kids);
    if nodes[c].kind.Parent? {
      assert LinkedUp(nodes, v.snode);
    } else if !nodes[c].kind.This? {
      ScanSkips(nodes, w, v, kids, nodes[c].name, a);
      assert kids[a..][0] == c;
    }
  }

  /** The directories of processes and of threads carry no object. */
  lemma DirectoryHasNoObject(nodes: seq<Snode>, v: Pfsnode, a: nat)
    requires DirAt(nodes, v, a)
    requires var k := nodes[nodes[v.snode].kids[a]].kind; k.Proc? || k.ProcName? || k.Thread?
    ensures v.id.obj == NO_OBJECT
  {
    ChildNames(nodes, v, a);
    assert ShapedAt(nodes, v.snode);
  }

  /** The decimal name of a pid is found exactly when the process is there and accessible. */
  lemma ProcIsFound(nodes: seq<Snode>, w: World, v: Pfsnode, a: nat, pid: nat)
    requires DirAt(nodes, v, a) && nodes[nodes[v.snode].kids[a]].kind.Proc? && pid <= MAX_PID
    ensures var c := nodes[v.snode].kids[a];
            Find(nodes, w, v, Decimal(pid)) ==
              if Visible(w, pid) then Some(Pfsnode(c, PfsId(pid, NO_OBJECT, nodes[c].base))) else None
  {
    DecimalReadsBack(pid);
    WrapSmall(pid);
    NumberReachesDynamic(nodes, w, v, a, Decimal(pid));
    DirectoryHasNoObject(nodes, v, a);
    assert nodes[v.snode].kids[a..][0] == nodes[v.snode].kids[a];
  }

  lemma ProcNameIsFound(nodes: seq<Snode>, w: World, v: Pfsnode, a: nat, pid: nat)
    requires DirAt(nodes, v, a) && nodes[nodes[v.snode].kids[a]].kind.ProcName? && pid <= MAX_PID && Visible(w, pid)
    ensures var c := nodes[v.snode].kids[a];
            Find(nodes, w, v, ProcDirName(pid, w.procs[pid])) == Some(Pfsnode(c, PfsId(pid, NO_OBJECT, nodes[c].base)))
  {
    var rest := " " + w.procs[pid].comm;
    var name := ProcDirName(pid, w.procs[pid]);
    assert name == Decimal(pid) + rest;
    DecimalReadsBack(pid);
    DecimalPrefix(pid, rest);
    WrapSmall(pid);
    assert name[0] == Decimal(pid)[0];
    NumberReachesDynamic(nodes, w, v, a, name);
    DirectoryHasNoObject(nodes, v, a);
    assert nodes[v.snode].kids[a..][0] == nodes[v.snode].kids[a];
  }

  lemma DynamicIsLast(nodes: seq<Snode>, v: Pfsnode, a: nat)
    requires DirAt(nodes, v, a) && Dynamic(nodes[nodes[v.snode].kids[a]].kind)
    ensures a == |nodes[v.snode].kids| - 1
  {
    assert Siblings(nodes, nodes[v.snode].kids);
  }

  /** What a numeral looks up to among threads. */
  lemma ThreadMatch(nodes: seq<Snode>, w: World, v: Pfsnode, a: nat, n: nat)
    requires DirAt(nodes, v, a) && nodes[nodes[v.snode].kids[a]].kind.Thread?
    ensures var c := nodes[v.snode].kids[a];
            Find(nodes, w, v, Decimal(n)) ==
              if Wrap(n) == -1 then None else NumberMatch(nodes, w, v, c, Decimal(n), Wrap(n))
  {
    DecimalReadsBack(n);
    DynamicIsLast(nodes, v, a);
    NumberReachesDynamic(nodes, w, v, a, Decimal(n));
    assert nodes[v.snode].kids[a..] == [nodes[v.snode].kids[a]];
  }

  /** Below 2^63 a thread's id survives the 32-bit parse exactly when it is below 2^31. */
  lemma ObjectRoundTrip(tid: nat)
    requires tid < 0x8000_0000_0000_0000
    ensures Wrap(tid) != -1 && ObjectOf(Wrap(tid)) == tid <==> tid < 0x8000_0000
  {
    WrapRange(tid);
    ObjectOfSmall(Wrap(tid));
    if tid < 0x8000_0000 { WrapSmall(tid); }
  }

  lemma ObjectOfSmall(id: int)
    requires -0x8000_0000 <= id < 0x8000_0000
    ensures ObjectOf(id) == if id >= 0 then id else id + 0x1_0000_0000_0000_0000
  {
  }

  /** A name without a leading digit is matched literally or not at all. */
  lemma {:induction false} LiteralKeepsId(nodes: seq<Snode>, w: World, v: Pfsnode, kids: seq<nat>, name: string)
    requires (forall b :: 0 <= b < |kids| ==> kids[b] < |nodes|) && Digits(name) == 0
    ensures var r := Scan(nodes, w, v, kids, name);
            r.Some? ==> r.value.id.pid == v.id.pid && r.value.id.obj == v.id.obj && exists b :: 0 <= b < |kids| && nodes[kids[b]].name == name
    ensures (exists b :: 0 <= b < |kids| && nodes[kids[b]].name == name) && (forall b :: 0 <= b < |kids| - 1 ==> !Dynamic(nodes[kids[b]].kind)) ==>
              Scan(nodes, w, v, kids, name).Some?
  {
    if kids != [] && nodes[kids[0]].name != name {
      LiteralKeepsId(nodes, w, v, kids[1..], name);
      assert forall b :: 0 < b < |kids| ==> kids[b] == kids[1..][b - 1];
    }
  }

  /** A thread is found under the name it is listed with exactly when its id is below 2^31. */
  lemma ThreadIsFound(nodes: seq<Snode>, w: World, v: Pfsnode, a: nat, tid: Tid)
    requires DirAt(nodes, v, a) && nodes[nodes[v.snode].kids[a]].kind.Thread?
    requires Visible(w, v.id.pid) && w.procs[v.id.pid].threads.Some? && tid in w.procs[v.id.pid].threads.value
    ensures var c := nodes[v.snode].kids[a];
            Find(nodes, w, v, LongName(tid)) == Some(Pfsnode(c, PfsId(v.id.pid, tid, nodes[c].base))) <==> tid < 0x8000_0000
  {
    if tid < 0x8000_0000_0000_0000 {
      ThreadMatch(nodes, w, v, a, tid);
      ObjectRoundTrip(tid);
    } else {
      var name := LongName(tid);
      assert name[0] == '-';
      DirectoryHasNoObject(nodes, v, a);
      assert Siblings(nodes, nodes[v.snode].kids);
      LiteralKeepsId(nodes, w, v, nodes[v.snode].kids, name);
    }
  }

  /** The names of threads with ids of 2^63 or more start with a minus sign, and look up to nothing at all. */
  lemma NegativeNameIsLost(nodes: seq<Snode>, w: World, v: Pfsnode, a: nat, tid: Tid)
    requires DirAt(nodes, v, a) && nodes[nodes[v.snode].kids[a]].kind.Thread? && tid >= 0x8000_0000_0000_0000
    ensures LongName(tid)[0] == '-' && Find(nodes, w, v, LongName(tid)) == None
  {
    var name, kids := LongName(tid), nodes[v.snode].kids;
    assert name[0] == '-';
    assert Siblings(nodes, kids);
    LiteralKeepsId(nodes, w, v, kids, name);
    forall b | 0 <= b < |kids| ensures nodes[kids[b]].name != name { ChildNames(nodes, v, b); }
  }

  /** One that fails: thread 2^64 - 2 is listed as "-2", which looks up to nothing. */
  lemma ThreadLostAtTop(nodes: seq<Snode>, w: World, v: Pfsnode, a: nat)
    requires DirAt(nodes, v, a) && nodes[nodes[v.snode].kids[a]].kind.Thread?
    ensures LongName(0xFFFF_FFFF_FFFF_FFFE) == "-2" && Find(nodes, w, v, "-2") == None
  {
    assert Decimal(2) == "2";
    assert LongName(0xFFFF_FFFF_FFFF_FFFE) == "-2";
    NegativeNameIsLost(nodes, w, v, a, 0xFFFF_FFFF_FFFF_FFFE);
  }

  lemma FdIsFound(nodes: seq<Snode>, w: World, v: Pfsnode, a: nat, fd: Descriptor)
    requires DirAt(nodes, v, a) && nodes[nodes[v.snode].kids[a]].kind.Fd?
    requires v.id.pid in w.procs && fd in w.procs[v.id.pid].fds
    ensures var c := nodes[v.snode].kids[a];
            Find(nodes, w, v, Decimal(fd)) == Some(Pfsnode(c, PfsId(v.id.pid, fd, nodes[c].base)))
  {
    DecimalReadsBack(fd);
    WrapSmall(fd);
    NumberReachesDynamic(nodes, w, v, a, Decimal(fd));
    assert nodes[v.snode].kids[a..][0] == nodes[v.snode].kids[a];
  }

  // ---------- the whole listing ----------

  /** The line stands for a thread whose id does not survive the 32-bit parse. */
  predicate LongThread(nodes: seq<Snode>, c: nat, l: Line)
    requires c < |nodes|
  {
    nodes[c].kind.Thread? && l.node.id.obj >= 0x8000_0000
  }

  lemma ProcLineIsFound(nodes: seq<Snode>, w: World, v: Pfsnode, a: nat, l: Line)
    requires DirAt(nodes, v, a) && l in LinesOf(nodes, w, v, nodes[v.snode].kids[a])
    requires var k := nodes[nodes[v.snode].kids[a]].kind; k.Proc? || k.ProcName?
    ensures Find(nodes, w, v, l.entry.name) == Some(l.node) && l.node.snode < |nodes| && NodeFileId(nodes, l.node) == l.entry.ino
  {
    var c := nodes[v.snode].kids[a];
    var i :| 0 <= i < |Pids(w)| && LinesOf(nodes, w, v, c)[i] == l;
    var pid := Pids(w)[i];
    PidRange(w, pid);
    if nodes[c].kind.Proc? { ProcIsFound(nodes, w, v, a, pid); } else { ProcNameIsFound(nodes, w, v, a, pid); }
  }

  lemma PidRange(w: World, pid: nat)
    requires pid in Pids(w)
    ensures pid <= MAX_PID && Visible(w, pid)
  {
    SeenMembers(w, MAX_PID + 1, pid);
  }

  lemma ThreadLineIsFound(nodes: seq<Snode>, w: World, v: Pfsnode, a: nat, l: Line)
    requires DirAt(nodes, v, a) && l in LinesOf(nodes, w, v, nodes[v.snode].kids[a]) && Allowed(w, v)
    requires nodes[nodes[v.snode].kids[a]].kind.Thread?
    ensures l.node.snode < |nodes| && NodeFileId(nodes, l.node) == l.entry.ino
    ensures Find(nodes, w, v, l.entry.name) == Some(l.node) <==> !LongThread(nodes, nodes[v.snode].kids[a], l)
  {
    var c := nodes[v.snode].kids[a];
    var tids := w.procs[v.id.pid].threads.value;
    var i :| 0 <= i < |tids| && LinesOf(nodes, w, v, c)[i] == l;
    assert tids[i] in tids;
    ThreadIsFound(nodes, w, v, a, tids[i]);
  }

  lemma FdLineIsFound(nodes: seq<Snode>, w: World, v: Pfsnode, a: nat, l: Line)
    requires DirAt(nodes, v, a) && l in LinesOf(nodes, w, v, nodes[v.snode].kids[a])
    requires nodes[nodes[v.snode].kids[a]].kind.Fd?
    ensures Find(nodes, w, v, l.entry.name) == Some(l.node) && l.node.snode < |nodes| && NodeFileId(nodes, l.node) == l.entry.ino
  {
    var c := nodes[v.snode].kids[a];
    var fds := w.procs[v.id.pid].fds;
    var i :| 0 <= i < |fds| && LinesOf(nodes, w, v, c)[i] == l;
    assert fds[i] in fds;
    FdIsFound(nodes, w, v, a, fds[i]);
  }

  /** Every listed name looks up to the node it stands for, whose file id is the one listed; threads with ids of 2^31 or more do not. */
  lemma ListedIsFound(nodes: seq<Snode>, w: World, v: Pfsnode, a: nat, l: Line)
    requires DirAt(nodes, v, a) && Allowed(w, v) && l in LinesOf(nodes, w, v, nodes[v.snode].kids[a])
    ensures l.node.snode < |nodes| && NodeFileId(nodes, l.node) == l.entry.ino
    ensures Find(nodes, w, v, l.entry.name) == Some(l.node) <==> !LongThread(nodes, nodes[v.snode].kids[a], l)
  {
    var k := nodes[nodes[v.snode].kids[a]].kind;
    if k.Proc? || k.ProcName? {
      ProcLineIsFound(nodes, w, v, a, l);
    } else if k.Thread? {
      ThreadLineIsFound(nodes, w, v, a, l);
    } else if k.Fd? {
      FdLineIsFound(nodes, w, v, a, l);
    } else {
      PlainIsFound(nodes, w, v, a);
    }
  }
}
