/** The layout that the initialisation builds, node by node, and where the paths of the mounted file system lead. */
module Layout {
  import opened Options
  import opened Structure
  import opened StructureInit
  import opened Numbers
  import opened Lookup
  import opened Agreement
  import opened Paths

  // ---------- the 77 nodes ----------

  /** A directory and its two dot entries, recorded from `n` on. */
  predicate DirectoryAt(made: seq<Made>, n: nat, name: string, kind: Kind, process: bool, thread: bool, parent: Option<nat>) {
    && n + 2 < |made| && made[n] == Made(name, kind, process, thread, parent)
    && made[n + 1] == Made(".", This, process, thread, Some(n)) && made[n + 2] == Made("..", Parent, process, thread, Some(n))
  }

  /** A run of leaves below `p`, recorded from `n` on. */
  ghost predicate LeavesAt(made: seq<Made>, n: nat, names: seq<string>, kind: nat -> Kind, process: bool, thread: bool, p: nat) {
    n + |names| <= |made| && forall j :: n <= j < n + |names| ==> made[j] == Made(names[j - n], kind(j - n), process, thread, Some(p))
  }

  /** Nodes 0 to 20: the root, the by-name directory and the root's files and links. */
  ghost predicate RootPart(made: seq<Made>) {
    && DirectoryAt(made, 0, "/", Root, false, false, None)
    && DirectoryAt(made, 3, "byname", Dir, false, false, Some(0))
    && LeavesAt(made, 6, ROOT_LEAVES, RootKind, false, false, 0)
  }

  /** Nodes 21 to 26: the entries that stand for processes. */
  predicate EntryPart(made: seq<Made>) {
    && DirectoryAt(made, 21, "__Process_N__", ProcName, true, false, Some(3))
    && DirectoryAt(made, 24, "__Process__", Proc, true, false, Some(0))
  }

  /** Nodes 27 to 44: the directories of a process and the entries in them that stand for descriptors and threads. */
  predicate DirPart(made: seq<Made>) {
    && DirectoryAt(made, 27, "fd", Dir, true, false, Some(24)) && DirectoryAt(made, 30, "__File__", Fd, true, false, Some(27))
    && DirectoryAt(made, 33, "threads", Dir, true, false, Some(24)) && DirectoryAt(made, 36, "__Thread__", Thread, true, true, Some(33))
    && DirectoryAt(made, 39, "task", Dir, true, false, Some(24)) && DirectoryAt(made, 42, "__Thread__", Thread, true, true, Some(39))
  }

  /** Nodes 45 to 76: the files and links of a process, a thread, a task and a descriptor. */
  ghost predicate LeafPart(made: seq<Made>) {
    && LeavesAt(made, 45, PROC_LEAVES, ProcKind, true, false, 24)
    && LeavesAt(made, 68, THREAD_LEAVES, FileKind, true, true, 36)
    && LeavesAt(made, 69, TASK_LEAVES, FileKind, true, true, 42)
    && LeavesAt(made, 75, FD_LEAVES, FileKind, true, false, 30)
  }

  /** The whole layout. */
  ghost predicate Layout(made: seq<Made>) {
    |made| == NODES && RootPart(made) && EntryPart(made) && DirPart(made) && LeafPart(made)
  }

  lemma {:induction false} LeavesAdded(made: seq<Made>, p: nat, names: seq<string>, kind: nat -> Kind, process: bool, thread: bool)
    ensures var r := WithLeaves(made, p, names, kind, process, thread);
            |r| == |made| + |names| && made <= r && LeavesAt(r, |made|, names, kind, process, thread, p)
    decreases |names|
  {
    if names != [] { LeavesAdded(made, p, names[..|names| - 1], kind, process, thread); }
  }

  lemma DirectoryAdded(made: seq<Made>, p: nat, name: string, kind: Kind, process: bool, thread: bool)
    ensures var r := WithDirectory(made, p, name, kind, process, thread);
            |r| == |made| + 3 && made <= r && DirectoryAt(r, |made|, name, kind, process, thread, Some(p))
  {
  }

  lemma DirectoryStays(a: seq<Made>, b: seq<Made>, n: nat, name: string, kind: Kind, process: bool, thread: bool, parent: Option<nat>)
    requires a <= b && DirectoryAt(a, n, name, kind, process, thread, parent)
    ensures DirectoryAt(b, n, name, kind, process, thread, parent)
  {
    assert b[n] == a[n] && b[n + 1] == a[n + 1] && b[n + 2] == a[n + 2];
  }

  lemma LeavesStay(a: seq<Made>, b: seq<Made>, n: nat, names: seq<string>, kind: nat -> Kind, process: bool, thread: bool, p: nat)
    requires a <= b && LeavesAt(a, n, names, kind, process, thread, p)
    ensures LeavesAt(b, n, names, kind, process, thread, p)
  {
  }

  lemma RootRecorded()
    ensures |RootRecords()| == 21 && RootPart(RootRecords())
  {
    var m := WithDirectory(ROOT_MADE, 0, "byname", Dir, false, false);
    DirectoryAdded(ROOT_MADE, 0, "byname", Dir, false, false);
    LeavesAdded(m, 0, ROOT_LEAVES, RootKind, false, false);
    assert DirectoryAt(ROOT_MADE, 0, "/", Root, false, false, None);
    DirectoryStays(ROOT_MADE, m, 0, "/", Root, false, false, None);
    DirectoryStays(m, RootRecords(), 0, "/", Root, false, false, None);
    DirectoryStays(m, RootRecords(), 3, "byname", Dir, false, false, Some(0));
  }

  lemma EntriesRecorded(made: seq<Made>)
    requires |made| == 21
    ensures var r := EntryRecords(made); |r| == 27 && made <= r && EntryPart(r)
  {
    var m := WithDirectory(made, 3, "__Process_N__", ProcName, true, false);
    DirectoryAdded(made, 3, "__Process_N__", ProcName, true, false);
    DirectoryAdded(m, 0, "__Process__", Proc, true, false);
    DirectoryStays(m, EntryRecords(made), 21, "__Process_N__", ProcName, true, false, Some(3));
  }

  lemma HolderRecorded(made: seq<Made>, p: nat, name: string, entry: string, kind: Kind, thread: bool)
    ensures var r, n := WithHolder(made, p, name, entry, kind, thread), |made|;
            |r| == n + 6 && made <= r && DirectoryAt(r, n, name, Dir, true, false, Some(p)) && DirectoryAt(r, n + 3, entry, kind, true, thread, Some(n))
  {
    var m, r := WithDirectory(made, p, name, Dir, true, false), WithHolder(made, p, name, entry, kind, thread);
    DirectoryAdded(made, p, name, Dir, true, false);
    DirectoryAdded(m, |made|, entry, kind, true, thread);
    DirectoryStays(m, r, |made|, name, Dir, true, false, Some(p));
  }

  lemma DirsRecorded(made: seq<Made>)
    requires |made| == 27
    ensures var r := DirRecords(made); |r| == 45 && made <= r && DirPart(r)
  {
    var a := WithHolder(made, 24, "fd", "__File__", Fd, false);
    var b := WithHolder(a, 24, "threads", "__Thread__", Thread, true);
    var r := WithHolder(b, 24, "task", "__Thread__", Thread, true);
    HolderRecorded(made, 24, "fd", "__File__", Fd, false);
    HolderRecorded(a, 24, "threads", "__Thread__", Thread, true);
    HolderRecorded(b, 24, "task", "__Thread__", Thread, true);
    assert a <= r && made <= r;
    DirectoryStays(a, r, 27, "fd", Dir, true, false, Some(24));
    DirectoryStays(a, r, 30, "__File__", Fd, true, false, Some(27));
    DirectoryStays(b, r, 33, "threads", Dir, true, false, Some(24));
    DirectoryStays(b, r, 36, "__Thread__", Thread, true, true, Some(33));
  }

  lemma LeavesRecorded(made: seq<Made>)
    requires |made| == 45
    ensures var r := LeafRecords(made); |r| == NODES && made <= r && LeafPart(r)
  {
    var a := WithLeaves(made, 24, PROC_LEAVES, ProcKind, true, false);
    var b := WithLeaves(a, 36, THREAD_LEAVES, FileKind, true, true);
    var c := WithLeaves(b, 42, TASK_LEAVES, FileKind, true, true);
    var r := WithLeaves(c, 30, FD_LEAVES, FileKind, true, false);
    LeavesAdded(made, 24, PROC_LEAVES, ProcKind, true, false);
    LeavesAdded(a, 36, THREAD_LEAVES, FileKind, true, true);
    LeavesAdded(b, 42, TASK_LEAVES, FileKind, true, true);
    LeavesAdded(c, 30, FD_LEAVES, FileKind, true, false);
    assert |a| == 68 && |b| == 69 && |c| == 75;
    assert a <= r && b <= r && made <= r;
    LeavesStay(a, r, 45, PROC_LEAVES, ProcKind, true, false, 24);
    LeavesStay(b, r, 68, THREAD_LEAVES, FileKind, true, true, 36);
    LeavesStay(c, r, 69, TASK_LEAVES, FileKind, true, true, 42);
  }

  lemma RootPartStays(a: seq<Made>, b: seq<Made>)
    requires a <= b && RootPart(a)
    ensures RootPart(b)
  {
    DirectoryStays(a, b, 0, "/", Root, false, false, None);
    DirectoryStays(a, b, 3, "byname", Dir, false, false, Some(0));
    LeavesStay(a, b, 6, ROOT_LEAVES, RootKind, false, false, 0);
  }

  lemma EntryPartStays(a: seq<Made>, b: seq<Made>)
    requires a <= b && EntryPart(a)
    ensures EntryPart(b)
  {
    DirectoryStays(a, b, 21, "__Process_N__", ProcName, true, false, Some(3));
    DirectoryStays(a, b, 24, "__Process__", Proc, true, false, Some(0));
  }

  lemma DirPartStays(a: seq<Made>, b: seq<Made>)
    requires a <= b && DirPart(a)
    ensures DirPart(b)
  {
    DirectoryStays(a, b, 27, "fd", Dir, true, false, Some(24));
    DirectoryStays(a, b, 30, "__File__", Fd, true, false, Some(27));
    DirectoryStays(a, b, 33, "threads", Dir, true, false, Some(24));
    DirectoryStays(a, b, 36, "__Thread__", Thread, true, true, Some(33));
    DirectoryStays(a, b, 39, "task", Dir, true, false, Some(24));
    DirectoryStays(a, b, 42, "__Thread__", Thread, true, true, Some(39));
  }

  lemma Prefixes(a: seq<Made>, b: seq<Made>, c: seq<Made>)
    requires a <= b <= c
    ensures a <= c
  {
  }

  /** What the initialisation builds is the layout, with every node at its place. */
  lemma InitBuildsLayout(nodes: seq<Snode>)
    requires AllMade(nodes) == BuildRecords()
    ensures Layout(AllMade(nodes))
  {
    var a := RootRecords();
    var b := EntryRecords(a);
    var c := DirRecords(b);
    var d := LeafRecords(c);
    RootRecorded();
    EntriesRecorded(a);
    DirsRecorded(b);
    LeavesRecorded(c);
    Prefixes(b, c, d);
    Prefixes(a, b, d);
    RootPartStays(a, d);
    EntryPartStays(b, d);
    DirPartStays(c, d);
  }

  /** Which of the root's and of a process's leaves are something else than files that print text. */
  lemma LeafKinds(i: nat)
    ensures i < |ROOT_LEAVES| ==>
              RootKind(i) == if ROOT_LEAVES[i] == "sys" then Sysctl else if ROOT_LEAVES[i] in {"curproc", "self"} then CurProc else Text
    ensures i < |PROC_LEAVES| ==> ProcKind(i) == if PROC_LEAVES[i] in {"exe", "cwd", "root"} then ProcLink else File
  {
    RootKinds(i);
    ProcKinds(i);
  }

  lemma RootKinds(i: nat)
    ensures i < |ROOT_LEAVES| ==>
              RootKind(i) == if ROOT_LEAVES[i] == "sys" then Sysctl else if ROOT_LEAVES[i] in {"curproc", "self"} then CurProc else Text
  {
    if i < |ROOT_LEAVES| {
      RootNamesDistinct();
      assert ROOT_LEAVES[13] == "sys" && ROOT_LEAVES[1] == "curproc" && ROOT_LEAVES[14] == "self";
      assert i < 13 ==> ROOT_LEAVES[i] != ROOT_LEAVES[13];
    }
  }

  lemma ProcKinds(i: nat)
    ensures i < |PROC_LEAVES| ==> ProcKind(i) == if PROC_LEAVES[i] in {"exe", "cwd", "root"} then ProcLink else File
  {
    if i < |PROC_LEAVES| {
      ProcTable();
      assert PROC_LEAVES[13] == PROC_LINUX[0] && PROC_LEAVES[14] == PROC_LINUX[1] && PROC_LEAVES[15] == PROC_LINUX[2];
      assert Distinct(PROC_LEAVES);
      forall k | 13 <= k < 16 && k != i ensures PROC_LEAVES[k] != PROC_LEAVES[i] {
        if k < i { assert PROC_LEAVES[k] != PROC_LEAVES[i]; } else { assert PROC_LEAVES[i] != PROC_LEAVES[k]; }
      }
    }
  }

  // ---------- where paths lead ----------

  lemma PathStep(nodes: seq<Snode>, w: World, v: Pfsnode, name: string, rest: seq<string>, next: Pfsnode)
    requires Tree(nodes) && v.snode < |nodes| && Find(nodes, w, v, name) == Some(next) && next.snode < |nodes|
    ensures FindPath(nodes, w, v, [name] + rest) == FindPath(nodes, w, next, rest)
  {
    assert ([name] + rest)[1..] == rest;
  }

  lemma KidOf(nodes: seq<Snode>, i: nat) returns (a: nat)
    requires Tree(nodes) && 0 < i < |nodes|
    ensures nodes[i].parent.Some? && nodes[i].parent.value < |nodes|
    ensures var kids := nodes[nodes[i].parent.value].kids; a < |kids| && kids[a] == i
  {
    assert LinkedUp(nodes, i);
    var kids := nodes[nodes[i].parent.value].kids;
    a :| 0 <= a < |kids| && kids[a] == i;
  }

  /** A plain child is found under its name, with the directory's process and object. */
  lemma NamedChild(nodes: seq<Snode>, w: World, v: Pfsnode, i: nat)
    requires Tree(nodes) && Sound(nodes, v) && Directory(nodes[v.snode].kind) && 0 < i < |nodes| && nodes[i].parent == Some(v.snode)
    requires var k := nodes[i].kind; !Dynamic(k) && !k.This? && !k.Parent?
    ensures Find(nodes, w, v, nodes[i].name) == Some(Pfsnode(i, PfsId(v.id.pid, v.id.obj, nodes[i].base)))
    ensures Sound(nodes, Pfsnode(i, PfsId(v.id.pid, v.id.obj, nodes[i].base)))
  {
    var a := KidOf(nodes, i);
    PlainIsFound(nodes, w, v, a);
    ChildIsSound(nodes, v, a, None);
  }

  lemma NamedPath(nodes: seq<Snode>, w: World, v: Pfsnode, i: nat, name: string)
    requires Tree(nodes) && Sound(nodes, v) && Directory(nodes[v.snode].kind) && 0 < i < |nodes| && nodes[i].parent == Some(v.snode)
    requires var k := nodes[i].kind; !Dynamic(k) && !k.This? && !k.Parent?
    requires name == nodes[i].name
    ensures FindPath(nodes, w, v, [name]) == Some(Pfsnode(i, PfsId(v.id.pid, v.id.obj, nodes[i].base)))
  {
    NamedChild(nodes, w, v, i);
    PathStep(nodes, w, v, name, [], Pfsnode(i, PfsId(v.id.pid, v.id.obj, nodes[i].base)));
    assert [name] + [] == [name];
  }

  /** Node `i` of the layout. */
  predicate Is(nodes: seq<Snode>, i: nat, name: string, kind: Kind, parent: nat) {
    0 < i < |nodes| && nodes[i].name == name && nodes[i].kind == kind && nodes[i].parent == Some(parent)
  }

  lemma NodeAt(nodes: seq<Snode>, i: nat, m: Made)
    requires 0 < i < |nodes| && AllMade(nodes)[i] == m && m.parent.Some?
    ensures Is(nodes, i, m.name, m.kind, m.parent.value)
  {
    assert AllMade(nodes)[i] == MadeOf(nodes[i]);
  }

  lemma RootLeaf(nodes: seq<Snode>, i: nat, name: string)
    requires AllMade(nodes) == BuildRecords() && i < |ROOT_LEAVES| && name == ROOT_LEAVES[i]
    ensures |nodes| == NODES && Is(nodes, 6 + i, name, RootKind(i), 0)
  {
    InitBuildsLayout(nodes);
    NodeAt(nodes, 6 + i, Made(ROOT_LEAVES[i], RootKind(i), false, false, Some(0)));
  }

  lemma ProcLeaf(nodes: seq<Snode>, i: nat, name: string)
    requires AllMade(nodes) == BuildRecords() && i < |PROC_LEAVES| && name == PROC_LEAVES[i]
    ensures |nodes| == NODES && Is(nodes, 45 + i, name, ProcKind(i), 24)
  {
    InitBuildsLayout(nodes);
    NodeAt(nodes, 45 + i, Made(PROC_LEAVES[i], ProcKind(i), true, false, Some(24)));
  }

  lemma Entries(nodes: seq<Snode>)
    requires AllMade(nodes) == BuildRecords()
    ensures |nodes| == NODES && Is(nodes, 24, "__Process__", Proc, 0) && Is(nodes, 27, "fd", Dir, 24) && Is(nodes, 30, "__File__", Fd, 27)
    ensures Is(nodes, 39, "task", Dir, 24) && Is(nodes, 42, "__Thread__", Thread, 39)
  {
    InitBuildsLayout(nodes);
    NodeAt(nodes, 24, Made("__Process__", Proc, true, false, Some(0)));
    NodeAt(nodes, 27, Made("fd", Dir, true, false, Some(24)));
    NodeAt(nodes, 30, Made("__File__", Fd, true, false, Some(27)));
    NodeAt(nodes, 39, Made("task", Dir, true, false, Some(24)));
    NodeAt(nodes, 42, Made("__Thread__", Thread, true, true, Some(39)));
  }

  lemma RootOf(nodes: seq<Snode>)
    requires Tree(nodes) && nodes != []
    ensures nodes[0].kind.Root? && Sound(nodes, RootNode(nodes))
  {
    assert LinkedUp(nodes, 0);
    assert ShapedAt(nodes, 0);
    RootIsSound(nodes);
  }

  lemma RootChildPath(nodes: seq<Snode>, w: World, n: nat, name: string, kind: Kind)
    requires Tree(nodes) && Is(nodes, n, name, kind, 0) && Leaf(kind)
    ensures FindPath(nodes, w, RootNode(nodes), [name]) == Some(Pfsnode(n, PfsId(NO_PID, NO_OBJECT, nodes[n].base)))
  {
    RootOf(nodes);
    NamedPath(nodes, w, RootNode(nodes), n, name);
  }

  /** Every leaf of the root is found under its name. */
  lemma RootPath(nodes: seq<Snode>, w: World, i: nat, name: string)
    requires Tree(nodes) && AllMade(nodes) == BuildRecords() && i < |ROOT_LEAVES| && name == ROOT_LEAVES[i]
    ensures |nodes| == NODES && nodes[6 + i].kind == RootKind(i)
    ensures FindPath(nodes, w, RootNode(nodes), [name]) == Some(Pfsnode(6 + i, PfsId(NO_PID, NO_OBJECT, nodes[6 + i].base)))
  {
    RootLeaf(nodes, i, name);
    RootChildPath(nodes, w, 6 + i, name, RootKind(i));
  }

  /** "sys" is the sysctl node, directly below the root. */
  lemma SysPath(nodes: seq<Snode>, w: World)
    requires Tree(nodes) && AllMade(nodes) == BuildRecords()
    ensures |nodes| == NODES && nodes[19].kind.Sysctl? && nodes[19].parent == Some(0)
    ensures FindPath(nodes, w, RootNode(nodes), ["sys"]) == Some(Pfsnode(19, PfsId(NO_PID, NO_OBJECT, nodes[19].base)))
  {
    assert ROOT_LEAVES[13] == "sys";
    RootLeaf(nodes, 13, "sys");
    RootChildPath(nodes, w, 19, "sys", Sysctl);
  }

  /** The directory of a process. */
  function ProcNode(nodes: seq<Snode>, pid: nat): Pfsnode
    requires 24 < |nodes|
  {
    Pfsnode(24, PfsId(pid, NO_OBJECT, nodes[24].base))
  }

  /** A visible process's number leads from the root to its directory. */
  lemma ProcPath(nodes: seq<Snode>, w: World, pid: Pid, rest: seq<string>)
    requires Tree(nodes) && Is(nodes, 24, "__Process__", Proc, 0) && Visible(w, pid)
    ensures Sound(nodes, ProcNode(nodes, pid))
    ensures FindPath(nodes, w, RootNode(nodes), [Decimal(pid)] + rest) == FindPath(nodes, w, ProcNode(nodes, pid), rest)
  {
    RootOf(nodes);
    var a := KidOf(nodes, 24);
    ProcIsFound(nodes, w, RootNode(nodes), a, pid);
    ChildIsSound(nodes, RootNode(nodes), a, Some(pid));
    PathStep(nodes, w, RootNode(nodes), Decimal(pid), rest, ProcNode(nodes, pid));
  }

  lemma ProcChildPath(nodes: seq<Snode>, w: World, pid: Pid, n: nat, name: string, kind: Kind)
    requires Tree(nodes) && Is(nodes, 24, "__Process__", Proc, 0) && Visible(w, pid)
    requires Is(nodes, n, name, kind, 24) && Leaf(kind)
    ensures FindPath(nodes, w, RootNode(nodes), [Decimal(pid)] + [name]) == Some(Pfsnode(n, PfsId(pid, NO_OBJECT, nodes[n].base)))
  {
    ProcPath(nodes, w, pid, [name]);
    NamedPath(nodes, w, ProcNode(nodes, pid), n, name);
  }

  /** The files and links of a process: /proc/7/status is the status file, of process 7. */
  lemma ProcFilePath(nodes: seq<Snode>, w: World, pid: Pid, i: nat, name: string)
    requires Tree(nodes) && AllMade(nodes) == BuildRecords() && Visible(w, pid) && i < |PROC_LEAVES| && name == PROC_LEAVES[i]
    ensures |nodes| == NODES && nodes[45 + i].kind == ProcKind(i)
    ensures FindPath(nodes, w, RootNode(nodes), [Decimal(pid)] + [name]) == Some(Pfsnode(45 + i, PfsId(pid, NO_OBJECT, nodes[45 + i].base)))
  {
    Entries(nodes);
    ProcLeaf(nodes, i, name);
    ProcChildPath(nodes, w, pid, 45 + i, name, ProcKind(i));
  }

  /** The directory `name` of a process, at node `d`. */
  lemma SubPath(nodes: seq<Snode>, w: World, pid: Pid, d: nat, name: string, rest: seq<string>)
    requires Tree(nodes) && Is(nodes, 24, "__Process__", Proc, 0) && Visible(w, pid) && Is(nodes, d, name, Dir, 24)
    ensures var v := Pfsnode(d, PfsId(pid, NO_OBJECT, nodes[d].base));
            && Sound(nodes, v)
            && FindPath(nodes, w, RootNode(nodes), [Decimal(pid)] + ([name] + rest)) == FindPath(nodes, w, v, rest)
  {
    ProcPath(nodes, w, pid, [name] + rest);
    NamedChild(nodes, w, ProcNode(nodes, pid), d);
    PathStep(nodes, w, ProcNode(nodes, pid), name, rest, Pfsnode(d, PfsId(pid, NO_OBJECT, nodes[d].base)));
  }

  lemma FdPath(nodes: seq<Snode>, w: World, v: Pfsnode, fd: Descriptor)
    requires Tree(nodes) && Sound(nodes, v) && v.snode == 27 && nodes[27].kind.Dir? && Is(nodes, 30, "__File__", Fd, 27)
    requires v.id.pid in w.procs && fd in w.procs[v.id.pid].fds
    ensures FindPath(nodes, w, v, [Decimal(fd)]) == Some(Pfsnode(30, PfsId(v.id.pid, fd, nodes[30].base)))
  {
    var a := KidOf(nodes, 30);
    FdIsFound(nodes, w, v, a, fd);
    PathStep(nodes, w, v, Decimal(fd), [], Pfsnode(30, PfsId(v.id.pid, fd, nodes[30].base)));
    assert [Decimal(fd)] + [] == [Decimal(fd)];
  }

  /** The open descriptors of a process: /proc/7/fd/3 is descriptor 3 of process 7. */
  lemma DescriptorPath(nodes: seq<Snode>, w: World, pid: Pid, fd: Descriptor)
    requires Tree(nodes) && AllMade(nodes) == BuildRecords() && Visible(w, pid) && fd in w.procs[pid].fds
    ensures |nodes| == NODES && nodes[30].kind.Fd?
    ensures FindPath(nodes, w, RootNode(nodes), [Decimal(pid)] + (["fd"] + [Decimal(fd)])) == Some(Pfsnode(30, PfsId(pid, fd, nodes[30].base)))
  {
    Entries(nodes);
    SubPath(nodes, w, pid, 27, "fd", [Decimal(fd)]);
    FdPath(nodes, w, Pfsnode(27, PfsId(pid, NO_OBJECT, nodes[27].base)), fd);
  }

  lemma TaskPath(nodes: seq<Snode>, w: World, v: Pfsnode, tid: Tid, rest: seq<string>)
    requires Tree(nodes) && Sound(nodes, v) && v.snode == 39 && nodes[39].kind.Dir? && Is(nodes, 42, "__Thread__", Thread, 39)
    requires Visible(w, v.id.pid) && tid < 0x8000_0000
    requires w.procs[v.id.pid].threads.Some? && tid in w.procs[v.id.pid].threads.value
    ensures var t := Pfsnode(42, PfsId(v.id.pid, tid, nodes[42].base));
            Sound(nodes, t) && FindPath(nodes, w, v, [LongName(tid)] + rest) == FindPath(nodes, w, t, rest)
  {
    var a := KidOf(nodes, 42);
    ThreadIsFound(nodes, w, v, a, tid);
    ChildIsSound(nodes, v, a, Some(tid));
    PathStep(nodes, w, v, LongName(tid), rest, Pfsnode(42, PfsId(v.id.pid, tid, nodes[42].base)));
  }

  /** The threads of a process, as long as their ids are below 2^31: /proc/7/task/9 is thread 9 of process 7. */
  lemma ThreadPath(nodes: seq<Snode>, w: World, pid: Pid, tid: Tid, rest: seq<string>)
    requires Tree(nodes) && AllMade(nodes) == BuildRecords() && Visible(w, pid) && tid < 0x8000_0000
    requires w.procs[pid].threads.Some? && tid in w.procs[pid].threads.value
    ensures |nodes| == NODES && nodes[42].kind.Thread?
    ensures var v := Pfsnode(42, PfsId(pid, tid, nodes[42].base));
            && Sound(nodes, v)
            && FindPath(nodes, w, RootNode(nodes), [Decimal(pid)] + (["task"] + ([LongName(tid)] + rest))) == FindPath(nodes, w, v, rest)
  {
    Entries(nodes);
    SubPath(nodes, w, pid, 39, "task", [LongName(tid)] + rest);
    TaskPath(nodes, w, Pfsnode(39, PfsId(pid, NO_OBJECT, nodes[39].base)), tid, rest);
  }
}
