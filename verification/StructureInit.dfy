/** Building the layout: the counter and the child lists as they are mutated, down to the tree of the mounted file system. */
module StructureInit {
  import opened Options
  import opened Structure

  /** What the building of the tree needs to know of a node: its type and flags, its children's names and the last child's type. */
  datatype Summary = Summary(kind: Kind, process: bool, thread: bool, names: set<string>, last: Option<Kind>)

  ghost function Of(nodes: seq<Snode>, i: nat): Summary
    requires i < |nodes|
  {
    var s := nodes[i];
    Summary(s.kind, s.process, s.thread, NamesIn(nodes, s.kids),
            if s.kids == [] || s.kids[|s.kids| - 1] >= |nodes| then None else Some(nodes[s.kids[|s.kids| - 1]].kind))
  }

  /** What a node is made as: its name, type, flags and parent. */
  datatype Made = Made(name: string, kind: Kind, process: bool, thread: bool, parent: Option<nat>)

  function MadeOf(s: Snode): Made { Made(s.name, s.kind, s.process, s.thread, s.parent) }

  /** The first `n` nodes are made as recorded. */
  ghost predicate Recorded(nodes: seq<Snode>, made: seq<Made>, n: nat)
    requires n <= |nodes| == |made|
  {
    n > 0 ==> Recorded(nodes, made, n - 1) && made[n - 1] == MadeOf(nodes[n - 1])
  }

  lemma {:induction false} RecordOf(nodes: seq<Snode>, made: seq<Made>, n: nat, i: nat)
    requires i < n <= |nodes| == |made| && Recorded(nodes, made, n)
    ensures made[i] == MadeOf(nodes[i])
  {
    if i < n - 1 { RecordOf(nodes, made, n - 1, i); }
  }

  /** The record of an addition below `p`. */
  function Record(up: Summary, p: nat, name: string, kind: Kind, process: bool, thread: bool): Made {
    Made(name, kind, process || up.process, thread || up.thread, Some(p))
  }

  lemma {:induction false} AdditionRecorded(nodes: seq<Snode>, made: seq<Made>, sums: seq<Summary>, p: nat, e: Entry, n: nat)
    requires |nodes| == |made| == |sums| && p < |nodes| && |e.name| < NAME_LEN && sums[p] == Of(nodes, p)
    requires Recorded(nodes, made, |nodes|) && n <= |nodes| + 1
    ensures Recorded(Added(nodes, Some(p), e), made + [Record(sums[p], p, e.name, e.kind, e.process, e.thread)], n)
    decreases n
  {
    if n > 0 {
      AdditionRecorded(nodes, made, sums, p, e, n - 1);
      if n - 1 < |nodes| { RecordOf(nodes, made, |nodes|, n - 1); }
    }
  }

  /** The 16-bit counter's increment. */
  function Next(id: nat): nat { if id == 0xFFFF then 0 else id + 1 }

  /** The counter `k` increments after `c`. */
  function Id(c: nat, k: nat): nat { if k == 0 then c else Next(Id(c, k - 1)) }

  /** The base id of the `i`-th node built from counter `c`: the root's is fixed, the others count on. */
  function BaseAt(c: nat, i: nat): nat { if i == 0 then ROOT_BASE else Id(c, i - 1) }

  /** The first `n` nodes are in place and have the ids of a build from counter `c`. */
  ghost predicate Placed(nodes: seq<Snode>, c: nat, n: nat)
    requires n <= |nodes|
  {
    n > 0 ==>
      && Placed(nodes, c, n - 1) && nodes[n - 1].base == BaseAt(c, n - 1)
      && LinkedUp(nodes, n - 1) && LinkedDown(nodes, n - 1) && ShapedAt(nodes, n - 1) && Siblings(nodes, nodes[n - 1].kids)
  }

  ghost predicate Summarised(nodes: seq<Snode>, sums: seq<Summary>, n: nat)
    requires n <= |nodes| == |sums|
  {
    n > 0 ==> Summarised(nodes, sums, n - 1) && sums[n - 1] == Of(nodes, n - 1)
  }

  /** A tree under construction, with the summaries of its nodes. */
  ghost predicate Ready(nodes: seq<Snode>, c: nat, sums: seq<Summary>) {
    nodes != [] && |nodes| == |sums| && Placed(nodes, c, |nodes|) && Summarised(nodes, sums, |nodes|)
  }

  lemma {:induction false} PlacedAt(nodes: seq<Snode>, c: nat, n: nat, i: nat)
    requires i < n <= |nodes| && Placed(nodes, c, n)
    ensures nodes[i].base == BaseAt(c, i)
    ensures LinkedUp(nodes, i) && LinkedDown(nodes, i) && ShapedAt(nodes, i) && Siblings(nodes, nodes[i].kids)
  {
    if i < n - 1 { PlacedAt(nodes, c, n - 1, i); }
  }

  lemma {:induction false} SummaryOf(nodes: seq<Snode>, sums: seq<Summary>, n: nat, i: nat)
    requires i < n <= |nodes| == |sums| && Summarised(nodes, sums, n)
    ensures sums[i] == Of(nodes, i)
  {
    if i < n - 1 { SummaryOf(nodes, sums, n - 1, i); }
  }

  lemma PlacedIsFormed(nodes: seq<Snode>, c: nat)
    requires Placed(nodes, c, |nodes|)
    ensures Formed(nodes) && forall i :: 0 <= i < |nodes| ==> nodes[i].base == BaseAt(c, i)
  {
    forall i | 0 <= i < |nodes|
      ensures nodes[i].base == BaseAt(c, i)
      ensures LinkedUp(nodes, i) && LinkedDown(nodes, i) && ShapedAt(nodes, i) && Siblings(nodes, nodes[i].kids)
    {
      PlacedAt(nodes, c, |nodes|, i);
    }
  }

  /** The conditions on a new child, seen from its parent's summary. */
  predicate Admits(up: Summary, name: string, kind: Kind, process: bool, thread: bool) {
    && |name| < NAME_LEN && name !in up.names && GoodName(kind, name)
    && (up.last.Some? ==> !Dynamic(up.last.value))
    && FitsBelow(Snode(up.kind, "", 0, up.process, up.thread, None, []), kind, process || up.process, thread || up.thread)
  }

  function Grown(up: Summary, name: string, kind: Kind): Summary {
    up.(names := up.names + {name}, last := Some(kind))
  }

  lemma AdmittedFits(nodes: seq<Snode>, p: nat, e: Entry)
    requires p < |nodes| && Siblings(nodes, nodes[p].kids)
    requires Admits(Of(nodes, p), e.name, e.kind, e.process, e.thread)
    ensures Fits(nodes, p, e)
  {
  }

  lemma OthersKeep(nodes: seq<Snode>, p: nat, e: Entry, q: nat)
    requires p < |nodes| && q < |nodes| && p != q && LinkedDown(nodes, q)
    ensures Of(Added(nodes, Some(p), e), q) == Of(nodes, q)
  {
    var after := Added(nodes, Some(p), e);
    assert after[q] == nodes[q];
    var kids := nodes[q].kids;
    assert forall a :: 0 <= a < |kids| ==> after[kids[a]].name == nodes[kids[a]].name && after[kids[a]].kind == nodes[kids[a]].kind;
    NamesSame(nodes, after, kids);
  }

  lemma ParentGrows(nodes: seq<Snode>, p: nat, e: Entry)
    requires p < |nodes| && LinkedDown(nodes, p) && |e.name| < NAME_LEN
    ensures Of(Added(nodes, Some(p), e), p) == Grown(Of(nodes, p), e.name, e.kind)
  {
    var after := Added(nodes, Some(p), e);
    var kids, more := nodes[p].kids, after[p].kids;
    assert more[..|more| - 1] == kids;
    NamesSame(nodes, after, kids);
  }

  lemma FreshNode(nodes: seq<Snode>, p: nat, e: Entry)
    requires p < |nodes|
    ensures Of(Added(nodes, Some(p), e), |nodes|)
         == Summary(e.kind, e.process || nodes[p].process, e.thread || nodes[p].thread, {}, None)
  {
  }

  lemma {:induction false} AdditionPlaced(nodes: seq<Snode>, c: nat, p: nat, e: Entry, n: nat)
    requires Placed(nodes, c, |nodes|) && p < |nodes| && Fits(nodes, p, e) && e.base == BaseAt(c, |nodes|)
    requires n <= |nodes| + 1
    ensures Placed(Added(nodes, Some(p), e), c, n)
    decreases n
  {
    if n > 0 {
      var i := n - 1;
      AdditionPlaced(nodes, c, p, e, i);
      if i < |nodes| {
        PlacedAt(nodes, c, |nodes|, i);
        AddedIsLinkedDown(nodes, p, e, i);
        AddedKeepsSiblings(nodes, p, e, i);
      }
      AddedIsLinkedUp(nodes, p, e, i);
      AddedIsShaped(nodes, p, e, i);
    }
  }

  function Fresh(up: Summary, e: Entry): Summary {
    Summary(e.kind, e.process || up.process, e.thread || up.thread, {}, None)
  }

  function SumAdded(sums: seq<Summary>, p: nat, e: Entry): seq<Summary>
    requires p < |sums|
  {
    sums[p := Grown(sums[p], e.name, e.kind)] + [Fresh(sums[p], e)]
  }

  lemma {:induction false} AdditionSummarised(nodes: seq<Snode>, sums: seq<Summary>, p: nat, e: Entry, n: nat)
    requires |nodes| == |sums| && Summarised(nodes, sums, |nodes|) && forall q :: 0 <= q < |nodes| ==> LinkedDown(nodes, q)
    requires p < |nodes| && |e.name| < NAME_LEN && n <= |nodes| + 1
    ensures Summarised(Added(nodes, Some(p), e), SumAdded(sums, p, e), n)
    decreases n
  {
    if n > 0 {
      AdditionSummarised(nodes, sums, p, e, n - 1);
      SummaryOf(nodes, sums, |nodes|, p);
      if n - 1 == |nodes| { FreshNode(nodes, p, e); }
      else if n - 1 == p { ParentGrows(nodes, p, e); }
      else {
        OthersKeep(nodes, p, e, n - 1);
        SummaryOf(nodes, sums, |nodes|, n - 1);
      }
    }
  }

  /** An admitted addition with the next id keeps the build going; the summaries change as told. */
  lemma AdditionReady(nodes: seq<Snode>, c: nat, sums: seq<Summary>, p: nat, e: Entry)
    requires Ready(nodes, c, sums) && p < |nodes| && Admits(sums[p], e.name, e.kind, e.process, e.thread)
    requires e.base == BaseAt(c, |nodes|)
    ensures Ready(Added(nodes, Some(p), e), c, SumAdded(sums, p, e))
  {
    SummaryOf(nodes, sums, |nodes|, p);
    forall q | 0 <= q < |nodes| ensures LinkedDown(nodes, q) { PlacedAt(nodes, c, |nodes|, q); }
    PlacedAt(nodes, c, |nodes|, p);
    AdmittedFits(nodes, p, e);
    AdditionPlaced(nodes, c, p, e, |nodes| + 1);
    AdditionSummarised(nodes, sums, p, e, |nodes| + 1);
  }

  /** The same with the records. */
  lemma AdditionKept(nodes: seq<Snode>, c: nat, sums: seq<Summary>, made: seq<Made>, p: nat, e: Entry, after: seq<Snode>)
    requires Ready(nodes, c, sums) && p < |nodes| && Admits(sums[p], e.name, e.kind, e.process, e.thread)
    requires e.base == BaseAt(c, |nodes|) && |made| == |nodes| && Recorded(nodes, made, |nodes|) && after == Added(nodes, Some(p), e)
    ensures Ready(after, c, SumAdded(sums, p, e)) && |after| == |nodes| + 1
    ensures Recorded(after, made + [Record(sums[p], p, e.name, e.kind, e.process, e.thread)], |after|)
  {
    AdditionReady(nodes, c, sums, p, e);
    SummaryOf(nodes, sums, |nodes|, p);
    AdditionRecorded(nodes, made, sums, p, e, |nodes| + 1);
  }

  // ---------- which builds have unique ids ----------

  const NODES: nat := 77

  lemma {:induction false} IdIs(c: nat, k: nat)
    requires c <= 0xFFFF && k <= 0xFFFF
    ensures Id(c, k) == if c + k <= 0xFFFF then c + k else c + k - 0x1_0000
  {
    if k > 0 { IdIs(c, k - 1); }
  }

  /** The ids that a build takes from counter `c` do not meet the root's. */
  predicate Apart(c: nat) { ROOT_BASE < c <= 0x1_0000 - (NODES - 2) }

  /** A build gives every node its own id exactly when the counter does not come round to the root's on the way. */
  lemma BuildIsUnique(nodes: seq<Snode>, c: nat)
    requires c <= 0xFFFF && |nodes| == NODES && forall i :: 0 <= i < |nodes| ==> nodes[i].base == BaseAt(c, i)
    ensures UniqueBases(nodes) <==> Apart(c)
  {
    forall i | 0 < i < |nodes| ensures nodes[i].base == if c + i - 1 <= 0xFFFF then c + i - 1 else c + i - 1 - 0x1_0000 {
      IdIs(c, i - 1);
    }
    if !Apart(c) {
      var k := if c <= ROOT_BASE then ROOT_BASE - c else ROOT_BASE + 0x1_0000 - c;
      assert nodes[k + 1].base == nodes[0].base;
    }
  }

  /** The counter before the `n`-th build since the extension was loaded: unmounting frees the layout and keeps the counter. */
  function CounterBefore(n: nat): nat { if n == 0 then ROOT_BASE + 1 else Id(CounterBefore(n - 1), NODES - 1) }

  lemma {:induction false} CounterAdvances(n: nat)
    requires n <= 862
    ensures CounterBefore(n) == ROOT_BASE + 1 + 76 * n
  {
    if n > 0 {
      CounterAdvances(n - 1);
      IdIs(CounterBefore(n - 1), NODES - 1);
    }
  }

  /** The first 862 builds have unique ids; the next one does not. */
  lemma LaterBuildCollides(n: nat)
    requires n <= 862
    ensures Apart(CounterBefore(n)) <==> n < 862
  {
    CounterAdvances(n);
  }

  // ---------- the layout's leaves ----------

  const ROOT_LEAVES: seq<string> := [
    "cpuinfo", "curproc", "loadavg", "meminfo", "mtab", "mounts", "stat", "vmstat", "partitions", "version", "uptime", "swaps",
    "filesystems", "sys", "self"]

  function RootKind(i: nat): Kind { if i == 1 || i == 14 then CurProc else if i == 13 then Sysctl else Text }

  const PROC_FILES: seq<string> := [
    "cmdline", "pid", "ppid", "pgid", "sid", "tty", "status", "taskinfo", "note", "limit", "mem", "map", "maps"]

  const PROC_LINUX: seq<string> := [
    "exe", "cwd", "root", "comm", "stat", "statm", "environ", "regs", "fpregs", "auxv"]

  const PROC_LEAVES: seq<string> := PROC_FILES + PROC_LINUX

  function ProcKind(i: nat): Kind { if 13 <= i < 16 then ProcLink else File }

  const THREAD_LEAVES: seq<string> := ["info"]

  const TASK_LEAVES: seq<string> := ["info", "comm", "stat", "status", "sched", "maps"]

  const FD_LEAVES: seq<string> := ["details", "socket"]

  predicate Leaf(k: Kind) { k.Text? || k.CurProc? || k.File? || k.ProcLink? || k.Sysctl? }

  predicate LeafName(name: string) { 0 < |name| < NAME_LEN && !StartsNumber(name[0]) && name != "." && name != ".." }

  ghost predicate Distinct(names: seq<string>) {
    forall i, j :: 0 <= i < j < |names| ==> names[i] != names[j]
  }

  ghost predicate Table(names: seq<string>, taken: set<string>) {
    && Distinct(names)
    && (forall i :: 0 <= i < |names| ==> LeafName(names[i]))
    && (forall i :: 0 <= i < |names| ==> names[i] !in taken)
  }

  ghost function SetOf(names: seq<string>): set<string> {
    if names == [] then {} else SetOf(names[..|names| - 1]) + {names[|names| - 1]}
  }

  lemma {:induction false} NotYet(names: seq<string>, i: nat, k: nat)
    requires k <= i < |names| && Distinct(names)
    ensures names[i] !in SetOf(names[..k])
  {
    if k > 0 {
      NotYet(names, i, k - 1);
      assert names[..k][..k - 1] == names[..k - 1];
    }
  }

  lemma FreshName(names: seq<string>, taken: set<string>, i: nat)
    requires Table(names, taken) && i < |names|
    ensures names[i] !in taken + SetOf(names[..i])
    ensures SetOf(names[..i + 1]) == SetOf(names[..i]) + {names[i]}
  {
    NotYet(names, i, i);
    assert names[..i + 1][..i] == names[..i];
  }

  /** A parent that has the first `i` leaves of a table admits the next one. */
  lemma LeafAdmitted(was: Summary, now: Summary, names: seq<string>, i: nat, kind: Kind, process: bool, thread: bool)
    requires i < |names| && Table(names, was.names)
    requires now == was.(names := was.names + SetOf(names[..i]), last := now.last)
    requires now.last.Some? && !Dynamic(now.last.value)
    requires Leaf(kind) && Holder(was.kind) && (was.kind.Fd? ==> kind.File?)
    ensures Admits(now, names[i], kind, process, thread) && !Dynamic(kind)
    ensures Grown(now, names[i], kind) == was.(names := was.names + SetOf(names[..i + 1]), last := Some(kind))
  {
    FreshName(names, was.names, i);
    assert LeafName(names[i]);
  }

  lemma DotsAdmitted(s: Summary, process: bool, thread: bool)
    requires s.names == {} && s.last == None && Holder(s.kind)
    ensures Admits(s, ".", This, process, thread) && Admits(Grown(s, ".", This), "..", Parent, process, thread)
    ensures Grown(Grown(s, ".", This), "..", Parent) == s.(names := {".", ".."}, last := Some(Parent))
  {
    assert {} + {"."} + {".."} == {".", ".."};
  }

  lemma RootTable()
    ensures Table(ROOT_LEAVES, {".", "..", "byname"})
  {
    RootNamesDistinct();
    RootNamesFresh();
  }

  lemma RootNamesDistinct()
    ensures Distinct(ROOT_LEAVES)
  {
  }

  lemma RootNamesFresh()
    ensures forall i :: 0 <= i < |ROOT_LEAVES| ==> LeafName(ROOT_LEAVES[i])
    ensures forall i :: 0 <= i < |ROOT_LEAVES| ==> ROOT_LEAVES[i] !in {".", "..", "byname"}
  {
  }

  lemma RootEntryIsFresh()
    ensures "__Process__" !in {".", "..", "byname"} + SetOf(ROOT_LEAVES)
  {
    var names := ROOT_LEAVES + ["__Process__"];
    assert Distinct(names);
    NotYet(names, |ROOT_LEAVES|, |ROOT_LEAVES|);
    assert names[..|ROOT_LEAVES|] == ROOT_LEAVES;
  }

  ghost predicate AllApart(names: seq<string>, others: seq<string>) {
    forall i, j :: 0 <= i < |names| && 0 <= j < |others| ==> names[i] != others[j]
  }

  lemma TableJoin(names: seq<string>, others: seq<string>, taken: set<string>)
    requires Table(names, taken) && Table(others, taken) && AllApart(names, others)
    ensures Table(names + others, taken)
  {
    var all := names + others;
    forall i, j | 0 <= i < j < |all| ensures all[i] != all[j] {
      if i < |names| <= j { assert names[i] != others[j - |names|]; }
    }
  }

  lemma ProcFilesDistinct()
    ensures Distinct(PROC_FILES)
  {
  }

  lemma ProcFilesFresh()
    ensures forall i :: 0 <= i < |PROC_FILES| ==> LeafName(PROC_FILES[i])
    ensures forall i :: 0 <= i < |PROC_FILES| ==> PROC_FILES[i] !in {".", "..", "fd", "threads", "task"}
  {
  }

  lemma ProcFilesTable()
    ensures Table(PROC_FILES, {".", "..", "fd", "threads", "task"})
  {
    ProcFilesDistinct();
    ProcFilesFresh();
  }

  lemma ProcLinuxDistinct()
    ensures Distinct(PROC_LINUX)
  {
  }

  lemma ProcLinuxFresh()
    ensures forall i :: 0 <= i < |PROC_LINUX| ==> LeafName(PROC_LINUX[i])
    ensures forall i :: 0 <= i < |PROC_LINUX| ==> PROC_LINUX[i] !in {".", "..", "fd", "threads", "task"}
  {
  }

  lemma ProcLinuxTable()
    ensures Table(PROC_LINUX, {".", "..", "fd", "threads", "task"})
  {
    ProcLinuxDistinct();
    ProcLinuxFresh();
  }

  lemma ProcNamesApart()
    ensures AllApart(PROC_FILES, PROC_LINUX)
  {
  }

  lemma ProcTable()
    ensures Table(PROC_LEAVES, {".", "..", "fd", "threads", "task"})
  {
    ProcFilesTable();
    ProcLinuxTable();
    ProcNamesApart();
    TableJoin(PROC_FILES, PROC_LINUX, {".", "..", "fd", "threads", "task"});
  }

  lemma ThreadTable()
    ensures Table(THREAD_LEAVES, {".", ".."})
  {
  }

  lemma TaskTable()
    ensures Table(TASK_LEAVES, {".", ".."})
  {
  }

  lemma FdTable()
    ensures Table(FD_LEAVES, {".", ".."})
  {
  }

  // ---------- the whole layout ----------

  /** The records with a directory and its two dot entries added below `p`. */
  function WithDirectory(made: seq<Made>, p: nat, name: string, kind: Kind, process: bool, thread: bool): seq<Made> {
    var n := |made|;
    made + [Made(name, kind, process, thread, Some(p))]
         + [Made(".", This, process, thread, Some(n)), Made("..", Parent, process, thread, Some(n))]
  }

  /** The records with a run of leaves added below `p`. */
  function WithLeaves(made: seq<Made>, p: nat, names: seq<string>, kind: nat -> Kind, process: bool, thread: bool): seq<Made> {
    if names == [] then made
    else
      var i := |names| - 1;
      WithLeaves(made, p, names[..i], kind, process, thread) + [Made(names[i], kind(i), process, thread, Some(p))]
  }

  const ROOT_MADE: seq<Made> :=
    [Made("/", Root, false, false, None)] + [Made(".", This, false, false, Some(0)), Made("..", Parent, false, false, Some(0))]

  /** The root, the by-name directory and the root's leaves. */
  function RootRecords(): seq<Made> {
    WithLeaves(WithDirectory(ROOT_MADE, 0, "byname", Dir, false, false), 0, ROOT_LEAVES, RootKind, false, false)
  }

  /** The two process entries. */
  function EntryRecords(made: seq<Made>): seq<Made> {
    WithDirectory(WithDirectory(made, 3, "__Process_N__", ProcName, true, false), 0, "__Process__", Proc, true, false)
  }

  /** A directory of a process and the entry in it that stands for threads or descriptors. */
  function WithHolder(made: seq<Made>, p: nat, name: string, entry: string, kind: Kind, thread: bool): seq<Made> {
    WithDirectory(WithDirectory(made, p, name, Dir, true, false), |made|, entry, kind, true, thread)
  }

  function DirRecords(made: seq<Made>): seq<Made> {
    WithHolder(WithHolder(WithHolder(made, 24, "fd", "__File__", Fd, false), 24, "threads", "__Thread__", Thread, true),
               24, "task", "__Thread__", Thread, true)
  }

  function LeafRecords(made: seq<Made>): seq<Made> {
    WithLeaves(WithLeaves(WithLeaves(WithLeaves(made, 24, PROC_LEAVES, ProcKind, true, false),
                                     36, THREAD_LEAVES, FileKind, true, true),
                          42, TASK_LEAVES, FileKind, true, true),
               30, FD_LEAVES, FileKind, true, false)
  }

  function FileKind(i: nat): Kind { File }

  /** The records of a whole build. */
  function BuildRecords(): seq<Made> { LeafRecords(DirRecords(EntryRecords(RootRecords()))) }

  function AllMade(nodes: seq<Snode>): (made: seq<Made>)
    ensures |made| == |nodes| && forall i :: 0 <= i < |made| ==> made[i] == MadeOf(nodes[i])
  {
    seq(|nodes|, i requires 0 <= i < |nodes| => MadeOf(nodes[i]))
  }

  lemma RecordsAre(nodes: seq<Snode>, made: seq<Made>)
    requires |nodes| == |made| && Recorded(nodes, made, |nodes|)
    ensures AllMade(nodes) == made
  {
    forall i | 0 <= i < |nodes| ensures made[i] == MadeOf(nodes[i]) { RecordOf(nodes, made, |nodes|, i); }
  }

  class Builder {
    var nodes: seq<Snode>
    var nextId: nat
    ghost var start: nat
    ghost var sums: seq<Summary>
    ghost var made: seq<Made>

    constructor ()
      ensures nodes == [] && nextId == ROOT_BASE + 1
    {
      nodes, nextId := [], ROOT_BASE + 1;
    }

    /** A build that began at counter `start` is under way. */
    ghost predicate Valid()
      reads this
    {
      Ready(nodes, start, sums) && nextId == Id(start, |nodes| - 1) && |made| == |nodes| && Recorded(nodes, made, |nodes|)
    }

    method TakeId() returns (id: nat)
      modifies this`nextId
      ensures id == old(nextId) && nextId == Next(id)
    {
      id := nextId;
      nextId := if id == 0xFFFF then 0 else id + 1;
    }

    method AddNode(parent: Option<nat>, e: Entry) returns (n: nat)
      requires parent.Some? ==> parent.value < |nodes|
      modifies this`nodes
      ensures n == |old(nodes)| && nodes == Added(old(nodes), parent, e)
    {
      n := |nodes|;
      var node := Snode(e.kind, Cut(e.name), e.base, e.process, e.thread, parent, []);
      if parent.Some? {
        var up := nodes[parent.value];
        nodes := nodes[parent.value := up.(kids := up.kids + [n])];
        node := node.(process := node.process || up.process, thread := node.thread || up.thread);
      }
      nodes := nodes + [node];
    }

    /** The usual call: a node below an existing one, with the next id. */
    method NewNode(p: nat, name: string, kind: Kind, process: bool, thread: bool) returns (n: nat)
      requires Valid() && p < |sums| && Admits(sums[p], name, kind, process, thread)
      modifies this`nodes, this`nextId, this`sums, this`made
      ensures Valid() && n == |old(sums)|
      ensures sums == SumAdded(old(sums), p, Entry(name, kind, old(nextId), process, thread))
      ensures made == old(made) + [Record(old(sums)[p], p, name, kind, process, thread)]
    {
      var id := TakeId();
      var e := Entry(name, kind, id, process, thread);
      ghost var after := Added(nodes, Some(p), e);
      AdditionKept(nodes, start, sums, made, p, e, after);
      n := AddNode(Some(p), e);
      made := made + [Record(sums[p], p, name, kind, process, thread)];
      sums := SumAdded(sums, p, e);
      assert nodes == after && nextId == Id(start, |nodes| - 1);
    }

    /** The dot entries of a new directory, with the next two ids. */
    method NewDots(d: nat, process: bool, thread: bool)
      requires Valid() && d < |sums| && sums[d].names == {} && sums[d].last == None && Holder(sums[d].kind)
      modifies this`nodes, this`nextId, this`sums, this`made
      ensures Valid() && |sums| == |old(sums)| + 2
      ensures sums[d] == old(sums)[d].(names := {".", ".."}, last := Some(Parent))
      ensures forall q :: 0 <= q < |old(sums)| && q != d ==> sums[q] == old(sums)[q]
      ensures var up := old(sums)[d];
              made == old(made) + [Record(up, d, ".", This, process, thread), Record(up, d, "..", Parent, process, thread)]
    {
      DotsAdmitted(sums[d], process, thread);
      var _ := NewNode(d, ".", This, process, thread);
      var _ := NewNode(d, "..", Parent, process, thread);
    }

    /** A directory below an existing one, with the next id; its two dot entries take the two ids that follow. */
    method NewDirectory(p: nat, name: string, kind: Kind, process: bool, thread: bool) returns (n: nat)
      requires Valid() && p < |sums| && Admits(sums[p], name, kind, process, thread) && Holder(kind)
      modifies this`nodes, this`nextId, this`sums, this`made
      ensures Valid() && n == |old(sums)| && |sums| == n + 3
      ensures sums[p] == Grown(old(sums)[p], name, kind)
      ensures sums[n] == Summary(kind, process || old(sums)[p].process, thread || old(sums)[p].thread, {".", ".."}, Some(Parent))
      ensures forall q :: 0 <= q < n && q != p ==> sums[q] == old(sums)[q]
      ensures made == WithDirectory(old(made), p, name, kind, process || old(sums)[p].process, thread || old(sums)[p].thread)
    {
      n := NewNode(p, name, kind, process, thread);
      NewDots(n, process, thread);
    }

    /** The next leaf of a run below one node. */
    method NewLeaf(p: nat, names: seq<string>, i: nat, kind: Kind, process: bool, thread: bool, ghost was: Summary)
      requires Valid() && p < |sums| && i < |names| && Table(names, was.names)
      requires sums[p] == was.(names := was.names + SetOf(names[..i]), last := sums[p].last)
      requires sums[p].last.Some? && !Dynamic(sums[p].last.value)
      requires Leaf(kind) && Holder(was.kind) && (was.kind.Fd? ==> kind.File?)
      modifies this`nodes, this`nextId, this`sums, this`made
      ensures Valid() && |sums| == |old(sums)| + 1
      ensures sums[p] == was.(names := was.names + SetOf(names[..i + 1]), last := Some(kind)) && !Dynamic(kind)
      ensures forall q :: 0 <= q < |old(sums)| && q != p ==> sums[q] == old(sums)[q]
      ensures made == old(made) + [Made(names[i], kind, process || was.process, thread || was.thread, Some(p))]
    {
      LeafAdmitted(was, sums[p], names, i, kind, process, thread);
      var _ := NewNode(p, names[i], kind, process, thread);
    }

    /** A run of leaves below one node, in order. */
    method NewNodes(p: nat, names: seq<string>, kind: nat -> Kind, process: bool, thread: bool)
      requires Valid() && p < |sums|
      requires var s := sums[p]; Table(names, s.names) && s.last.Some? && !Dynamic(s.last.value) && Holder(s.kind)
      requires forall i :: 0 <= i < |names| ==> Leaf(kind(i)) && (sums[p].kind.Fd? ==> kind(i).File?)
      modifies this`nodes, this`nextId, this`sums, this`made
      ensures Valid() && |sums| == |old(sums)| + |names|
      ensures sums[p] == old(sums)[p].(names := old(sums)[p].names + SetOf(names), last := sums[p].last)
      ensures sums[p].last.Some? && !Dynamic(sums[p].last.value)
      ensures forall q :: 0 <= q < |old(sums)| && q != p ==> sums[q] == old(sums)[q]
      ensures made == WithLeaves(old(made), p, names, kind, process || old(sums)[p].process, thread || old(sums)[p].thread)
    {
      ghost var was := sums[p];
      for i := 0 to |names|
        invariant Valid() && |sums| == |old(sums)| + i
        invariant made == WithLeaves(old(made), p, names[..i], kind, process || was.process, thread || was.thread)
        invariant sums[p] == was.(names := was.names + SetOf(names[..i]), last := sums[p].last)
        invariant sums[p].last.Some? && !Dynamic(sums[p].last.value)
        invariant forall q :: 0 <= q < |old(sums)| && q != p ==> sums[q] == old(sums)[q]
      {
        NewLeaf(p, names, i, kind(i), process, thread, was);
        assert names[..i + 1][..i] == names[..i];
      }
      assert names[..|names|] == names;
    }

    /** The root and its dot entries. */
    method NewRoot()
      requires nodes == []
      modifies this
      ensures Valid() && start == old(nextId) && |sums| == 3
      ensures sums[0] == Summary(Root, false, false, {".", ".."}, Some(Parent))
      ensures made == ROOT_MADE
    {
      var root := AddNode(None, Entry("/", Root, ROOT_BASE, false, false));
      sums, start := [Summary(Root, false, false, {}, None)], nextId;
      made := [Made("/", Root, false, false, None)];
      assert Summarised(nodes, sums, 1) && Placed(nodes, start, 1) && Recorded(nodes, made, 1) by {
        assert Of(nodes, 0) == sums[0];
        assert Placed(nodes, start, 0) && Summarised(nodes, sums, 0) && Recorded(nodes, made, 0);
      }
      NewDots(root, false, false);
    }

    /** A directory of a process whose last entry stands for its threads or descriptors. */
    method NewHolder(p: nat, name: string, entry: string, kind: Kind, thread: bool) returns (n: nat)
      requires Valid() && p < |sums| && sums[p].process && !sums[p].thread
      requires Admits(sums[p], name, Dir, true, false) && LeafName(entry) && (kind.Fd? || (kind.Thread? && thread))
      modifies this`nodes, this`nextId, this`sums, this`made
      ensures Valid() && |sums| == |old(sums)| + 6 && n == |old(sums)| + 3
      ensures made == WithHolder(old(made), p, name, entry, kind, thread)
      ensures sums[p] == Grown(old(sums)[p], name, Dir)
      ensures sums[n] == Summary(kind, true, thread, {".", ".."}, Some(Parent))
      ensures forall q :: 0 <= q < |old(sums)| && q != p ==> sums[q] == old(sums)[q]
    {
      var d := NewDirectory(p, name, Dir, true, false);
      n := NewDirectory(d, entry, kind, true, thread);
    }

    /** The directories of one process. */
    method ProcDirs(proc: nat) returns (file: nat, thread: nat, task: nat)
      requires Valid() && 24 == proc < |sums| == 27
      requires sums[proc] == Summary(Proc, true, false, {".", ".."}, Some(Parent))
      modifies this`nodes, this`nextId, this`sums, this`made
      ensures Valid() && |sums| == 45 && file == 30 && thread == 36 && task == 42 && made == DirRecords(old(made))
      ensures sums[proc] == Summary(Proc, true, false, {".", "..", "fd", "threads", "task"}, Some(Dir))
      ensures sums[file] == Summary(Fd, true, false, {".", ".."}, Some(Parent))
      ensures sums[thread] == sums[task] == Summary(Thread, true, true, {".", ".."}, Some(Parent))
      ensures sums[0] == old(sums)[0]
    {
      file := NewHolder(proc, "fd", "__File__", Fd, false);
      thread := NewHolder(proc, "threads", "__Thread__", Thread, true);
      task := NewHolder(proc, "task", "__Thread__", Thread, true);
      assert {".", ".."} + {"fd"} + {"threads"} + {"task"} == {".", "..", "fd", "threads", "task"};
    }

    /** The root, its leaves and the directory of processes by name. */
    method RootLeaves() returns (byname: nat)
      requires nodes == []
      modifies this
      ensures Valid() && start == old(nextId) && |sums| == 21 && byname == 3 && made == RootRecords()
      ensures sums[byname] == Summary(Dir, false, false, {".", ".."}, Some(Parent))
      ensures sums[0] == Summary(Root, false, false, {".", "..", "byname"} + SetOf(ROOT_LEAVES), sums[0].last)
      ensures sums[0].last.Some? && !Dynamic(sums[0].last.value)
    {
      NewRoot();
      byname := NewDirectory(0, "byname", Dir, false, false);
      assert {".", ".."} + {"byname"} == {".", "..", "byname"};
      RootTable();
      NewNodes(0, ROOT_LEAVES, RootKind, false, false);
    }

    /** The root's entries; the pseudo-entry for processes is the last one. */
    method RootDirs() returns (proc: nat)
      requires nodes == []
      modifies this
      ensures Valid() && start == old(nextId) && |sums| == 27 && proc == 24 && made == EntryRecords(RootRecords())
      ensures sums[proc] == Summary(Proc, true, false, {".", ".."}, Some(Parent)) && sums[0].last == Some(Proc)
      ensures sums[0].names == {".", "..", "byname"} + SetOf(ROOT_LEAVES) + {"__Process__"}
    {
      var byname := RootLeaves();
      var _ := NewDirectory(byname, "__Process_N__", ProcName, true, false);
      RootEntryIsFresh();
      proc := NewDirectory(0, "__Process__", Proc, true, false);
    }

    /**
     The initialisation: unless a layout is there, one is built from the counter as it stands.  Its root ends in the
     process entry, its nodes have consecutive ids, and it is a well-formed tree exactly when these miss the root's.
     */
    method Init()
      requires nextId <= 0xFFFF
      modifies this
      ensures old(nodes) != [] ==> nodes == old(nodes) && nextId == old(nextId)
      ensures old(nodes) == [] ==> |nodes| == NODES && Formed(nodes) && nextId == Id(old(nextId), NODES - 1)
      ensures old(nodes) == [] ==> forall i :: 0 <= i < NODES ==> nodes[i].base == BaseAt(old(nextId), i)
      ensures old(nodes) == [] ==> (Tree(nodes) <==> Apart(old(nextId)))
      ensures old(nodes) == [] ==> AllMade(nodes) == BuildRecords() && Of(nodes, 0).last == Some(Proc)
      ensures old(nodes) == [] ==> Of(nodes, 0).names == {".", "..", "byname"} + SetOf(ROOT_LEAVES) + {"__Process__"}
    {
      if nodes != [] { return; }
      var proc := RootDirs();
      var file, thread, task := ProcDirs(proc);
      InitLeaves(proc, file, thread, task);
      PlacedIsFormed(nodes, start);
      BuildIsUnique(nodes, start);
      SummaryOf(nodes, sums, |nodes|, 0);
      RecordsAre(nodes, made);
    }

    /** `procfs_structure_free`, at the unmount: the counter stays. */
    method Free()
      modifies this`nodes
      ensures nodes == []
    {
      nodes := [];
    }

    /** Any number of mounts and unmounts since the extension was loaded: the next build starts where the last one stopped. */
    method Remount(n: nat)
      requires nodes == [] && nextId == ROOT_BASE + 1
      modifies this
      ensures AllMade(nodes) == BuildRecords() && Formed(nodes) && (Tree(nodes) <==> Apart(CounterBefore(n)))
    {
      for i := 0 to n
        invariant nodes == [] && nextId == CounterBefore(i) <= 0xFFFF
      {
        Init();
        IdIs(CounterBefore(i), NODES - 1);
        Free();
      }
      Init();
    }

    /** The files of a process. */
    method ProcFiles(proc: nat)
      requires Valid() && proc == 24 && |sums| == 45
      requires sums[proc] == Summary(Proc, true, false, {".", "..", "fd", "threads", "task"}, Some(Dir))
      modifies this`nodes, this`nextId, this`sums, this`made
      ensures Valid() && |sums| == 68 && made == WithLeaves(old(made), 24, PROC_LEAVES, ProcKind, true, false)
      ensures forall q :: 0 <= q < |old(sums)| && q != proc ==> sums[q] == old(sums)[q]
    {
      ProcTable();
      NewNodes(proc, PROC_LEAVES, ProcKind, true, false);
    }

    /** The files of one of the process's threads or descriptors. */
    method FilesBelow(n: nat, names: seq<string>, thread: bool)
      requires Valid() && n < |sums| && Table(names, {".", ".."}) && Holder(sums[n].kind)
      requires sums[n] == Summary(sums[n].kind, true, thread, {".", ".."}, Some(Parent))
      modifies this`nodes, this`nextId, this`sums, this`made
      ensures Valid() && |sums| == |old(sums)| + |names| && made == WithLeaves(old(made), n, names, FileKind, true, thread)
      ensures forall q :: 0 <= q < |old(sums)| && q != n ==> sums[q] == old(sums)[q]
    {
      NewNodes(n, names, FileKind, true, thread);
    }

    /** The files of a process, its threads and its descriptors. */
    method InitLeaves(proc: nat, file: nat, thread: nat, task: nat)
      requires Valid() && proc == 24 && file == 30 && thread == 36 && task == 42 && |sums| == 45
      requires sums[proc] == Summary(Proc, true, false, {".", "..", "fd", "threads", "task"}, Some(Dir))
      requires sums[file] == Summary(Fd, true, false, {".", ".."}, Some(Parent))
      requires sums[thread] == sums[task] == Summary(Thread, true, true, {".", ".."}, Some(Parent))
      modifies this`nodes, this`nextId, this`sums, this`made
      ensures Valid() && sums[0] == old(sums)[0] && |sums| == NODES && made == LeafRecords(old(made))
    {
      ThreadTable();
      TaskTable();
      FdTable();
      ProcFiles(proc);
      FilesBelow(thread, THREAD_LEAVES, true);
      FilesBelow(task, TASK_LEAVES, true);
      FilesBelow(file, FD_LEAVES, false);
    }
  }
}
