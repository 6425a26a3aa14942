/** Exactly which names a directory resolves, and how that compares with the names it lists. */
module Resolution {
  import opened Options
  import opened Structure
  import opened Numbers
  import opened FileIds
  import opened Lookup
  import opened Agreement
  import R = Readdir
  import S = SysctlReaddir
  import T = SysctlTree

  // ---------- which names look up ----------

  /** A name that the dynamic entry of type `k` takes: whole numerals for processes and threads, a leading numeral for descriptors. */
  ghost predicate Denotes(w: World, v: Pfsnode, k: Kind, name: string) {
    match k
    case Proc => 0 < |name| == Digits(name) && Visible(w, Atoi(name))
    case ProcName => exists pid: nat :: Visible(w, pid) && name == ProcDirName(pid, w.procs[pid])
    case Thread =>
      && 0 < |name| == Digits(name) && Atoi(name) != -1 && Visible(w, v.id.pid)
      && w.procs[v.id.pid].threads.Some? && ObjectOf(Atoi(name)) in w.procs[v.id.pid].threads.value
    case Fd => 0 < Digits(name) && v.id.pid in w.procs && Atoi(name) in w.procs[v.id.pid].fds
    case _ => false
  }

  ghost predicate Literal(nodes: seq<Snode>, kids: seq<nat>, name: string)
    requires forall b :: 0 <= b < |kids| ==> kids[b] < |nodes|
  {
    exists b :: 0 <= b < |kids| && nodes[kids[b]].name == name
  }

  lemma {:induction false} ScanSplits(nodes: seq<Snode>, w: World, v: Pfsnode, kids: seq<nat>, name: string)
    requires forall b :: 0 <= b < |kids| ==> kids[b] < |nodes|
    requires kids != [] && forall b :: 0 <= b < |kids| - 1 ==> !Dynamic(nodes[kids[b]].kind)
    ensures Scan(nodes, w, v, kids, name).Some? <==>
              Literal(nodes, kids, name) || Scan(nodes, w, v, [kids[|kids| - 1]], name).Some?
    decreases |kids|
  {
    if |kids| == 1 {
      assert kids == [kids[0]];
    } else if nodes[kids[0]].name != name {
      var rest := kids[1..];
      ScanSplits(nodes, w, v, rest, name);
      assert forall b :: 0 < b < |kids| ==> kids[b] == rest[b - 1];
      if Literal(nodes, rest, name) {
        var b :| 0 <= b < |rest| && nodes[rest[b]].name == name;
        assert nodes[kids[b + 1]].name == name;
      }
    }
  }

  lemma NameDenotes(w: World, pid: nat, name: string)
    requires Visible(w, pid) && name == ProcDirName(pid, w.procs[pid])
    ensures Digits(name) > 0 && Atoi(name) == pid
  {
    var rest := " " + w.procs[pid].comm;
    assert name == Decimal(pid) + rest;
    DecimalPrefix(pid, rest);
    WrapSmall(pid);
  }

  lemma OneEntry(nodes: seq<Snode>, w: World, v: Pfsnode, c: nat, name: string)
    requires c < |nodes| && name != nodes[c].name
    ensures Scan(nodes, w, v, [c], name).Some? <==> Denotes(w, v, nodes[c].kind, name)
  {
    var k := nodes[c].kind;
    assert Scan(nodes, w, v, [c][1..], name) == None;
    DigitsPrefix(name);
    if k.ProcName? {
      if Denotes(w, v, k, name) {
        var pid: nat :| Visible(w, pid) && name == ProcDirName(pid, w.procs[pid]);
        NameDenotes(w, pid, name);
      }
      if Scan(nodes, w, v, [c], name).Some? {
        var pid: nat := Atoi(name);
        assert Visible(w, pid) && name == ProcDirName(pid, w.procs[pid]);
      }
    }
  }

  /** A name resolves in a directory of the static tree exactly when it is a dot name, the name of a child in the layout
      (pseudo-entries included), or a name that the last child takes. */
  lemma ResolvesIff(nodes: seq<Snode>, w: World, v: Pfsnode, name: string)
    requires Tree(nodes) && v.snode < |nodes| && Directory(nodes[v.snode].kind) && KidsAreNodes(nodes, v)
    ensures var kids := nodes[v.snode].kids;
            Find(nodes, w, v, name).Some? <==>
              name != "" && (name == "." || name == ".." || Literal(nodes, kids, name)
                             || (kids != [] && Denotes(w, v, nodes[kids[|kids| - 1]].kind, name)))
  {
    var kids := nodes[v.snode].kids;
    assert Siblings(nodes, kids);
    if kids != [] {
      var c := kids[|kids| - 1];
      ScanSplits(nodes, w, v, kids, name);
      if name != nodes[c].name { OneEntry(nodes, w, v, c, name); }
    }
  }

  // ---------- the root ----------

  lemma DecimalInjective(m: nat, n: nat)
    requires Decimal(m) == Decimal(n)
    ensures m == n
  {
    DecimalReadsBack(m);
    DecimalReadsBack(n);
  }

  ghost predicate Lists(nodes: seq<Snode>, w: World, v: Pfsnode, name: string)
    requires KidsAreNodes(nodes, v)
  {
    exists e :: e in R.Listing(Children(nodes, w, v)) && e.name == name
  }

  /** A directory whose last child is the process entry. */
  ghost predicate EndsInProcs(nodes: seq<Snode>, v: Pfsnode) {
    && KidsAreNodes(nodes, v) && nodes[v.snode].kids != [] && Directory(nodes[v.snode].kind)
    && nodes[nodes[v.snode].kids[|nodes[v.snode].kids| - 1]].kind.Proc?
  }

  /** A listed name that starts with a digit is the decimal name of a listed process. */
  lemma ListedNumberIsPid(nodes: seq<Snode>, w: World, v: Pfsnode, e: R.Entry) returns (pid: nat)
    requires Tree(nodes) && EndsInProcs(nodes, v)
    requires e in R.Listing(Children(nodes, w, v)) && e.name != "" && IsDigit(e.name[0])
    ensures pid in Pids(w) && e.name == Decimal(pid)
  {
    var a, l := ListedIsLine(nodes, w, v, e);
    if a < |nodes[v.snode].kids| - 1 {
      EarlierIsPlain(nodes, w, v, a, l);
      assert false;
    }
    pid := ProcLineIsPid(nodes, w, v, nodes[v.snode].kids[a], l);
  }

  lemma EarlierIsPlain(nodes: seq<Snode>, w: World, v: Pfsnode, a: nat, l: Line)
    requires Tree(nodes) && EndsInProcs(nodes, v) && a < |nodes[v.snode].kids| - 1
    requires l in LinesOf(nodes, w, v, nodes[v.snode].kids[a])
    ensures l.entry.name != "" && !IsDigit(l.entry.name[0])
  {
    assert Siblings(nodes, nodes[v.snode].kids);
    ChildNames(nodes, v, a);
  }

  lemma ProcLineIsPid(nodes: seq<Snode>, w: World, v: Pfsnode, c: nat, l: Line) returns (pid: nat)
    requires c < |nodes| && v.snode < |nodes| && nodes[c].kind.Proc? && l in LinesOf(nodes, w, v, c)
    ensures pid in Pids(w) && l.entry.name == Decimal(pid)
  {
    var i :| 0 <= i < |Pids(w)| && LinesOf(nodes, w, v, c)[i] == l;
    pid := Pids(w)[i];
  }

  lemma PidIsListed(nodes: seq<Snode>, w: World, v: Pfsnode, pid: nat)
    requires Tree(nodes) && EndsInProcs(nodes, v) && pid in Pids(w)
    ensures Lists(nodes, w, v, Decimal(pid))
  {
    var a := |nodes[v.snode].kids| - 1;
    var c := nodes[v.snode].kids[a];
    var i :| 0 <= i < |Pids(w)| && Pids(w)[i] == pid;
    var l := LinesOf(nodes, w, v, c)[i];
    assert Siblings(nodes, nodes[v.snode].kids);
    LineIsListed(nodes, w, v, a, l);
    assert l.entry.name == Decimal(pid);
  }

  /** In the root a pid is listed exactly when its decimal name looks up, the pid list can be allocated and fewer than
      1024 visible pids precede it. */
  lemma RootListsWhatItResolves(nodes: seq<Snode>, w: World, v: Pfsnode, pid: nat)
    requires Tree(nodes) && Sound(nodes, v) && EndsInProcs(nodes, v) && pid <= MAX_PID
    ensures Lists(nodes, w, v, Decimal(pid)) <==>
              Find(nodes, w, v, Decimal(pid)).Some? && w.pidMemory && |Seen(w, pid)| < MAX_PROCS
    ensures w.pidMemory && |Seen(w, MAX_PID + 1)| <= MAX_PROCS ==>
              (Lists(nodes, w, v, Decimal(pid)) <==> Find(nodes, w, v, Decimal(pid)).Some?)
  {
    if Lists(nodes, w, v, Decimal(pid)) {
      var e :| e in R.Listing(Children(nodes, w, v)) && e.name == Decimal(pid);
      DecimalReadsBack(pid);
      var q := ListedNumberIsPid(nodes, w, v, e);
      DecimalInjective(pid, q);
    }
    if pid in Pids(w) { PidIsListed(nodes, w, v, pid); }
    PidsMembers(w, pid);
    ProcIsFound(nodes, w, v, |nodes[v.snode].kids| - 1, pid);
    if Visible(w, pid) { SeenGrows(w, pid + 1, MAX_PID + 1); }
  }

  // ---------- names that resolve without being listed ----------

  lemma ZerosRead()
    ensures Digits("007") == 3 && Atoi("007") == 7 && Digits("3abc") == 1 && Atoi("3abc") == 3
  {
    DigitsIs("007", 3);
    assert "007"[..3] == "007" && "007"[..2] == "00" && "00"[..1] == "0" && "0"[..0] == "";
    assert Value("0") == 0 && Value("00") == 0 && Value("007") == 7;
    WrapSmall(7);
    DigitsIs("3abc", 1);
    assert "3abc"[..1] == "3" && "3"[..0] == "";
    assert Value("3") == 3;
    WrapSmall(3);
  }

  /**
   How a number is spelled makes no difference: any numeral looks up to what the decimal form of its
   value does, and in a descriptor directory so does any name that starts with the numeral.
   */
  lemma SpellingIgnored(nodes: seq<Snode>, w: World, v: Pfsnode, a: nat, name: string)
    requires DirAt(nodes, v, a) && a == |nodes[v.snode].kids| - 1 && 0 < Digits(name) && Atoi(name) >= 0
    requires var k := nodes[nodes[v.snode].kids[a]].kind; (k.Proc? && Digits(name) == |name|) || k.Fd?
    ensures Find(nodes, w, v, name) == Find(nodes, w, v, Decimal(Atoi(name)))
  {
    var n: nat := Atoi(name);
    DigitsPrefix(name);
    WrapRange(Value(name[..Digits(name)]));
    WrapSmall(n);
    DecimalReadsBack(n);
    NumberReachesDynamic(nodes, w, v, a, name);
    NumberReachesDynamic(nodes, w, v, a, Decimal(n));
    assert nodes[v.snode].kids[a..] == [nodes[v.snode].kids[a]];
    EntryReadsValue(nodes, w, v, nodes[v.snode].kids[a], name, Decimal(n));
  }

  lemma EntryReadsValue(nodes: seq<Snode>, w: World, v: Pfsnode, c: nat, name: string, other: string)
    requires c < |nodes| && name != nodes[c].name && other != nodes[c].name && Atoi(name) == Atoi(other) >= 0
    requires (nodes[c].kind.Proc? && Digits(name) == |name| && Digits(other) == |other|) || nodes[c].kind.Fd?
    ensures Scan(nodes, w, v, [c], name) == Scan(nodes, w, v, [c], other)
  {
  }

  /** "007" names process 7 and is never listed. */
  lemma UnlistedNumeral(nodes: seq<Snode>, w: World, v: Pfsnode)
    requires Tree(nodes) && Sound(nodes, v) && EndsInProcs(nodes, v) && Visible(w, 7)
    ensures Find(nodes, w, v, "007") == Find(nodes, w, v, "7") && Find(nodes, w, v, "7").Some? && !Lists(nodes, w, v, "007")
  {
    ZerosRead();
    assert Decimal(7) == "7";
    SpellingIgnored(nodes, w, v, |nodes[v.snode].kids| - 1, "007");
    ProcIsFound(nodes, w, v, |nodes[v.snode].kids| - 1, 7);
    if Lists(nodes, w, v, "007") {
      var e :| e in R.Listing(Children(nodes, w, v)) && e.name == "007";
      var pid := ListedNumberIsPid(nodes, w, v, e);
      DecimalReadsBack(pid);
      PidRange(w, pid);
      WrapSmall(pid);
    }
  }

  /** In a descriptor directory "3abc" names descriptor 3. */
  lemma TrailingTextIgnored(nodes: seq<Snode>, w: World, v: Pfsnode)
    requires Tree(nodes) && Sound(nodes, v) && Directory(nodes[v.snode].kind) && KidsAreNodes(nodes, v)
    requires nodes[v.snode].kids != [] && nodes[nodes[v.snode].kids[|nodes[v.snode].kids| - 1]].kind.Fd?
    requires v.id.pid in w.procs && 3 in w.procs[v.id.pid].fds
    ensures Find(nodes, w, v, "3abc") == Find(nodes, w, v, "3") && Find(nodes, w, v, "3").Some?
  {
    ZerosRead();
    assert Decimal(3) == "3";
    SpellingIgnored(nodes, w, v, |nodes[v.snode].kids| - 1, "3abc");
    FdIsFound(nodes, w, v, |nodes[v.snode].kids| - 1, 3);
  }

  // ---------- /proc/sys ----------

  /** The file ids of the oids. */
  function OidFileId(nodes: seq<Snode>, v: Pfsnode): nat -> nat
    requires v.snode < |nodes|
  {
    var base := nodes[v.snode].base;
    (addr: nat) => FileId(NO_PID, addr, base)
  }

  /** The listing of a directory at or below /proc/sys. */
  function SysctlLines(nodes: seq<Snode>, w: World, v: Pfsnode): seq<R.Entry>
    requires v.snode < |nodes| && nodes[v.snode].kind.Sysctl? && IsDir(nodes, w, v)
  {
    S.SysctlListing(SysctlDir(w, v.id.obj).value, NodeFileId(nodes, v), OidFileId(nodes, v))
  }

  /** With distinct sibling names every entry of a sysctl directory but ".." looks up to a node with the listed file id. */
  lemma SysctlListedIsFound(nodes: seq<Snode>, w: World, v: Pfsnode, i: nat)
    requires Tree(nodes) && v.snode < |nodes| && nodes[v.snode].kind.Sysctl? && IsDir(nodes, w, v)
    requires T.DistinctNames(T.Children(SysctlDir(w, v.id.obj).value).value)
    requires i < |SysctlLines(nodes, w, v)| && i != 1
    requires i >= 2 ==> SysctlLines(nodes, w, v)[i].name !in {"", ".", ".."}
    ensures var e := SysctlLines(nodes, w, v)[i]; var r := Find(nodes, w, v, e.name);
            r.Some? && r.value.snode == v.snode && NodeFileId(nodes, r.value) == e.ino
  {
    var d := SysctlDir(w, v.id.obj).value;
    if i >= 2 { S.SysctlListedIsFound(d, NodeFileId(nodes, v), OidFileId(nodes, v), i); }
  }
}
