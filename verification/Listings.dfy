/** What each kind of directory lists: the entries of its layout, then one entry for each thing it stands for. */
module Listings {
  import opened Options
  import opened Structure
  import opened Numbers
  import opened FileIds
  import opened Lookup
  import opened Agreement
  import opened Resolution
  import R = Readdir

  /** The last child of the directory. */
  function Last(nodes: seq<Snode>, v: Pfsnode): nat
    requires KidsAreNodes(nodes, v) && nodes[v.snode].kids != []
  {
    nodes[v.snode].kids[|nodes[v.snode].kids| - 1]
  }

  /** A directory whose last child is of type `k`. */
  ghost predicate EndsIn(nodes: seq<Snode>, v: Pfsnode, k: Kind) {
    Tree(nodes) && KidsAreNodes(nodes, v) && nodes[v.snode].kids != [] && nodes[Last(nodes, v)].kind == k
  }

  /** The number of plain entries. */
  function Plain(nodes: seq<Snode>, v: Pfsnode): int
    requires v.snode < |nodes|
  {
    |nodes[v.snode].kids| - 1
  }

  lemma SplitListing(cs: seq<R.Child>, n: nat)
    requires n + 1 == |cs| && (cs[n].Procs? || cs[n].Subs?) && forall b :: 0 <= b < n ==> cs[b].Leaf?
    ensures |R.Listing(cs)| == n + |cs[n].entries|
    ensures forall b :: 0 <= b < n ==> R.Listing(cs)[b] == cs[b].entry
    ensures forall j :: n <= j < |R.Listing(cs)| ==> R.Listing(cs)[j] == cs[n].entries[j - n]
  {
    var es := R.Listing(cs);
    forall b | 0 <= b < n ensures b < |es| && es[b] == cs[b].entry { R.LeafAt(cs, b); }
    R.DynamicAt(cs, n);
    TailAt(es, n, cs[n].entries);
  }

  lemma TailAt(es: seq<R.Entry>, n: nat, tail: seq<R.Entry>)
    requires n <= |es| && es[n..] == tail
    ensures |es| == n + |tail| && forall j :: n <= j < |es| ==> es[j] == tail[j - n]
  {
    forall j | n <= j < |es| ensures es[j] == tail[j - n] { assert es[n..][j - n] == es[j]; }
  }

  lemma PlainShown(nodes: seq<Snode>, w: World, v: Pfsnode, b: nat)
    requires Tree(nodes) && KidsAreNodes(nodes, v) && b < |nodes[v.snode].kids| - 1
    ensures var c, shown := nodes[v.snode].kids[b], Children(nodes, w, v)[b];
            shown.Leaf? && shown.entry.name == nodes[c].name && shown.entry.name != "" && !StartsNumber(shown.entry.name[0])
  {
    assert Siblings(nodes, nodes[v.snode].kids);
    ChildNames(nodes, v, b);
  }

  lemma DynamicShown(nodes: seq<Snode>, w: World, v: Pfsnode, c: nat, lines: seq<Line>)
    requires c < |nodes| && v.snode < |nodes| && Dynamic(nodes[c].kind) && !Lost(w, v, nodes[c].kind) && lines == LinesOf(nodes, w, v, c)
    ensures var shown := ShownAs(nodes, w, v, c); (shown.Procs? || shown.Subs?) && shown.entries == Entries(lines)
  {
  }

  lemma PlainAllShown(nodes: seq<Snode>, w: World, v: Pfsnode)
    requires Tree(nodes) && KidsAreNodes(nodes, v)
    ensures forall b :: 0 <= b < |nodes[v.snode].kids| - 1 ==> NamedLeaf(Children(nodes, w, v)[b], nodes[nodes[v.snode].kids[b]].name)
  {
    forall b | 0 <= b < |nodes[v.snode].kids| - 1
      ensures NamedLeaf(Children(nodes, w, v)[b], nodes[nodes[v.snode].kids[b]].name)
    {
      PlainShown(nodes, w, v, b);
    }
  }

  /** A plain entry with a name that does not start like a number. */
  predicate NamedLeaf(c: R.Child, name: string) {
    c.Leaf? && c.entry.name == name && name != "" && !StartsNumber(name[0])
  }

  /** `es` is the plain entries of the layout in order, then the entries of `lines` in order. */
  ghost predicate Splits(nodes: seq<Snode>, kids: seq<nat>, lines: seq<Line>, es: seq<R.Entry>)
    requires kids != [] && forall b :: 0 <= b < |kids| ==> kids[b] < |nodes|
  {
    var n := |kids| - 1;
    && |es| == n + |lines|
    && (forall b :: 0 <= b < n ==> es[b].name == nodes[kids[b]].name && es[b].name != "" && !StartsNumber(es[b].name[0]))
    && (forall j :: n <= j < |es| ==> es[j] == lines[j - n].entry)
  }

  lemma HeadSplits(nodes: seq<Snode>, kids: seq<nat>, cs: seq<R.Child>, es: seq<R.Entry>, n: nat)
    requires n <= |kids| == |cs| && n <= |es| && forall b :: 0 <= b < |kids| ==> kids[b] < |nodes|
    requires forall b :: 0 <= b < n ==> NamedLeaf(cs[b], nodes[kids[b]].name) && es[b] == cs[b].entry
    ensures forall b :: 0 <= b < n ==> es[b].name == nodes[kids[b]].name && es[b].name != "" && !StartsNumber(es[b].name[0])
  {
  }

  lemma TailSplits(lines: seq<Line>, entries: seq<R.Entry>, es: seq<R.Entry>, n: nat)
    requires entries == Entries(lines) && |es| == n + |entries| && forall j :: n <= j < |es| ==> es[j] == entries[j - n]
    ensures |es| == n + |lines| && forall j :: n <= j < |es| ==> es[j] == lines[j - n].entry
  {
  }

  lemma SplitsFrom(nodes: seq<Snode>, kids: seq<nat>, cs: seq<R.Child>, lines: seq<Line>, es: seq<R.Entry>)
    requires kids != [] && |cs| == |kids| && forall b :: 0 <= b < |kids| ==> kids[b] < |nodes|
    requires forall b :: 0 <= b < |kids| - 1 ==> NamedLeaf(cs[b], nodes[kids[b]].name)
    requires var last := cs[|kids| - 1]; (last.Procs? || last.Subs?) && last.entries == Entries(lines)
    requires es == R.Listing(cs)
    ensures Splits(nodes, kids, lines, es)
  {
    var n := |kids| - 1;
    SplitListing(cs, n);
    HeadSplits(nodes, kids, cs, es, n);
    TailSplits(lines, cs[n].entries, es, n);
  }

  /** The listing of a directory is its layout's plain entries, then the lines of its last child. */
  lemma ListingSplits(nodes: seq<Snode>, w: World, v: Pfsnode, k: Kind, lines: seq<Line>)
    requires EndsIn(nodes, v, k) && Dynamic(k) && !Lost(w, v, k) && lines == LinesOf(nodes, w, v, Last(nodes, v))
    ensures Splits(nodes, nodes[v.snode].kids, lines, R.Listing(Children(nodes, w, v)))
  {
    DynamicShown(nodes, w, v, Last(nodes, v), lines);
    PlainAllShown(nodes, w, v);
    SplitsFrom(nodes, nodes[v.snode].kids, Children(nodes, w, v), lines, R.Listing(Children(nodes, w, v)));
  }

  /** A name that starts like a number is that of one of the lines, if any. */
  lemma NumberInSplit(nodes: seq<Snode>, kids: seq<nat>, lines: seq<Line>, es: seq<R.Entry>, name: string)
    requires kids != [] && (forall b :: 0 <= b < |kids| ==> kids[b] < |nodes|) && Splits(nodes, kids, lines, es)
    requires name != "" && StartsNumber(name[0])
    ensures (exists e :: e in es && e.name == name) <==> exists i :: 0 <= i < |lines| && lines[i].entry.name == name
  {
    var n := |kids| - 1;
    if e :| e in es && e.name == name {
      var j :| 0 <= j < |es| && es[j] == e;
    }
    if i :| 0 <= i < |lines| && lines[i].entry.name == name {
      assert es[n + i] in es;
    }
  }

  /** A name that starts like a number is listed exactly when it is the name of one of the last child's lines. */
  lemma NumberListedIff(nodes: seq<Snode>, w: World, v: Pfsnode, k: Kind, name: string, lines: seq<Line>)
    requires EndsIn(nodes, v, k) && Dynamic(k) && !Lost(w, v, k) && lines == LinesOf(nodes, w, v, Last(nodes, v))
    requires name != "" && StartsNumber(name[0])
    ensures Lists(nodes, w, v, name) <==> exists i :: 0 <= i < |lines| && lines[i].entry.name == name
  {
    ListingSplits(nodes, w, v, k, lines);
    NumberInSplit(nodes, nodes[v.snode].kids, lines, R.Listing(Children(nodes, w, v)), name);
  }

  // ---------- descriptors ----------

  /**
   A descriptor directory lists the entries of its layout and then the open descriptors of its
   process, in the order of the descriptor table, each once, by number and with its own file id.
   */
  lemma DescriptorListing(nodes: seq<Snode>, w: World, v: Pfsnode)
    requires EndsIn(nodes, v, Fd) && v.id.pid in w.procs
    ensures var es, n, fds := R.Listing(Children(nodes, w, v)), Plain(nodes, v), w.procs[v.id.pid].fds;
            && |es| == n + |fds|
            && (forall b :: 0 <= b < n ==> es[b].name == nodes[nodes[v.snode].kids[b]].name)
            && (forall j :: n <= j < |es| ==> es[j] == R.Entry(Decimal(fds[j - n]), FileId(v.id.pid, fds[j - n], nodes[Last(nodes, v)].base)))
  {
    ListingSplits(nodes, w, v, Fd, LinesOf(nodes, w, v, Last(nodes, v)));
  }

  /** A descriptor is listed exactly when it is open. */
  lemma DescriptorListed(nodes: seq<Snode>, w: World, v: Pfsnode, fd: Descriptor)
    requires EndsIn(nodes, v, Fd) && v.id.pid in w.procs
    ensures Lists(nodes, w, v, Decimal(fd)) <==> fd in w.procs[v.id.pid].fds
  {
    DecimalReadsBack(fd);
    var lines, fds := LinesOf(nodes, w, v, Last(nodes, v)), w.procs[v.id.pid].fds;
    NumberListedIff(nodes, w, v, Fd, Decimal(fd), lines);
    if i :| 0 <= i < |lines| && lines[i].entry.name == Decimal(fd) {
      DecimalInjective(fds[i], fd);
    }
    if fd in fds {
      var i :| 0 <= i < |fds| && fds[i] == fd;
      assert lines[i].entry.name == Decimal(fd);
    }
  }

  // ---------- threads ----------

  lemma LongNameInjective(m: Tid, n: Tid)
    requires LongName(m) == LongName(n)
    ensures m == n
  {
    assert LongName(m)[0] == LongName(n)[0] by { LongNameStart(m); }
    DecimalReadsBack(m);
    DecimalReadsBack(n);
    if m < 0x8000_0000_0000_0000 && n < 0x8000_0000_0000_0000 {
      DecimalInjective(m, n);
    } else if m >= 0x8000_0000_0000_0000 && n >= 0x8000_0000_0000_0000 {
      assert LongName(m)[1..] == LongName(n)[1..];
      DecimalInjective(0x1_0000_0000_0000_0000 - m, 0x1_0000_0000_0000_0000 - n);
    }
  }

  lemma LongNameStart(n: Tid)
    ensures LongName(n) != "" && StartsNumber(LongName(n)[0])
  {
    DecimalReadsBack(n);
  }

  /** A thread directory lists the entries of its layout and then the threads of its process, in order, each once. */
  lemma ThreadListing(nodes: seq<Snode>, w: World, v: Pfsnode)
    requires EndsIn(nodes, v, Thread) && v.id.pid in w.procs && w.procs[v.id.pid].threads.Some?
    ensures var es, n, tids := R.Listing(Children(nodes, w, v)), Plain(nodes, v), w.procs[v.id.pid].threads.value;
            && |es| == n + |tids|
            && (forall b :: 0 <= b < n ==> es[b].name == nodes[nodes[v.snode].kids[b]].name)
            && (forall j :: n <= j < |es| ==> es[j] == R.Entry(LongName(tids[j - n]), FileId(v.id.pid, tids[j - n], nodes[Last(nodes, v)].base)))
  {
    ListingSplits(nodes, w, v, Thread, LinesOf(nodes, w, v, Last(nodes, v)));
  }

  /** A thread's name is listed exactly when the process has the thread, whether or not the name looks up again. */
  lemma ThreadListed(nodes: seq<Snode>, w: World, v: Pfsnode, tid: Tid)
    requires EndsIn(nodes, v, Thread) && v.id.pid in w.procs && w.procs[v.id.pid].threads.Some?
    ensures Lists(nodes, w, v, LongName(tid)) <==> tid in w.procs[v.id.pid].threads.value
  {
    LongNameStart(tid);
    var lines, tids := LinesOf(nodes, w, v, Last(nodes, v)), w.procs[v.id.pid].threads.value;
    NumberListedIff(nodes, w, v, Thread, LongName(tid), lines);
    if i :| 0 <= i < |lines| && lines[i].entry.name == LongName(tid) {
      LongNameInjective(tids[i], tid);
    }
    if tid in tids {
      var i :| 0 <= i < |tids| && tids[i] == tid;
      assert lines[i].entry.name == LongName(tid);
    }
  }

  /**
   The threads and descriptors of a process that is gone, or whose threads cannot be enumerated,
   break the listing off: the plain entries are all there is, and a reader that comes to their end
   with room left is told that the process is missing, and not that the directory is over.
   */
  lemma LostListing(nodes: seq<Snode>, w: World, v: Pfsnode, k: Kind, room: nat)
    requires EndsIn(nodes, v, k) && (k.Thread? || k.Fd?) && room > 0
    requires v.id.pid !in w.procs || (k.Thread? && w.procs[v.id.pid].threads.None?)
    ensures var cs, n := Children(nodes, w, v), Plain(nodes, v); var es := R.Listing(cs);
            && |es| == n && (forall b :: 0 <= b < n ==> es[b].name == nodes[nodes[v.snode].kids[b]].name)
            && R.Breaks(cs, true, R.Off(es, n), room) && !R.AtEnd(cs, true, R.Off(es, n), room)
  {
    var cs, n := Children(nodes, w, v), Plain(nodes, v);
    assert Lost(w, v, nodes[Last(nodes, v)].kind);
    PlainAllShown(nodes, w, v);
    GoneListing(cs, n, room);
  }

  lemma GoneListing(cs: seq<R.Child>, n: nat, room: nat)
    requires n + 1 == |cs| && cs[n].Gone? && (forall b :: 0 <= b < n ==> cs[b].Leaf?) && room > 0
    ensures |R.Listing(cs)| == n && forall b :: 0 <= b < n ==> R.Listing(cs)[b] == cs[b].entry
    ensures R.Breaks(cs, true, R.Off(R.Listing(cs), n), room) && !R.AtEnd(cs, true, R.Off(R.Listing(cs), n), room)
  {
    var es := R.Listing(cs);
    forall b | 0 <= b < n ensures b < |es| && es[b] == cs[b].entry { R.LeafAt(cs, b); }
    R.DynamicAt(cs, n);
    TailAt(es, n, []);
    R.StartOfOff(es, n);
  }

  // ---------- processes ----------

  lemma DirNameInjective(p: nat, a: Process, q: nat, b: Process)
    requires ProcDirName(p, a) == ProcDirName(q, b) && p <= MAX_PID && q <= MAX_PID
    ensures p == q
  {
    var name := ProcDirName(p, a);
    assert name == Decimal(p) + (" " + a.comm) == Decimal(q) + (" " + b.comm);
    DecimalPrefix(p, " " + a.comm);
    DecimalPrefix(q, " " + b.comm);
    WrapSmall(p);
    WrapSmall(q);
  }

  /** The root lists its layout and then, by number and in the order of their numbers, the visible processes, up to 1024 of them. */
  lemma ProcessListing(nodes: seq<Snode>, w: World, v: Pfsnode)
    requires EndsIn(nodes, v, Proc)
    ensures var es, n, pids := R.Listing(Children(nodes, w, v)), Plain(nodes, v), Pids(w);
            && |es| == n + |pids|
            && (forall b :: 0 <= b < n ==> es[b].name == nodes[nodes[v.snode].kids[b]].name)
            && (forall j :: n <= j < |es| ==> es[j] == R.Entry(Decimal(pids[j - n]), FileId(pids[j - n], NO_OBJECT, nodes[Last(nodes, v)].base)))
  {
    ListingSplits(nodes, w, v, Proc, LinesOf(nodes, w, v, Last(nodes, v)));
  }

  /** No process is listed twice, and smaller numbers come first. */
  lemma PidsIncrease(w: World, i: nat, j: nat)
    requires i < j < |Pids(w)|
    ensures Pids(w)[i] < Pids(w)[j]
  {
    SeenSorted(w, MAX_PID + 1);
  }

  lemma {:induction false} SeenSorted(w: World, n: nat)
    ensures forall i, j :: 0 <= i < j < |Seen(w, n)| ==> Seen(w, n)[i] < Seen(w, n)[j]
  {
    if n > 0 {
      SeenSorted(w, n - 1);
      var ids := Seen(w, n - 1);
      forall i | 0 <= i < |ids| ensures ids[i] < n - 1 { SeenMembers(w, n - 1, ids[i]); }
    }
  }

  /** The by-name directory lists a process, by number and command name, exactly when it is among the first 1024 visible ones. */
  lemma NameListed(nodes: seq<Snode>, w: World, v: Pfsnode, pid: Pid)
    requires EndsIn(nodes, v, ProcName) && pid in w.procs
    ensures Lists(nodes, w, v, ProcDirName(pid, w.procs[pid])) <==> w.pidMemory && Visible(w, pid) && |Seen(w, pid)| < MAX_PROCS
  {
    var name := ProcDirName(pid, w.procs[pid]);
    DecimalReadsBack(pid);
    assert name[0] == Decimal(pid)[0];
    var lines, ids := LinesOf(nodes, w, v, Last(nodes, v)), Pids(w);
    NumberListedIff(nodes, w, v, ProcName, name, lines);
    PidsMembers(w, pid);
    if i :| 0 <= i < |lines| && lines[i].entry.name == name {
      PidRange(w, ids[i]);
      DirNameInjective(ids[i], w.procs[ids[i]], pid, w.procs[pid]);
    }
    if pid in ids {
      var i :| 0 <= i < |ids| && ids[i] == pid;
      assert lines[i].entry.name == name;
    }
  }

  // ---------- callers without access ----------

  /**
   A directory that belongs to a process is listed to a caller only if they have access to the
   process; a caller without it is shown an empty directory that is over at once.
   */
  lemma ListedToWhomItMay(nodes: seq<Snode>, w: World, v: Pfsnode, pos: nat, room: nat)
    requires KidsAreNodes(nodes, v) && room > 0
    ensures v.id.pid == NO_PID || Visible(w, v.id.pid) ==> R.Shown(Children(nodes, w, v), Allowed(w, v)) == R.Listing(Children(nodes, w, v))
    ensures v.id.pid != NO_PID && w.check && !Visible(w, v.id.pid) ==>
              && R.Answer(R.Shown(Children(nodes, w, v), Allowed(w, v)), 0, pos, room) == R.Reply([], 0)
              && R.AtEnd(Children(nodes, w, v), Allowed(w, v), pos, room)
              && !R.Breaks(Children(nodes, w, v), Allowed(w, v), pos, room)
  {
  }
}
