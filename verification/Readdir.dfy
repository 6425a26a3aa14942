/**
 Directory listing by pages: every call walks the directory from its first entry, skips the entries
 that start before the caller's offset, and copies out as many of the others as fit.
 */
module Readdir {
  datatype Entry = Entry(name: string, ino: nat)

  datatype Dirent = Dirent(name: string, ino: nat, reclen: nat, seekoff: nat)

  const DIRENT_FIXED: nat := 24

  /** The packed size of an entry: the fixed part, the name and its terminator, rounded up to eight bytes. */
  function Size(e: Entry): (size: nat)
    ensures size % 8 == 0 && DIRENT_FIXED + |e.name| + 1 <= size <= DIRENT_FIXED + |e.name| + 8
  {
    DIRENT_FIXED + (|e.name| + 1 + 7) / 8 * 8
  }

  // ---------- offsets ----------

  /** Where entry `i` starts: the sizes of the entries before it. */
  function Off(es: seq<Entry>, i: nat): nat
    requires i <= |es|
  {
    if i == 0 then 0 else Off(es, i - 1) + Size(es[i - 1])
  }

  lemma {:induction false} OffGrows(es: seq<Entry>, i: nat, j: nat)
    requires i < j <= |es|
    ensures Off(es, i) + Size(es[i]) <= Off(es, j)
    decreases j
  {
    if i < j - 1 { OffGrows(es, i, j - 1); }
  }

  /** The first entry from `i` on that does not start before `pos`. */
  function Start(es: seq<Entry>, i: nat, pos: nat): (k: nat)
    requires i <= |es|
    ensures i <= k <= |es|
    decreases |es| - i
  {
    if i < |es| && Off(es, i) < pos then Start(es, i + 1, pos) else i
  }

  lemma {:induction false} StartSplits(es: seq<Entry>, i: nat, pos: nat, j: nat)
    requires i <= j < |es|
    ensures Off(es, j) >= pos <==> j >= Start(es, i, pos)
    decreases |es| - i
  {
    if i < |es| && Off(es, i) < pos {
      if i < j { StartSplits(es, i + 1, pos, j); }
    } else if i < j {
      OffGrows(es, i, j);
    }
  }

  /** Every offset handed out resumes at its own entry. */
  lemma StartOfOff(es: seq<Entry>, k: nat)
    requires k <= |es|
    ensures Start(es, 0, Off(es, k)) == k
  {
    var s := Start(es, 0, Off(es, k));
    if k < |es| { StartSplits(es, 0, Off(es, k), k); }
    if s < k {
      StartSplits(es, 0, Off(es, k), s);
      OffGrows(es, s, k);
    }
  }

  /** How far a run of entries from `k` goes within `room` bytes. */
  function Fit(es: seq<Entry>, k: nat, room: nat): (m: nat)
    requires k <= |es|
    ensures k <= m <= |es|
    decreases |es| - k
  {
    if k < |es| && Size(es[k]) <= room then Fit(es, k + 1, room - Size(es[k])) else k
  }

  /** The run is the longest that fits. */
  lemma {:induction false} FitIs(es: seq<Entry>, k: nat, room: nat, m: nat)
    requires k <= m <= |es| && Off(es, m) - Off(es, k) <= room
    requires m < |es| ==> Off(es, m + 1) - Off(es, k) > room
    ensures Fit(es, k, room) == m
    decreases |es| - k
  {
    if k < m {
      OffGrows(es, k, m);
      FitIs(es, k + 1, room - Size(es[k]), m);
    }
  }

  lemma {:induction false} FitUses(es: seq<Entry>, k: nat, room: nat)
    requires k <= |es|
    ensures var m := Fit(es, k, room);
            0 <= Off(es, m) - Off(es, k) <= room && (m < |es| ==> Off(es, m + 1) - Off(es, k) > room)
    decreases |es| - k
  {
    if k < |es| && Size(es[k]) <= room { FitUses(es, k + 1, room - Size(es[k])); }
  }

  function DirentAt(es: seq<Entry>, i: nat): Dirent
    requires i < |es|
  {
    Dirent(es[i].name, es[i].ino, Size(es[i]), Off(es, i + 1))
  }

  /** The records of entries `a` to `b`. */
  function Records(es: seq<Entry>, a: nat, b: nat): seq<Dirent>
    requires a <= b <= |es|
  {
    seq(b - a, i requires 0 <= i < b - a => DirentAt(es, a + i))
  }

  // ---------- one call ----------

  datatype Reply = Reply(out: seq<Dirent>, offset: nat)

  function Min(a: nat, b: nat): nat { if a <= b then a else b }

  /** What a call with `room` bytes at offset `pos` returns; the first `free` entries are visited even without room. */
  function Answer(es: seq<Entry>, free: nat, pos: nat, room: nat): Reply {
    var k := Start(es, 0, pos);
    if room == 0 then Reply([], Off(es, Min(k, free)))
    else var m := Fit(es, k, room); Reply(Records(es, k, m), Off(es, m))
  }

  /** The space a call leaves. */
  function Left(es: seq<Entry>, pos: nat, room: nat): int {
    var k := Start(es, 0, pos);
    room - (Off(es, Fit(es, k, room)) - Off(es, k))
  }

  /** The walk has come to entry `i`. */
  ghost predicate Progress(es: seq<Entry>, pos: nat, room: nat, i: nat, out: seq<Dirent>, resid: nat, nextpos: nat) {
    && i <= |es| && nextpos == Off(es, i)
    && var k := Start(es, 0, pos);
    if i <= k then out == [] && resid == room
    else out == Records(es, k, i) && resid + Off(es, i) - Off(es, k) == room
  }

  lemma Skip(es: seq<Entry>, pos: nat, room: nat, i: nat, out: seq<Dirent>, resid: nat, nextpos: nat)
    requires Progress(es, pos, room, i, out, resid, nextpos) && i < |es| && nextpos < pos
    ensures Progress(es, pos, room, i + 1, out, resid, nextpos + Size(es[i]))
  {
    StartSplits(es, 0, pos, i);
  }

  lemma Emit(es: seq<Entry>, pos: nat, room: nat, i: nat, out: seq<Dirent>, resid: nat, nextpos: nat)
    requires Progress(es, pos, room, i, out, resid, nextpos) && i < |es| && nextpos >= pos && Size(es[i]) <= resid
    ensures Progress(es, pos, room, i + 1, out + [DirentAt(es, i)], resid - Size(es[i]), nextpos + Size(es[i]))
  {
    StartSplits(es, 0, pos, i);
    var k := Start(es, 0, pos);
    assert Records(es, k, i + 1) == Records(es, k, i) + [DirentAt(es, i)];
    assert i == k ==> Records(es, k, i) == [];
  }

  /** A walk that stops before an entry that does not fit, or at the end, has the call's answer. */
  lemma Stop(es: seq<Entry>, free: nat, pos: nat, room: nat, i: nat, out: seq<Dirent>, resid: nat, nextpos: nat)
    requires Progress(es, pos, room, i, out, resid, nextpos) && room > 0
    requires i < |es| ==> (nextpos >= pos || resid == 0) && Size(es[i]) > resid
    ensures Answer(es, free, pos, room) == Reply(out, nextpos)
    ensures Fit(es, Start(es, 0, pos), room) == i && Left(es, pos, room) == resid
  {
    var k := Start(es, 0, pos);
    if i < |es| { StartSplits(es, 0, pos, i); }
    FitIs(es, k, room, i);
    assert i == k ==> Records(es, k, i) == [];
  }

  // ---------- the directory ----------

  /** A child of the directory: a plain entry, the processes, the threads or descriptors, or threads or descriptors of a process that is gone. */
  datatype Child = Leaf(entry: Entry) | Procs(entries: seq<Entry>) | Subs(entries: seq<Entry>) | Gone

  /** The entries a walk can come to: nothing follows the first child that is not plain. */
  function Listing(cs: seq<Child>): seq<Entry> {
    if cs == [] then []
    else
      match cs[0]
      case Leaf(e) => [e] + Listing(cs[1..])
      case Procs(es) => es
      case Subs(es) => es
      case Gone => []
  }

  function Leaves(cs: seq<Child>): nat {
    if cs == [] || !cs[0].Leaf? then 0 else 1 + Leaves(cs[1..])
  }

  /** The first child that is not plain, if any, after the plain ones. */
  lemma {:induction false} ListingAt(cs: seq<Child>, i: nat)
    requires i <= |cs| && forall j :: 0 <= j < i ==> cs[j].Leaf?
    ensures i <= |Listing(cs)| && Listing(cs)[i..] == Listing(cs[i..])
    ensures Leaves(cs) == i + Leaves(cs[i..])
  {
    if i > 0 {
      ListingAt(cs[1..], i - 1);
      assert cs[1..][i - 1..] == cs[i..];
    }
  }

  /** The directory's plain children, then at most one list of processes. */
  predicate Closed(cs: seq<Child>) {
    var n := Leaves(cs); n == |cs| || (n == |cs| - 1 && cs[n].Procs?)
  }

  /** End of file: everything has been walked past; a closing empty process list must have been looked at. */
  predicate AtEnd(cs: seq<Child>, allowed: bool, pos: nat, room: nat) {
    if room == 0 then cs == []
    else if !allowed then true
    else
      var es, n := Listing(cs), Leaves(cs);
      && Fit(es, Start(es, 0, pos), room) == |es| && Closed(cs)
      && (Left(es, pos, room) > 0 || !(n < |cs| && cs[n] == Procs([])))
  }

  /** The walk comes to the threads or descriptors of a process that is gone. */
  predicate Breaks(cs: seq<Child>, allowed: bool, pos: nat, room: nat) {
    && room > 0 && allowed
    && var es, n := Listing(cs), Leaves(cs);
    && n < |cs| && cs[n].Gone? && Fit(es, Start(es, 0, pos), room) == |es| && Left(es, pos, room) > 0
  }

  function Shown(cs: seq<Child>, allowed: bool): seq<Entry> { if allowed then Listing(cs) else [] }

  /** The caller's buffer: the space left, the offset and the records copied out by this call. */
  class Uio {
    var resid: nat
    var offset: nat
    var out: seq<Dirent>

    constructor (resid: nat, offset: nat)
      ensures this.resid == resid && this.offset == offset && out == []
    {
      this.resid, this.offset, out := resid, offset, [];
    }

    /** Copies a record out if there is room for all of it; the result is its size, or zero. */
    method CopyOut(e: Entry, seekoff: nat) returns (size: nat)
      modifies this
      ensures Size(e) <= old(resid) ==>
                size == Size(e) && resid == old(resid) - size && out == old(out) + [Dirent(e.name, e.ino, size, seekoff)]
      ensures Size(e) > old(resid) ==> size == 0 && resid == old(resid) && out == old(out)
    {
      size := Size(e);
      if size <= resid {
        out := out + [Dirent(e.name, e.ino, size, seekoff)];
        resid, offset := resid - size, offset + size;
      } else {
        size := 0;
      }
    }
  }

  /** One entry of the walk: skipped, copied out, or left because it does not fit. */
  method Visit(u: Uio, e: Entry, pos: nat, from: nat, ghost es: seq<Entry>, ghost i: nat, ghost room: nat)
    returns (nextpos: nat, fits: bool)
    requires Progress(es, pos, room, i, u.out, u.resid, from) && i < |es| && es[i] == e
    modifies u
    ensures fits ==> Progress(es, pos, room, i + 1, u.out, u.resid, nextpos)
    ensures !fits ==> Progress(es, pos, room, i, u.out, u.resid, nextpos) && nextpos >= pos && Size(e) > u.resid
  {
    if from >= pos {
      if Size(e) <= u.resid { Emit(es, pos, room, i, u.out, u.resid, from); }
      var size := u.CopyOut(e, from + Size(e));
      if size == 0 { return from, false; }
    } else {
      Skip(es, pos, room, i, u.out, u.resid, from);
    }
    return from + Size(e), true;
  }

  /** The inner loop over processes, threads or descriptors. */
  method CopyRun(u: Uio, run: seq<Entry>, pos: nat, from: nat, ghost es: seq<Entry>, ghost i: nat, ghost room: nat)
    returns (nextpos: nat, exhausted: bool, ghost j: nat)
    requires Progress(es, pos, room, i, u.out, u.resid, from) && es[i..] == run && room > 0
    modifies u
    ensures Answer(es, 0, pos, room) == Reply(u.out, nextpos) && i <= j
    ensures Fit(es, Start(es, 0, pos), room) == j && Left(es, pos, room) == u.resid
    ensures exhausted <==> j == |es|
    ensures run == [] ==> u.resid == old(u.resid)
  {
    nextpos := from;
    for x := 0 to |run|
      invariant Progress(es, pos, room, i + x, u.out, u.resid, nextpos)
      invariant run == [] ==> u.resid == old(u.resid)
    {
      var fits;
      nextpos, fits := Visit(u, run[x], pos, nextpos, es, i + x, room);
      if !fits {
        Stop(es, 0, pos, room, i + x, u.out, u.resid, nextpos);
        return nextpos, false, i + x;
      }
    }
    exhausted, j := true, |es|;
    Stop(es, 0, pos, room, j, u.out, u.resid, nextpos);
  }

  lemma DynamicAt(cs: seq<Child>, i: nat)
    requires i < |cs| && !cs[i].Leaf? && forall j :: 0 <= j < i ==> cs[j].Leaf?
    ensures Leaves(cs) == i <= |Listing(cs)|
    ensures Listing(cs)[i..] == if cs[i].Gone? then [] else cs[i].entries
  {
    ListingAt(cs, i);
    assert cs[i..][0] == cs[i];
  }

  lemma LeafAt(cs: seq<Child>, i: nat)
    requires i < |cs| && cs[i].Leaf? && forall j :: 0 <= j < i ==> cs[j].Leaf?
    ensures i < |Listing(cs)| && Listing(cs)[i] == cs[i].entry
  {
    ListingAt(cs, i);
    assert cs[i..][0] == cs[i];
    assert Listing(cs)[i] == Listing(cs)[i..][0];
  }

  /** The loop ends at the last child, or for want of space. */
  lemma WalkedOut(cs: seq<Child>, pos: nat, room: nat, i: nat, out: seq<Dirent>, resid: nat, nextpos: nat)
    requires i <= |cs| && forall j :: 0 <= j < i ==> cs[j].Leaf?
    requires Progress(Listing(cs), pos, room, i, out, resid, nextpos) && (i == |cs| || resid == 0) && (room == 0 ==> i == 0)
    ensures Answer(Listing(cs), 0, pos, room) == Reply(out, nextpos)
    ensures (i == |cs| <==> AtEnd(cs, true, pos, room)) && !Breaks(cs, true, pos, room)
  {
    ListingAt(cs, i);
    if room > 0 { Stop(Listing(cs), 0, pos, room, i, out, resid, nextpos); }
    if i < |cs| && !cs[i].Leaf? { DynamicAt(cs, i); }
    if i < |cs| && cs[i].Leaf? { LeafAt(cs, i); }
  }

  /** The walk has come, with space left, to a child that is not plain; it ends there. */
  method WalkDynamic(cs: seq<Child>, u: Uio, i: nat, pos: nat, from: nat, ghost room: nat)
    returns (last: nat, nextpos: nat, gone: bool)
    requires i < |cs| && !cs[i].Leaf? && forall j :: 0 <= j < i ==> cs[j].Leaf?
    requires Progress(Listing(cs), pos, room, i, u.out, u.resid, from) && u.resid > 0 && room > 0
    modifies u
    ensures Reply(u.out, nextpos) == Answer(Listing(cs), 0, pos, room)
    ensures last <= |cs| && (last == |cs| <==> AtEnd(cs, true, pos, room))
    ensures gone <==> Breaks(cs, true, pos, room)
  {
    DynamicAt(cs, i);
    if cs[i].Gone? {
      Stop(Listing(cs), 0, pos, room, i, u.out, u.resid, from);
      return i, from, true;
    }
    var exhausted;
    ghost var j;
    nextpos, exhausted, j := CopyRun(u, cs[i].entries, pos, from, Listing(cs), i, room);
    return if cs[i].Procs? && exhausted then i + 1 else i, nextpos, false;
  }

  /** The walk over the directory's children: where it stops, the offset there, and whether a process was missing. */
  method Walk(cs: seq<Child>, u: Uio) returns (i: nat, nextpos: nat, gone: bool)
    requires u.out == []
    modifies u
    ensures Reply(u.out, nextpos) == Answer(Listing(cs), 0, old(u.offset), old(u.resid))
    ensures i <= |cs| && (i == |cs| <==> AtEnd(cs, true, old(u.offset), old(u.resid)))
    ensures gone <==> Breaks(cs, true, old(u.offset), old(u.resid))
  {
    var pos := u.offset;
    ghost var room, es := u.resid, Listing(cs);
    nextpos, i, gone := 0, 0, false;
    while i < |cs| && u.resid > 0
      invariant i <= |cs| && (room == 0 ==> i == 0 && u.resid == 0)
      invariant forall j :: 0 <= j < i ==> cs[j].Leaf?
      invariant Progress(es, pos, room, i, u.out, u.resid, nextpos)
    {
      if !cs[i].Leaf? {
        i, nextpos, gone := WalkDynamic(cs, u, i, pos, nextpos, room);
        return;
      }
      LeafAt(cs, i);
      var fits;
      nextpos, fits := Visit(u, cs[i].entry, pos, nextpos, es, i, room);
      if !fits {
        Stop(es, 0, pos, room, i, u.out, u.resid, nextpos);
        return;
      }
      i := i + 1;
    }
    WalkedOut(cs, pos, room, i, u.out, u.resid, nextpos);
  }

  /** One readdir call. */
  method Readdir(cs: seq<Child>, allowed: bool, u: Uio) returns (eof: bool, numentries: nat, gone: bool)
    requires u.out == []
    modifies u
    ensures Reply(u.out, u.offset) == Answer(Shown(cs, allowed), 0, old(u.offset), old(u.resid))
    ensures eof <==> AtEnd(cs, allowed, old(u.offset), old(u.resid))
    ensures gone <==> Breaks(cs, allowed, old(u.offset), old(u.resid))
    ensures numentries == |u.out|
  {
    var i, nextpos := 0, 0;
    if allowed {
      i, nextpos, gone := Walk(cs, u);
    } else {
      gone := false;
      while i < |cs| && u.resid > 0
        invariant i <= |cs| && (u.resid == 0 ==> i == 0)
      {
        i := i + 1;
      }
    }
    u.offset := nextpos;
    eof, numentries := i == |cs|, |u.out|;
  }
}
