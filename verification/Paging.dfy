/** What a chain of readdir calls sees of an unchanging directory. */
module Paging {
  import opened Readdir

  /** The calls of a reader that always passes on the offset it was given: all records, and the last offset. */
  function Chain(es: seq<Entry>, free: nat, pos: nat, rooms: seq<nat>): Reply
    decreases |rooms|
  {
    if rooms == [] then Reply([], pos)
    else
      var first := Answer(es, free, pos, rooms[0]);
      var rest := Chain(es, free, first.offset, rooms[1..]);
      Reply(first.out + rest.out, rest.offset)
  }

  /** How far the chain gets. */
  function Reached(es: seq<Entry>, k: nat, rooms: seq<nat>): (m: nat)
    requires k <= |es|
    ensures k <= m <= |es|
    decreases |rooms|
  {
    if rooms == [] then k else Reached(es, Fit(es, k, rooms[0]), rooms[1..])
  }

  lemma RecordsSplit(es: seq<Entry>, a: nat, b: nat, c: nat)
    requires a <= b <= c <= |es|
    ensures Records(es, a, b) + Records(es, b, c) == Records(es, a, c)
  {
  }

  /** As long as no call comes without space, the pages put together are the listing from where the reader began:
      in order, with nothing lost and nothing repeated. */
  lemma {:induction false} PagesAreListing(es: seq<Entry>, free: nat, k: nat, rooms: seq<nat>)
    requires k <= |es| && forall i :: 0 <= i < |rooms| ==> rooms[i] > 0
    ensures Chain(es, free, Off(es, k), rooms)
         == Reply(Records(es, k, Reached(es, k, rooms)), Off(es, Reached(es, k, rooms)))
    decreases |rooms|
  {
    if rooms != [] {
      StartOfOff(es, k);
      var m := Fit(es, k, rooms[0]);
      PagesAreListing(es, free, m, rooms[1..]);
      RecordsSplit(es, k, m, Reached(es, m, rooms[1..]));
    } else {
      assert Records(es, k, k) == [];
    }
  }

  /** Every call has space for at least the next entry, if there is one. */
  ghost predicate Roomy(es: seq<Entry>, k: nat, rooms: seq<nat>)
    requires k <= |es|
    decreases |rooms|
  {
    rooms != [] ==>
      rooms[0] > 0 && (k < |es| ==> Size(es[k]) <= rooms[0]) && Roomy(es, Fit(es, k, rooms[0]), rooms[1..])
  }

  lemma {:induction false} EachCallAdvances(es: seq<Entry>, k: nat, rooms: seq<nat>)
    requires k <= |es| && Roomy(es, k, rooms)
    ensures Reached(es, k, rooms) >= Min(k + |rooms|, |es|)
    ensures forall i :: 0 <= i < |rooms| ==> rooms[i] > 0
    decreases |rooms|
  {
    if rooms != [] { EachCallAdvances(es, Fit(es, k, rooms[0]), rooms[1..]); }
  }

  /** Paged listing equals the one-shot listing, after at most one call per entry. */
  lemma PagedEqualsOneShot(es: seq<Entry>, free: nat, rooms: seq<nat>, room: nat)
    requires Roomy(es, 0, rooms) && |rooms| >= |es| && room > 0 && room >= Off(es, |es|)
    ensures Chain(es, free, 0, rooms).out == Answer(es, free, 0, room).out
    ensures |Answer(es, free, 0, room).out| == |es|
    ensures forall i :: 0 <= i < |es| ==>
              var d := Answer(es, free, 0, room).out[i]; d.name == es[i].name && d.ino == es[i].ino && d.reclen == Size(es[i])
  {
    EachCallAdvances(es, 0, rooms);
    PagesAreListing(es, free, 0, rooms);
    StartOfOff(es, 0);
    FitIs(es, 0, room, |es|);
  }

  /** A page that starts at entry `k` holds the entries from there on, as many as fit whole and no fewer. */
  lemma PageIsFull(es: seq<Entry>, free: nat, k: nat, room: nat)
    requires k <= |es| && room > 0
    ensures var r := Answer(es, free, Off(es, k), room); var m := k + |r.out|;
            && m <= |es| && r.offset == Off(es, m) && Off(es, m) - Off(es, k) <= room
            && (m < |es| ==> Off(es, m) + Size(es[m]) - Off(es, k) > room)
            && (forall j :: k <= j < m ==> r.out[j - k].name == es[j].name && r.out[j - k].ino == es[j].ino)
  {
    StartOfOff(es, k);
    FitUses(es, k, room);
    var m := Fit(es, k, room);
    assert m < |es| ==> Off(es, m + 1) == Off(es, m) + Size(es[m]);
    forall j | k <= j < m ensures Records(es, k, m)[j - k].name == es[j].name && Records(es, k, m)[j - k].ino == es[j].ino {
      assert Records(es, k, m)[j - k] == DirentAt(es, j);
    }
  }

  /** A record's seek offset is where the next entry starts: resuming there goes on with the next entry. */
  lemma SeekoffResumes(es: seq<Entry>, free: nat, i: nat, room: nat)
    requires i < |es| && room > 0
    ensures var next := DirentAt(es, i).seekoff;
            && next == Off(es, i) + DirentAt(es, i).reclen
            && Answer(es, free, next, room).out == Records(es, i + 1, Fit(es, i + 1, room))
  {
    StartOfOff(es, i + 1);
  }

  /** A call without space loses the reader's place, unless that place is among the entries visited for free. */
  lemma NoSpaceRewinds(es: seq<Entry>, free: nat, k: nat, room: nat)
    requires k <= |es|
    ensures Answer(es, free, Off(es, k), room).offset >= Off(es, k) <==> room > 0 || k <= free
  {
    StartOfOff(es, k);
    if room > 0 {
      FitUses(es, k, room);
    } else if k > free {
      OffGrows(es, free, k);
    }
  }

  // ---------- end of file ----------

  /** All entries of the directory's children. */
  function AllEntries(cs: seq<Child>): seq<Entry> {
    if cs == [] then []
    else
      (match cs[0]
       case Leaf(e) => [e]
       case Procs(es) => es
       case Subs(es) => es
       case Gone => []) + AllEntries(cs[1..])
  }

  /** A directory whose dynamic child, if any, is the last one lists all its entries. */
  lemma {:induction false} DynamicLastListsAll(cs: seq<Child>)
    requires Leaves(cs) >= |cs| - 1
    ensures Listing(cs) == AllEntries(cs)
  {
    if cs != [] && cs[0].Leaf? {
      DynamicLastListsAll(cs[1..]);
    } else if cs != [] {
      assert cs[1..] == [];
    }
  }

  /** End of file is never reported while an entry remains at or after the returned offset. */
  lemma EofIsTheEnd(cs: seq<Child>, pos: nat, room: nat)
    requires AtEnd(cs, true, pos, room)
    ensures Listing(cs) == AllEntries(cs)
    ensures Answer(Listing(cs), 0, pos, room).offset == Off(AllEntries(cs), |AllEntries(cs)|)
  {
    DynamicLastListsAll(cs);
  }

  /** A reader of a directory of plain entries and processes that never comes without space is told of the end by its
      next call once it has everything. */
  lemma ClosedDirectoryEnds(cs: seq<Child>, room: nat)
    requires Closed(cs) && room > 0
    ensures AtEnd(cs, true, Off(Listing(cs), |Listing(cs)|), room)
  {
    var es := Listing(cs);
    StartOfOff(es, |es|);
  }

  /** A directory that lists threads or descriptors never reports its end. */
  lemma {:induction false} SubsNeverEnd(cs: seq<Child>, n: nat, pos: nat, room: nat)
    requires n < |cs| && cs[n].Subs?
    ensures !AtEnd(cs, true, pos, room)
  {
    LeavesBefore(cs, n);
  }

  lemma {:induction false} LeavesBefore(cs: seq<Child>, n: nat)
    requires n < |cs| && !cs[n].Leaf?
    ensures Leaves(cs) <= n
  {
    if n > 0 && cs[0].Leaf? { LeavesBefore(cs[1..], n - 1); }
  }
}
