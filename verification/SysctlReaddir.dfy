/** Listing a /proc/sys directory: the two dot entries, then one entry per named child of the sysctl node. */
module SysctlReaddir {
  import opened Options
  import T = SysctlTree
  import opened Readdir

  /** The entries of the children, each with the file id of its oid. */
  function Entries(kids: seq<T.Oid>, fileid: nat -> nat): (es: seq<Entry>)
    requires forall o :: o in kids ==> o.name.Some?
    ensures |es| == |kids|
    ensures forall i :: 0 <= i < |kids| ==> es[i] == Entry(kids[i].name.value, fileid(kids[i].addr))
  {
    seq(|kids|, i requires 0 <= i < |kids| => Entry(kids[i].name.value, fileid(kids[i].addr)))
  }

  /** The directory's listing; both dot entries carry the directory's own file id. */
  function SysctlListing(d: T.Dir, self: nat, fileid: nat -> nat): seq<Entry>
    requires T.Children(d).Some?
  {
    var kids := T.Named(T.Children(d).value);
    [Entry(".", self), Entry("..", self)] + (NamedHaveNames(T.Children(d).value); Entries(kids, fileid))
  }

  lemma NamedHaveNames(list: seq<T.Oid>)
    ensures forall o :: o in T.Named(list) ==> o.name.Some?
  {
    forall o | o in T.Named(list) ensures o.name.Some? { T.NamedMembers(list, o); }
  }

  ghost predicate Matches(es: seq<Entry>, kids: seq<T.Oid>, fileid: nat -> nat) {
    && |es| == |kids|
    && forall i :: 0 <= i < |kids| ==> kids[i].name.Some? && es[i] == Entry(kids[i].name.value, fileid(kids[i].addr))
  }

  lemma ListingMatches(d: T.Dir, self: nat, fileid: nat -> nat)
    requires T.Children(d).Some?
    ensures var es := SysctlListing(d, self, fileid);
            && |es| >= 2 && es[0] == Entry(".", self) && es[1] == Entry("..", self)
            && Matches(es[2..], T.Named(T.Children(d).value), fileid)
  {
    var kids := T.Named(T.Children(d).value);
    NamedHaveNames(T.Children(d).value);
    assert SysctlListing(d, self, fileid)[2..] == Entries(kids, fileid);
  }

  /** End of file: the child list has been walked to its end with space to spare. */
  predicate SysctlAtEnd(es: seq<Entry>, pos: nat, room: nat) {
    room > 0 && Fit(es, Start(es, 0, pos), room) == |es| && Left(es, pos, room) > 0
  }

  /** A walk without space stops at the caller's offset or after the dot entries. */
  lemma NoRoom(es: seq<Entry>, pos: nat, i: nat, out: seq<Dirent>, resid: nat, nextpos: nat)
    requires Progress(es, pos, 0, i, out, resid, nextpos) && i <= 2 <= |es|
    requires i == 2 || nextpos >= pos
    ensures Answer(es, 2, pos, 0) == Reply(out, nextpos)
  {
    var k := Start(es, 0, pos);
    if i < |es| { StartSplits(es, 0, pos, i); }
    if k < i { OffGrows(es, k, i); }
  }

  method DotEntries(u: Uio, self: nat, pos: nat, ghost es: seq<Entry>, ghost room: nat)
    returns (nextpos: nat, done: bool)
    requires u.out == [] && u.resid == room && |es| >= 2 && es[0] == Entry(".", self) && es[1] == Entry("..", self)
    modifies u
    ensures done ==> Progress(es, pos, room, 2, u.out, u.resid, nextpos)
    ensures !done ==> Answer(es, 2, pos, room) == Reply(u.out, nextpos) && !SysctlAtEnd(es, pos, room)
  {
    nextpos := 0;
    for d := 0 to 2
      invariant Progress(es, pos, room, d, u.out, u.resid, nextpos)
    {
      var fits;
      nextpos, fits := Visit(u, Entry(if d == 0 then "." else "..", self), pos, nextpos, es, d, room);
      if !fits {
        if room == 0 {
          NoRoom(es, pos, d, u.out, u.resid, nextpos);
        } else {
          Stop(es, 2, pos, room, d, u.out, u.resid, nextpos);
        }
        return nextpos, false;
      }
    }
    done := true;
  }

  /** The entry of the child at `index`, if there is one. */
  method ChildEntry(d: T.Dir, fileid: nat -> nat, index: nat, ghost es: seq<Entry>) returns (e: Option<Entry>)
    requires T.Children(d).Some? && |es| >= 2 && Matches(es[2..], T.Named(T.Children(d).value), fileid)
    ensures e == if index + 2 < |es| then Some(es[index + 2]) else None
  {
    var child := T.ChildAt(d, index);
    if child.None? { return None; }
    assert es[2..][index] == es[index + 2];
    return Some(Entry(child.value.name.value, fileid(child.value.addr)));
  }

  /** The entries of the children, by index, until the space or the list ends. */
  method ChildEntries(d: T.Dir, fileid: nat -> nat, u: Uio, pos: nat, from: nat, ghost es: seq<Entry>, ghost room: nat)
    returns (nextpos: nat, eof: bool)
    requires T.Children(d).Some? && |es| >= 2 && room > 0
    requires Matches(es[2..], T.Named(T.Children(d).value), fileid)
    requires Progress(es, pos, room, 2, u.out, u.resid, from)
    modifies u
    ensures Answer(es, 2, pos, room) == Reply(u.out, nextpos) && (eof <==> SysctlAtEnd(es, pos, room))
  {
    var index := 0;
    nextpos, eof := from, false;
    while u.resid > 0
      invariant index + 2 <= |es| && Progress(es, pos, room, index + 2, u.out, u.resid, nextpos)
      decreases |es| - index
    {
      var e := ChildEntry(d, fileid, index, es);
      if e.None? {
        eof := true;
        break;
      }
      var fits;
      nextpos, fits := Visit(u, e.value, pos, nextpos, es, index + 2, room);
      if !fits { break; }
      index := index + 1;
    }
    Stop(es, 2, pos, room, index + 2, u.out, u.resid, nextpos);
  }

  method SysctlReaddir(d: T.Dir, self: nat, fileid: nat -> nat, u: Uio) returns (eof: bool, numentries: nat)
    requires T.Children(d).Some? && u.out == []
    modifies u
    ensures Reply(u.out, u.offset) == Answer(SysctlListing(d, self, fileid), 2, old(u.offset), old(u.resid))
    ensures eof <==> SysctlAtEnd(SysctlListing(d, self, fileid), old(u.offset), old(u.resid))
    ensures numentries == |u.out|
  {
    var pos := u.offset;
    ghost var room, es := u.resid, SysctlListing(d, self, fileid);
    ListingMatches(d, self, fileid);
    var nextpos, done := DotEntries(u, self, pos, es, room);
    eof := false;
    if done {
      if u.resid > 0 {
        nextpos, eof := ChildEntries(d, fileid, u, pos, nextpos, es, room);
      } else if room == 0 {
        NoRoom(es, pos, 2, u.out, u.resid, nextpos);
      } else {
        Stop(es, 2, pos, room, 2, u.out, u.resid, nextpos);
      }
    }
    u.offset := nextpos;
    numentries := |u.out|;
  }

  /** A listed child of a sysctl directory is found under its name, with the file id listed, as long as siblings have different names. */
  lemma SysctlListedIsFound(d: T.Dir, self: nat, fileid: nat -> nat, i: nat)
    requires T.Children(d).Some? && T.DistinctNames(T.Children(d).value)
    requires 2 <= i < |SysctlListing(d, self, fileid)|
    ensures var e, r := SysctlListing(d, self, fileid)[i], T.First(T.Children(d).value, SysctlListing(d, self, fileid)[i].name);
            r.Some? && r.value == T.Named(T.Children(d).value)[i - 2] && fileid(r.value.addr) == e.ino
  {
    var list := T.Children(d).value;
    var kids, es := T.Named(list), SysctlListing(d, self, fileid);
    ListingMatches(d, self, fileid);
    assert es[2..][i - 2] == es[i];
    T.NamedMembers(list, kids[i - 2]);
    T.FirstOfDistinct(list, kids[i - 2]);
  }

  /** Every named child is listed, with the file id of its oid; a child without a name is not, so that nothing else is. */
  lemma SysctlListsChildren(d: T.Dir, self: nat, fileid: nat -> nat, o: T.Oid)
    requires T.Children(d).Some? && o in T.Children(d).value && o.name.Some?
    ensures Entry(o.name.value, fileid(o.addr)) in SysctlListing(d, self, fileid)[2..]
    ensures |SysctlListing(d, self, fileid)| == 2 + |T.Named(T.Children(d).value)|
  {
    var list := T.Children(d).value;
    var kids, es := T.Named(list), SysctlListing(d, self, fileid);
    ListingMatches(d, self, fileid);
    T.NamedMembers(list, o);
    var i :| 0 <= i < |kids| && kids[i] == o;
    assert es[2..][i] == Entry(o.name.value, fileid(o.addr));
  }

  /** The end is reported only when nothing is left, and by the call after everything has been read. */
  lemma SysctlEnds(es: seq<Entry>, pos: nat, room: nat)
    ensures SysctlAtEnd(es, pos, room) ==> Answer(es, 2, pos, room).offset == Off(es, |es|)
    ensures room > 0 ==> SysctlAtEnd(es, Off(es, |es|), room)
  {
    StartOfOff(es, |es|);
  }
}
