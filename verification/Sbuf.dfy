/** The string buffer as it is stored: a backing buffer, a size, a length and flags, on a heap whose allocations are tracked. */
module Sbuf {
  import opened Options
  import opened SbufSpec

  /** The kernel allocator. Only what is live can be freed, so every free in this module is the only one of its block. */
  class Heap {
    const page: nat
    ghost var live: set<object>

    constructor (page: nat)
      requires page >= MIN_EXTEND
      ensures this.page == page && live == {}
    {
      this.page, live := page, {};
    }

    method Alloc(size: nat, ok: bool) returns (b: array?<char>)
      modifies this
      ensures !ok ==> b == null && live == old(live)
      ensures ok ==> b != null && fresh(b) && b.Length == size && live == old(live) + {b}
    {
      if !ok { return null; }
      b := new char[size](_ => '\0');
      live := live + {b};
    }

    method Free(o: object)
      requires o in live
      modifies this
      ensures live == old(live) - {o}
    {
      live := live - {o};
    }
  }

  /** `sbuf_extendsize` */
  method ExtendSize(target: nat, page: nat) returns (r: Option<nat>)
    requires page >= MIN_EXTEND
    ensures r == if target > INT_MAX || Rounded(target, page) > INT_MAX then None else Some(Rounded(target, page))
  {
    if target > INT_MAX { return None; }
    var size;
    if target < page {
      size := MIN_EXTEND;
      while size < target
        invariant size > 0 && Doubled(size, target) == Doubled(MIN_EXTEND, target)
      {
        size := size * 2;
      }
    } else {
      size := (target + page - 1) / page * page;
    }
    return if size > INT_MAX then None else Some(size);
  }

  /** `vsnprintf`: at most `room` characters and a terminator are written; the result is the whole length. */
  method Format(dst: array<char>, at: nat, room: nat, text: string) returns (n: nat)
    requires at + room < dst.Length
    modifies dst
    ensures n == |text| && dst[..at] == old(dst[..at])
    ensures n <= room ==> dst[at..at + n] == text
  {
    var k := if |text| <= room then |text| else room;
    forall i | 0 <= i < k { dst[at + i] := text[i]; }
    dst[at + k] := '\0';
    n := |text|;
    assert n <= room ==> dst[at..at + n] == text;
  }

  class Sbuf {
    const heap: Heap
    var buf: array?<char>
    var size: nat
    var len: nat
    var auto: bool
    var dynamic: bool
    var dynstruct: bool
    var finished: bool
    var overflowed: bool

    /** A structure with nothing in it. */
    constructor (heap: Heap)
      ensures this.heap == heap && Blank(false)
    {
      this.heap, buf, size, len := heap, null, 0, 0;
      auto, dynamic, dynstruct, finished, overflowed := false, false, false, false, false;
    }

    ghost predicate Blank(auto: bool)
      reads this
    {
      buf == null && size == 0 && len == 0 && this.auto == auto && !dynamic && !finished && !overflowed
    }

    /** The allocations the buffer owns. */
    ghost function Mine(): set<object>
      reads this
    {
      (if dynamic && buf != null then {buf as object} else {}) + (if dynstruct then {this as object} else {})
    }

    ghost predicate Valid()
      reads this, heap
    {
      && heap.page >= MIN_EXTEND
      && buf != null && size <= buf.Length && len < size <= INT_MAX
      && (dynamic <==> buf in heap.live) && (dynstruct <==> this in heap.live)
    }

    ghost function V(): View
      requires Valid()
      reads this, heap, buf
    {
      View(buf[..len], size, auto, overflowed, finished)
    }

    /** What other holders of the heap have. */
    ghost function Others(): set<object>
      reads this, heap
    {
      heap.live - Mine()
    }

    /** `sbuf_extend`: a larger buffer with the same bytes; the old one is freed if it came from the heap. */
    method Extend(addlen: nat, ok: bool) returns (done: bool)
      requires Valid() && addlen > 0
      modifies this, heap
      ensures Valid() && Others() == old(Others()) && dynstruct == old(dynstruct) && (buf == old(buf) || fresh(buf))
      ensures var target := old(size) + addlen;
              done <==> old(auto) && target <= INT_MAX && Rounded(target, heap.page) <= INT_MAX && ok
      ensures V() == if done then old(V()).(size := Rounded(old(size) + addlen, heap.page)) else old(V())
      ensures !done ==> buf == old(buf)
    {
      if !auto { return false; }
      if size + addlen >= 0x1_0000_0000_0000_0000 { return false; }
      var newSize := ExtendSize(size + addlen, heap.page);
      if newSize.None? { return false; }
      var newBuf := heap.Alloc(newSize.value, ok);
      if newBuf == null { return false; }
      RoundedCovers(size + addlen, heap.page);
      forall i | 0 <= i < size { newBuf[i] := buf[i]; }
      assert newBuf[..len] == buf[..len];
      if dynamic {
        heap.Free(buf);
      } else {
        dynamic := true;
      }
      buf, size := newBuf, newSize.value;
      return true;
    }

    /** `sbuf_ensure_capacity`, with the capacity left beside the reserved byte. */
    method EnsureCapacity(wanted: nat, ok: bool) returns (done: bool)
      requires Valid()
      modifies this, heap
      ensures Valid() && Others() == old(Others()) && dynstruct == old(dynstruct) && (buf == old(buf) || fresh(buf))
      ensures done <==> Grown(old(V()), wanted, ok, heap.page).Some?
      ensures V() == if done then old(V()).(size := Grown(old(V()), wanted, ok, heap.page).value) else old(V())
    {
      var capacity := size - len - 1;
      if capacity >= wanted { return true; }
      done := Extend(wanted - capacity, ok);
    }

    method Bcat(data: string, ok: bool) returns (done: bool)
      requires Valid()
      modifies this, heap, buf
      ensures Valid() && Others() == old(Others()) && dynstruct == old(dynstruct) && (buf == old(buf) || fresh(buf))
      ensures done == Succeeds(old(V()), Append(data, ok), heap.page)
      ensures V() == Apply(old(V()), Append(data, ok), heap.page)
    {
      if overflowed { return false; }
      ghost var before := V();
      var room := EnsureCapacity(|data|, ok);
      if !room {
        overflowed := true;
        return false;
      }
      GrownHoldsWanted(before, |data|, ok, heap.page);
      forall i | 0 <= i < |data| { buf[len + i] := data[i]; }
      len := len + |data|;
      assert buf[..len] == before.text + data;
      return true;
    }

    /** One formatting attempt behind the text: it counts only if the whole output fitted. */
    method FormatOnce(output: string) returns (fitted: bool)
      requires Valid()
      modifies this`len, buf
      ensures Valid() && (fitted <==> |output| <= old(size) - old(len) - 1)
      ensures V() == if fitted then old(V()).(text := old(V()).text + output) else old(V())
    {
      var capacity := size - len - 1;
      ghost var before := buf[..len];
      var n := Format(buf, len, capacity, output);
      if n <= capacity {
        assert buf[..len + n] == before + output;
        len := len + n;
        return true;
      }
      return false;
    }

    /** `sbuf_vprintf`; `rounds` counts how often the arguments were formatted. */
    method Vprintf(output: Option<string>, ok: bool) returns (done: bool, rounds: nat)
      requires Valid()
      modifies this, heap, buf
      ensures Valid() && Others() == old(Others()) && dynstruct == old(dynstruct) && (buf == old(buf) || fresh(buf))
      ensures done == Succeeds(old(V()), Print(output, ok), heap.page)
      ensures V() == Apply(old(V()), Print(output, ok), heap.page)
      ensures rounds <= 2
    {
      rounds := 0;
      if overflowed { return false, 0; }
      if output.None? { return false, 1; }
      ghost var before, wanted := V(), |output.value|;
      while true
        invariant Valid() && Others() == old(Others()) && dynstruct == old(dynstruct) && (buf == old(buf) || fresh(buf))
        invariant rounds == 0 ==> V() == before
        invariant rounds > 0 ==> rounds == 1 && Grown(before, wanted, ok, heap.page).Some? && wanted <= size - len - 1
        invariant rounds > 0 ==> V() == before.(size := Grown(before, wanted, ok, heap.page).value)
        decreases 1 - rounds
      {
        var fitted := FormatOnce(output.value);
        rounds := rounds + 1;
        if fitted { return true, rounds; }
        var room := EnsureCapacity(|output.value|, ok);
        if !room {
          overflowed := true;
          return false, rounds;
        }
        GrownHoldsWanted(before, wanted, ok, heap.page);
      }
    }

    method Putc(c: char, ok: bool) returns (done: bool)
      requires Valid()
      modifies this, heap, buf
      ensures Valid() && Others() == old(Others()) && dynstruct == old(dynstruct) && (buf == old(buf) || fresh(buf))
      ensures done == Succeeds(old(V()), Put(c, ok), heap.page)
      ensures V() == Apply(old(V()), Put(c, ok), heap.page)
    {
      if overflowed { return false; }
      ghost var before := V();
      var room := EnsureCapacity(1, ok);
      if !room {
        overflowed := true;
        return false;
      }
      GrownHoldsWanted(before, 1, ok, heap.page);
      if c != '\0' {
        buf[len] := c;
        len := len + 1;
      }
      assert buf[..len] == before.text + Added(Put(c, ok));
      return true;
    }

    method TrimSpace() returns (done: bool)
      requires Valid()
      modifies this`len
      ensures Valid() && done == Succeeds(old(V()), Trim, heap.page) && V() == Apply(old(V()), Trim, heap.page)
    {
      if overflowed { return false; }
      while len > 0 && Space(buf[len - 1])
        invariant Valid() && Trimmed(buf[..len]) == Trimmed(old(buf[..len]))
      {
        assert buf[..len][..len - 1] == buf[..len - 1];
        len := len - 1;
      }
      return true;
    }

    method Setpos(pos: int) returns (done: bool)
      requires Valid()
      modifies this`len
      ensures Valid() && done == Succeeds(old(V()), SetPos(pos), heap.page) && V() == Apply(old(V()), SetPos(pos), heap.page)
    {
      if pos < 0 || pos > len { return false; }
      assert buf[..len][..pos] == buf[..pos];
      len := pos;
      return true;
    }

    method Reset()
      requires Valid()
      modifies this`len, this`finished, this`overflowed
      ensures Valid() && V() == Apply(old(V()), Clear, heap.page)
    {
      finished, overflowed := false, false;
      var _ := Setpos(0);
    }

    /** The terminator goes into the reserved byte. */
    method Terminate()
      requires Valid()
      modifies this`finished, this`overflowed, buf
      ensures Valid() && V() == Apply(old(V()), Finish, heap.page) && buf[len] == '\0'
    {
      buf[len] := '\0';
      overflowed, finished := false, true;
    }

    /** `sbuf_delete`: everything the buffer owns is freed, and nothing else. */
    method Delete()
      requires Mine() <= heap.live
      modifies this, heap
      ensures heap.live == old(Others())
    {
      if dynamic && buf != null {
        heap.Free(buf);
        buf := null;
      }
      if dynstruct { heap.Free(this); }
    }

    method Perform(op: Op) returns (done: bool)
      requires Valid()
      modifies this, heap, buf
      ensures Valid() && Others() == old(Others()) && dynstruct == old(dynstruct) && (buf == old(buf) || fresh(buf))
      ensures done == Succeeds(old(V()), op, heap.page) && V() == Apply(old(V()), op, heap.page)
    {
      match op
      case Append(data, ok) => done := Bcat(data, ok);
      case Print(output, ok) => var rounds; done, rounds := Vprintf(output, ok);
      case Put(c, ok) => done := Putc(c, ok);
      case Trim => done := TrimSpace();
      case SetPos(pos) => done := Setpos(pos);
      case Clear => Reset(); done := true;
      case Finish => Terminate(); done := true;
    }
  }

  /** The size a new buffer gets. */
  function InitialSize(given: bool, length: nat, auto: bool, page: nat): nat
    requires page > 0
  {
    if !given && auto then Rounded(length, page) else length
  }

  /** When `sbuf_new` succeeds. */
  predicate Creates(length: int, userFlags: bool, given: bool, auto: bool, okStruct: bool, okBuf: bool, page: nat)
    requires page > 0
  {
    && 0 <= length <= INT_MAX && userFlags && okStruct
    && (!given ==> okBuf && 0 < InitialSize(given, length, auto, page) <= INT_MAX)
  }

  /** The structure: the caller's, cleared, or a new one on the heap. */
  method NewStructure(heap: Heap, s0: Sbuf?, auto: bool, ok: bool) returns (s: Sbuf?)
    requires s0 != null ==> s0.heap == heap && s0 !in heap.live
    modifies heap, s0
    ensures s != null <==> s0 != null || ok
    ensures s == null ==> heap.live == old(heap.live)
    ensures s != null ==> (if s0 != null then s == s0 else fresh(s)) && s.heap == heap && s.Blank(auto)
    ensures s != null ==> (s.dynstruct <==> s0 == null) && s !in old(heap.live)
    ensures s != null ==> heap.live == if s0 == null then old(heap.live) + {s} else old(heap.live)
  {
    if s0 != null {
      s := s0;
      s.buf, s.size, s.len := null, 0, 0;
      s.auto, s.dynamic, s.dynstruct, s.finished, s.overflowed := auto, false, false, false, false;
    } else if ok {
      s := new Sbuf(heap);
      heap.live := heap.live + {s};
      s.auto, s.dynstruct := auto, true;
    } else {
      s := null;
    }
  }

  /** The buffer of a structure that was given none. */
  method NewBuffer(heap: Heap, s: Sbuf, length: nat, okBuf: bool) returns (done: bool)
    requires heap.page >= MIN_EXTEND && s.heap == heap && s.Blank(s.auto) && length <= INT_MAX
    requires s.dynstruct <==> s in heap.live
    modifies heap, s
    ensures s.heap == heap && s.dynstruct == old(s.dynstruct)
    ensures done <==> okBuf && 0 < InitialSize(false, length, old(s.auto), heap.page) <= INT_MAX
    ensures !done ==> s.Blank(old(s.auto)) && heap.live == old(heap.live)
    ensures done ==> s.buf != null && fresh(s.buf) && heap.live == old(heap.live) + {s.buf}
    ensures done ==> s.dynamic && s.Valid() && s.V() == View("", InitialSize(false, length, old(s.auto), heap.page), old(s.auto), false, false)
  {
    var size := length;
    if s.auto {
      RoundedCovers(length, heap.page);
      var r := ExtendSize(length, heap.page);
      if r.None? { return false; }
      size := r.value;
    }
    if size == 0 { return false; }
    var b := heap.Alloc(size, okBuf);
    if b == null { return false; }
    s.buf, s.size, s.dynamic := b, size, true;
    return true;
  }

  /** `sbuf_new`: `s0` is the caller's structure or null, `buf` the caller's buffer or null. */
  method New(heap: Heap, s0: Sbuf?, buf: array?<char>, length: int, auto: bool, userFlags: bool, okStruct: bool, okBuf: bool)
    returns (s: Sbuf?)
    requires heap.page >= MIN_EXTEND
    requires s0 != null ==> s0.heap == heap && s0 !in heap.live
    requires buf != null ==> buf !in heap.live && length <= buf.Length
    modifies heap, s0
    ensures s != null <==> Creates(length, userFlags, buf != null, auto, s0 != null || okStruct, okBuf, heap.page)
    ensures s == null ==> heap.live == old(heap.live)
    ensures s != null ==> (if s0 != null then s == s0 else fresh(s)) && s.heap == heap && s.Others() == old(heap.live)
    ensures s != null ==> s.Mine() <= heap.live && s.Mine() !! old(heap.live)
    ensures s != null ==> (buf != null ==> s.buf == buf) && (buf == null ==> fresh(s.buf))
    ensures s != null ==> (s.Valid() <==> buf == null || length > 0)
    ensures s != null && s.Valid() ==> s.V() == View("", InitialSize(buf != null, length, auto, heap.page), auto, false, false)
  {
    if length < 0 || length > INT_MAX || !userFlags { return null; }
    s := NewStructure(heap, s0, auto, okStruct);
    if s == null { return null; }
    if buf != null {
      s.size, s.buf := length, buf;
      return s;
    }
    var done := NewBuffer(heap, s, length, okBuf);
    if !done {
      s.Delete();
      return null;
    }
  }

  /** A whole life: creation, any sequence of calls, deletion. What was on the heap before is on the heap afterwards. */
  method Session(heap: Heap, buf: array?<char>, length: nat, auto: bool, ops: seq<Op>, okStruct: bool, okBuf: bool)
    returns (text: string)
    requires heap.page >= MIN_EXTEND
    requires buf != null ==> buf !in heap.live && 0 < length <= buf.Length
    modifies heap, buf
    ensures heap.live == old(heap.live)
    ensures !Creates(length, true, buf != null, auto, okStruct, okBuf, heap.page) ==> text == ""
    ensures Creates(length, true, buf != null, auto, okStruct, okBuf, heap.page) ==>
              var v := View("", InitialSize(buf != null, length, auto, heap.page), auto, false, false);
              Fits(v) && text == ApplyAll(v, ops, heap.page).text
  {
    var s := New(heap, null, buf, length, auto, true, okStruct, okBuf);
    if s == null { return ""; }
    ghost var first := s.V();
    for i := 0 to |ops|
      invariant fresh(s) && s.heap == heap && s.Valid() && s.Others() == old(heap.live)
      invariant s.buf == buf || fresh(s.buf)
      invariant ApplyAll(first, ops, heap.page) == ApplyAll(s.V(), ops[i..], heap.page)
    {
      var _ := s.Perform(ops[i]);
    }
    text := s.buf[..s.len];
    s.Delete();
  }
}
