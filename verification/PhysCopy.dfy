/**
 Reading a process's memory through its page map and the physical aperture: the word-at-a-time copy
 loop shared by the cmdline and mem nodes, and the read loop of the mem node.
 */
module PhysCopy {
  type Byte = x: nat | x < 256
  type Bytes = seq<Byte>

  /** `pages` maps virtual page numbers to physical ones; 0 or no entry means not resident. */
  datatype Machine = Machine(pageSize: nat, pages: map<nat, nat>, phys: nat -> Byte)

  /** Addresses have 64 bits; sums beyond them wrap. */
  const WORD: nat := 0x1_0000_0000_0000_0000

  /** Pages hold whole words, and the address space whole pages. */
  predicate Sane(m: Machine) { m.pageSize > 0 && m.pageSize % 4 == 0 && WORD % m.pageSize == 0 }

  const EIO := 5
  const ESRCH := 3
  const ENOMEM := 12
  const EOPNOTSUPP := 102

  // ---------- what a byte of user memory is ----------

  /** `pmap_find_phys` of an address, given before it wraps. */
  function FindPhys(m: Machine, va: nat): nat
    requires m.pageSize > 0
  {
    var page := va % WORD / m.pageSize;
    if page in m.pages then m.pages[page] else 0
  }

  predicate Resident(m: Machine, va: nat)
    requires m.pageSize > 0
  {
    FindPhys(m, va) != 0
  }

  function UserByte(m: Machine, va: nat): Byte
    requires m.pageSize > 0
  {
    m.phys(FindPhys(m, va) * m.pageSize + va % WORD % m.pageSize)
  }

  ghost function UserBytes(m: Machine, va: nat, len: nat): (r: Bytes)
    requires m.pageSize > 0
    ensures |r| == len
    decreases len
  {
    if len == 0 then [] else UserBytes(m, va, len - 1) + [UserByte(m, va + len - 1)]
  }

  lemma {:induction false} UserBytesAt(m: Machine, va: nat, len: nat, k: nat)
    requires m.pageSize > 0 && k < len
    ensures UserBytes(m, va, len)[k] == UserByte(m, va + k)
    decreases len
  {
    if k < len - 1 { UserBytesAt(m, va, len - 1, k); }
  }

  /** How many of the next `len` bytes come before the first one that is not resident. */
  ghost function Prefix(m: Machine, va: nat, len: nat): (r: nat)
    requires m.pageSize > 0
    ensures r <= len
    ensures forall a :: va <= a < va + r ==> Resident(m, a)
    ensures r < len ==> !Resident(m, va + r)
    decreases len
  {
    if len == 0 || !Resident(m, va) then 0 else 1 + Prefix(m, va + 1, len - 1)
  }

  lemma PrefixUnique(m: Machine, va: nat, len: nat, r: nat)
    requires m.pageSize > 0 && r <= len
    requires forall a :: va <= a < va + r ==> Resident(m, a)
    requires r < len ==> !Resident(m, va + r)
    ensures Prefix(m, va, len) == r
  {
  }

  // ---------- pages and words ----------

  lemma LessTimes(a: nat, b: nat, d: nat)
    requires a < b
    ensures a * d + d <= b * d
  {
    var e := b - a - 1;
    assert b * d == a * d + d + e * d by { assert b == a + 1 + e; }
  }

  lemma DivModUnique(x: nat, d: nat, q: nat, r: nat)
    requires d > 0 && r < d && x == q * d + r
    ensures x / d == q && x % d == r
  {
    var q', r' := x / d, x % d;
    assert x == q' * d + r' && 0 <= r' < d;
    if q' < q { LessTimes(q', q, d); }
    if q < q' { LessTimes(q, q', d); }
  }

  lemma QuotientLess(a: nat, b: nat, d: nat)
    requires a * d < b * d
    ensures a < b
  {
    assert (b - a) * d == b * d - a * d;
  }

  /** A page does not reach across the end of the address space. */
  lemma PageEnds(size: nat, w: nat)
    requires size > 0 && WORD % size == 0 && w < WORD
    ensures w / size * size + size <= WORD
  {
    var q, c := w / size, WORD / size;
    assert w == q * size + w % size && WORD == c * size;
    QuotientLess(q, c, size);
    LessTimes(q, c, size);
  }

  /** The byte at an offset into a page is the one at that offset into the frame the page is mapped to. */
  lemma ByteOfPage(m: Machine, page: nat, off: nat, va: nat)
    requires Sane(m) && off < m.pageSize && va == page * m.pageSize + off < WORD
    ensures Resident(m, va) <==> page in m.pages && m.pages[page] != 0
    ensures page in m.pages ==> UserByte(m, va) == m.phys(m.pages[page] * m.pageSize + off)
  {
    DivModUnique(va, m.pageSize, page, off);
  }

  /** Addresses wrap at 2^64. */
  lemma AddressesWrap(m: Machine, va: nat)
    requires Sane(m)
    ensures Resident(m, va + WORD) == Resident(m, va) && UserByte(m, va + WORD) == UserByte(m, va)
  {
    assert (va + WORD) % WORD == va % WORD;
  }

  /** Going on inside a page neither wraps nor leaves it. */
  lemma PageStep(size: nat, va: nat, i: nat)
    requires size > 0 && WORD % size == 0 && va % WORD % size + i < size
    ensures (va + i) % WORD == va % WORD + i
    ensures (va % WORD + i) / size == va % WORD / size && (va % WORD + i) % size == va % WORD % size + i
  {
    var w := va % WORD;
    assert w == w / size * size + w % size;
    PageEnds(size, w);
    DivModUnique(w + i, size, w / size, w % size + i);
  }

  /** Inside one page, translation is addition. */
  lemma SamePage(m: Machine, va: nat, i: nat)
    requires Sane(m) && va % WORD % m.pageSize + i < m.pageSize
    ensures FindPhys(m, va + i) == FindPhys(m, va)
    ensures UserByte(m, va + i) == m.phys(FindPhys(m, va) * m.pageSize + va % WORD % m.pageSize + i)
  {
    PageStep(m.pageSize, va, i);
  }

  /** `ml_phys_read`: the little-endian word at an aligned address. */
  function PhysRead(m: Machine, pa: nat): nat {
    var b0: nat, b1: nat, b2: nat, b3: nat := m.phys(pa), m.phys(pa + 1), m.phys(pa + 2), m.phys(pa + 3);
    b0 + 0x100 * b1 + 0x10000 * b2 + 0x1000000 * b3
  }

  function Shift(word: nat, shift: nat): nat {
    if shift == 0 then word else if shift == 8 then word / 0x100 else if shift == 16 then word / 0x10000 else word / 0x1000000
  }

  /** Shifting the word down by 8 bits per step and truncating yields its bytes in order. */
  lemma WordByte(m: Machine, pa: nat, b: nat)
    requires b < 4
    ensures Shift(PhysRead(m, pa), 8 * b) % 256 == m.phys(pa + b)
  {
    var b0: nat, b1: nat, b2: nat, b3: nat := m.phys(pa), m.phys(pa + 1), m.phys(pa + 2), m.phys(pa + 3);
    var w := PhysRead(m, pa);
    assert w / 0x100 == b1 + 0x100 * b2 + 0x10000 * b3;
    assert w / 0x10000 == b2 + 0x100 * b3;
    assert w / 0x1000000 == b3;
  }

  /** Copies one run of bytes that lies in one page, a word at a time. */
  method CopyChunk(m: Machine, pa: nat, dst: array<Byte>, done: nat, chunk: nat)
    requires done + chunk <= dst.Length
    modifies dst
    ensures forall k :: done <= k < done + chunk ==> dst[k] == m.phys(pa + (k - done))
    ensures forall k :: 0 <= k < dst.Length && !(done <= k < done + chunk) ==> dst[k] == old(dst[k])
  {
    var i := 0;
    while i < chunk
      invariant 0 <= i <= chunk
      invariant forall k :: done <= k < done + i ==> dst[k] == m.phys(pa + (k - done))
      invariant forall k :: 0 <= k < dst.Length && !(done <= k < done + i) ==> dst[k] == old(dst[k])
    {
      var cur := pa + i;
      var base := cur - cur % 4;
      var word := PhysRead(m, base);
      var b := cur % 4;
      ghost var i0 := i;
      while true
        invariant i0 <= i < chunk && b == cur % 4 + (i - i0) < 4
        invariant forall k :: done <= k < done + i ==> dst[k] == m.phys(pa + (k - done))
        invariant forall k :: 0 <= k < dst.Length && !(done <= k < done + i) ==> dst[k] == old(dst[k])
        decreases 4 - b
      {
        WordByte(m, base, b);
        dst[done + i] := Shift(word, 8 * b) % 256;
        b := b + 1;
        i := i + 1;
        if !(8 * b < 32 && i < chunk) {
          break;
        }
      }
    }
  }

  /**
   `procfs_copy_user_phys` and its twin `procfs_read_user_phys`: the longest resident prefix is
   copied, byte for byte, at any alignment, and nothing else in the destination changes.
   */
  method CopyUserPhys(m: Machine, uva: nat, dst: array<Byte>, len: nat) returns (done: nat)
    requires Sane(m) && len <= dst.Length
    modifies dst
    ensures done == Prefix(m, uva, len)
    ensures dst[..done] == UserBytes(m, uva, done)
    ensures forall k :: done <= k < dst.Length ==> dst[k] == old(dst[k])
  {
    done := 0;
    while done < len
      invariant 0 <= done <= len
      invariant forall a :: uva <= a < uva + done ==> Resident(m, a)
      invariant forall k :: 0 <= k < done ==> dst[k] == UserByte(m, uva + k)
      invariant forall k :: done <= k < dst.Length ==> dst[k] == old(dst[k])
    {
      var va := uva + done;
      var ppn := FindPhys(m, va);
      if ppn == 0 {
        break;
      }
      var off := va % WORD % m.pageSize;
      var pa := ppn * m.pageSize + off;
      var chunk := m.pageSize - off;
      if chunk > len - done {
        chunk := len - done;
      }
      CopyChunk(m, pa, dst, done, chunk);
      forall k | done <= k < done + chunk ensures dst[k] == UserByte(m, uva + k) { SamePage(m, va, k - done); }
      forall a | uva + done <= a < uva + done + chunk ensures Resident(m, a) { SamePage(m, va, a - va); }
      done := done + chunk;
    }
    PrefixUnique(m, uva, len, done);
    forall k | 0 <= k < done ensures dst[..done][k] == UserBytes(m, uva, done)[k] { UserBytesAt(m, uva, done, k); }
  }

  // ---------- the mem node ----------

  /** The caller's buffer: where the next byte goes, how much room is left, what has been written. */
  class Uio {
    var offset: nat
    var resid: nat
    var data: Bytes

    constructor (offset: nat, resid: nat)
      ensures this.offset == offset && this.resid == resid && data == []
    {
      this.offset, this.resid, data := offset, resid, [];
    }

    /** A successful `uiomove` of no more than there is room for. */
    method Write(bytes: Bytes)
      requires |bytes| <= resid
      modifies this
      ensures data == old(data) + bytes && offset == old(offset) + |bytes| && resid == old(resid) - |bytes|
    {
      data, offset, resid := data + bytes, offset + |bytes|, resid - |bytes|;
    }
  }

  /** What `procfs_domem` finds out before it starts reading. */
  datatype MemRequest = MemRequest(reading: bool, processExists: bool, access: int, hasPmap: bool, hasMemory: bool)

  function Refusal(q: MemRequest): int {
    if !q.reading then EOPNOTSUPP
    else if !q.processExists then ESRCH
    else if q.access != 0 then q.access
    else if !q.hasPmap then EIO
    else if !q.hasMemory then ENOMEM
    else 0
  }

  /** A read is refused for the first of these reasons that applies, and goes ahead if none does. */
  lemma WhyRefused(q: MemRequest)
    ensures Refusal(q) == 0 <==> q.reading && q.processExists && q.access == 0 && q.hasPmap && q.hasMemory
    ensures !q.reading ==> Refusal(q) == EOPNOTSUPP
    ensures q.reading && !q.processExists ==> Refusal(q) == ESRCH
    ensures q.reading && q.processExists && q.access != 0 ==> Refusal(q) == q.access
    ensures q.reading && q.processExists && q.access == 0 && !q.hasPmap ==> Refusal(q) == EIO
  {
  }

  lemma {:induction false} UserBytesJoin(m: Machine, va: nat, a: nat, b: nat)
    requires m.pageSize > 0
    ensures UserBytes(m, va, a) + UserBytes(m, va + a, b) == UserBytes(m, va, a + b)
    decreases b
  {
    if b > 0 {
      UserBytesJoin(m, va, a, b - 1);
      assert UserBytes(m, va, a + b) == UserBytes(m, va, a + (b - 1)) + [UserByte(m, va + a + b - 1)];
    }
  }

  /** One round of the loop: up to the end of the page or of the room, whichever comes first. */
  method ReadPage(m: Machine, buf: array<Byte>, uio: Uio) returns (got: nat, chunk: nat)
    requires Sane(m) && buf.Length == m.pageSize && uio.resid > 0
    modifies buf, uio
    ensures 0 < chunk <= old(uio.resid) && got == Prefix(m, old(uio.offset), chunk)
    ensures uio.data == old(uio.data) + UserBytes(m, old(uio.offset), got)
    ensures uio.offset == old(uio.offset) + got && uio.resid == old(uio.resid) - got
  {
    var va := uio.offset;
    chunk := m.pageSize - va % WORD % m.pageSize;
    if chunk > uio.resid {
      chunk := uio.resid;
    }
    got := CopyUserPhys(m, va, buf, chunk);
    uio.Write(buf[..got]);
  }

  /** A read that starts inside the resident prefix ends with it or with its own length. */
  lemma PrefixWindow(m: Machine, start: nat, room: nat, n: nat, chunk: nat)
    requires m.pageSize > 0 && n <= Prefix(m, start, room) && n + chunk <= room
    ensures Prefix(m, start + n, chunk) == (if chunk <= Prefix(m, start, room) - n then chunk else Prefix(m, start, room) - n)
  {
    var total := Prefix(m, start, room);
    PrefixUnique(m, start + n, chunk, if chunk <= total - n then chunk else total - n);
  }

  lemma Append(m: Machine, start: nat, before: Bytes, n: nat, got: nat, data: Bytes, data': Bytes)
    requires m.pageSize > 0
    requires data == before + UserBytes(m, start, n) && data' == data + UserBytes(m, start + n, got)
    ensures data' == before + UserBytes(m, start, n + got)
  {
    UserBytesJoin(m, start, n, got);
  }

  /** A round after `n` bytes of a read of `room` bytes at `start`. */
  method ReadOn(m: Machine, buf: array<Byte>, uio: Uio, ghost start: nat, ghost room: nat, ghost n: nat, ghost before: Bytes)
    returns (got: nat, chunk: nat)
    requires Sane(m) && buf.Length == m.pageSize && n <= Prefix(m, start, room) && n < room
    requires uio.offset == start + n && uio.resid == room - n && uio.data == before + UserBytes(m, start, n)
    modifies buf, uio
    ensures 0 < chunk <= room - n
    ensures got == if chunk <= Prefix(m, start, room) - n then chunk else Prefix(m, start, room) - n
    ensures uio.offset == start + n + got && uio.resid == room - n - got
    ensures uio.data == before + UserBytes(m, start, n + got)
  {
    ghost var data := uio.data;
    got, chunk := ReadPage(m, buf, uio);
    PrefixWindow(m, start, room, n, chunk);
    Append(m, start, before, n, got, data, uio.data);
  }

  /** The read loop of `procfs_domem`. */
  method ReadLoop(m: Machine, buf: array<Byte>, uio: Uio) returns (error: int)
    requires Sane(m) && buf.Length == m.pageSize
    modifies buf, uio
    ensures var n := Prefix(m, old(uio.offset), old(uio.resid));
            && uio.data == old(uio.data) + UserBytes(m, old(uio.offset), n)
            && uio.offset == old(uio.offset) + n && uio.resid == old(uio.resid) - n
            && error == (if old(uio.resid) > 0 && !Resident(m, old(uio.offset)) then EIO else 0)
  {
    error := 0;
    var any := false;
    ghost var start, room, before := uio.offset, uio.resid, uio.data;
    ghost var total := Prefix(m, start, room);
    ghost var n := 0;
    while uio.resid > 0
      invariant n <= total <= room && uio.offset == start + n && uio.resid == room - n
      invariant uio.data == before + UserBytes(m, start, n)
      invariant any <==> n > 0
    {
      var got, chunk := ReadOn(m, buf, uio, start, room, n, before);
      n := n + got;
      if got == 0 {
        if !any {
          error := EIO;
        }
        break;
      }
      any := true;
      if got < chunk {
        break;
      }
    }
    assert n == total;
  }

  /**
   `procfs_domem`: delivers exactly the bytes up to the first one that is not resident or the end of
   the caller's room, and reports EIO exactly when there is room and the very first byte is absent.
   */
  method Domem(m: Machine, q: MemRequest, uio: Uio) returns (error: int)
    requires Sane(m)
    modifies uio
    ensures Refusal(q) != 0 ==> error == Refusal(q) && uio.data == old(uio.data)
    ensures Refusal(q) == 0 ==>
              var n := Prefix(m, old(uio.offset), old(uio.resid));
              && uio.data == old(uio.data) + UserBytes(m, old(uio.offset), n)
              && uio.offset == old(uio.offset) + n && uio.resid == old(uio.resid) - n
              && error == (if old(uio.resid) > 0 && !Resident(m, old(uio.offset)) then EIO else 0)
  {
    if !q.reading { return EOPNOTSUPP; }
    if !q.processExists { return ESRCH; }
    if q.access != 0 { return q.access; }
    if !q.hasPmap { return EIO; }
    if !q.hasMemory { return ENOMEM; }
    var buf := new Byte[m.pageSize](_ => 0);
    error := ReadLoop(m, buf, uio);
  }
}
