/**
 The flattened argument region of a process: finding where its argv, environment and apple strings
 begin, and the proof that this inverts the layout the kernel wrote.
 */
module ProcArgs {
  import opened Options
  import opened PhysCopy

  /** "executable_path=" */
  const KEY: Bytes := [101, 120, 101, 99, 117, 116, 97, 98, 108, 101, 95, 112, 97, 116, 104, 61]

  const CMDLINE_MAX := 262144
  const EINVAL := 22

  // ---------- what the scanning loops find ----------

  /** The first NUL at or after `pos`, or the end of the buffer. */
  function NulFrom(buf: Bytes, pos: nat): (r: nat)
    requires pos <= |buf|
    ensures pos <= r <= |buf|
    decreases |buf| - pos
  {
    if pos == |buf| || buf[pos] == 0 then pos else NulFrom(buf, pos + 1)
  }

  /** The first byte at or after `pos` that is not NUL, or the end of the buffer. */
  function NonNulFrom(buf: Bytes, pos: nat): (r: nat)
    requires pos <= |buf|
    ensures pos <= r <= |buf|
    decreases |buf| - pos
  {
    if pos == |buf| || buf[pos] != 0 then pos else NonNulFrom(buf, pos + 1)
  }

  /** Just past the string at `pos` and its terminator, if it has one. */
  function NextString(buf: Bytes, pos: nat): (r: nat)
    requires pos <= |buf|
    ensures pos <= r <= |buf|
  {
    var z := NulFrom(buf, pos);
    if z < |buf| then z + 1 else z
  }

  function ArgvOff(buf: Bytes): (r: nat)
    ensures r <= |buf|
  {
    var z := NulFrom(buf, 0);
    if z < |buf| then NonNulFrom(buf, z + 1) else z
  }

  function EnvOff(buf: Bytes, pos: nat, argc: nat): (r: nat)
    requires pos <= |buf|
    ensures pos <= r <= |buf|
    decreases argc
  {
    if argc == 0 || pos == |buf| then pos else EnvOff(buf, NextString(buf, pos), argc - 1)
  }

  predicate KeyAt(buf: Bytes, pos: nat, key: Bytes)
    requires pos <= |buf|
  {
    |buf| - pos >= |key| && buf[pos..pos + |key|] == key
  }

  /** The first string at or after `scan` that begins with the key, or the end of the buffer. */
  function AppleOff(buf: Bytes, scan: nat, key: Bytes): (r: nat)
    requires scan <= |buf|
    ensures scan <= r <= |buf|
    decreases |buf| - scan
  {
    if scan == |buf| then |buf|
    else if KeyAt(buf, scan, key) then scan
    else
      var z := NulFrom(buf, scan);
      if z == |buf| then |buf| else AppleOff(buf, z + 1, key)
  }

  method Strnlen(buf: Bytes, pos: nat) returns (len: nat)
    requires pos <= |buf|
    ensures pos + len == NulFrom(buf, pos)
  {
    len := 0;
    while pos + len < |buf| && buf[pos + len] != 0
      invariant pos + len <= |buf| && NulFrom(buf, pos) == NulFrom(buf, pos + len)
    {
      len := len + 1;
    }
  }

  /** Past the path, its NUL and the alignment padding. */
  method SkipPath(buf: Bytes) returns (pos: nat)
    ensures pos == ArgvOff(buf)
  {
    pos := Strnlen(buf, 0);
    if pos < |buf| {
      pos := pos + 1;
      ghost var from := pos;
      while pos < |buf| && buf[pos] == 0
        invariant from <= pos <= |buf| && NonNulFrom(buf, from) == NonNulFrom(buf, pos)
      {
        pos := pos + 1;
      }
    }
  }

  /** Past up to `argc` strings. */
  method SkipArgs(buf: Bytes, start: nat, argc: nat) returns (pos: nat)
    requires start <= |buf|
    ensures pos == EnvOff(buf, start, argc)
  {
    pos := start;
    var got := 0;
    while got < argc && pos < |buf|
      invariant 0 <= got <= argc && start <= pos <= |buf|
      invariant EnvOff(buf, start, argc) == EnvOff(buf, pos, argc - got)
    {
      var remaining := |buf| - pos;
      var arglen := Strnlen(buf, pos);
      if arglen < remaining {
        arglen := arglen + 1;
      }
      pos := pos + arglen;
      got := got + 1;
    }
  }

  method FindApple(buf: Bytes, start: nat, key: Bytes) returns (apple: nat)
    requires start <= |buf|
    ensures apple == AppleOff(buf, start, key)
  {
    apple := |buf|;
    var scan := start;
    while scan < |buf|
      invariant start <= scan <= |buf| && apple == |buf|
      invariant AppleOff(buf, start, key) == AppleOff(buf, scan, key)
    {
      var remaining := |buf| - scan;
      if remaining >= |key| && buf[scan..scan + |key|] == key {
        apple := scan;
        break;
      }
      var slen := Strnlen(buf, scan);
      if slen == remaining {
        break;
      }
      scan := scan + slen + 1;
    }
  }

  /** The cursor of `procfs_read_procargs` (lines 187 to 224). */
  method Parse(buf: Bytes, argc: nat) returns (argvOff: nat, envOff: nat, appleOff: nat)
    ensures argvOff == ArgvOff(buf) && envOff == EnvOff(buf, argvOff, argc) && appleOff == AppleOff(buf, envOff, KEY)
    ensures argvOff <= envOff <= appleOff <= |buf|
  {
    argvOff := SkipPath(buf);
    envOff := SkipArgs(buf, argvOff, argc);
    appleOff := FindApple(buf, envOff, KEY);
  }

  // ---------- the layout ----------

  datatype Region = Region(path: Bytes, pad: nat, argv: seq<Bytes>, env: seq<Bytes>, apple: seq<Bytes>)

  predicate NulFree(s: Bytes) { forall i :: 0 <= i < |s| ==> s[i] != 0 }

  predicate AllNulFree(ss: seq<Bytes>) { forall i :: 0 <= i < |ss| ==> NulFree(ss[i]) }

  predicate HasKey(s: Bytes, key: Bytes) { |s| >= |key| && s[..|key|] == key }

  predicate WellFormed(g: Region) {
    && NulFree(g.path) && AllNulFree(g.argv) && AllNulFree(g.env) && AllNulFree(g.apple)
    && |g.argv| > 0 && (g.apple != [] ==> HasKey(g.apple[0], KEY))
  }

  /** The strings one after the other, each with its terminator. */
  function Flat(ss: seq<Bytes>): Bytes {
    if ss == [] then [] else ss[0] + [0] + Flat(ss[1..])
  }

  function Zeros(n: nat): Bytes { if n == 0 then [] else [0] + Zeros(n - 1) }

  function Head(g: Region): Bytes { g.path + [0] + Zeros(g.pad) }

  function Encode(g: Region): Bytes { Head(g) + Flat(g.argv) + Flat(g.env) + Flat(g.apple) }

  // ---------- scanning a laid-out region ----------

  /** The string `s` and its terminator stand at `pos`. */
  predicate StringAt(buf: Bytes, pos: nat, s: Bytes) {
    pos + |s| < |buf| && buf[pos + |s|] == 0 && forall i :: 0 <= i < |s| ==> buf[pos + i] == s[i]
  }

  predicate StringsAt(buf: Bytes, pos: nat, ss: seq<Bytes>)
    decreases |ss|
  {
    ss != [] ==> StringAt(buf, pos, ss[0]) && StringsAt(buf, pos + |ss[0]| + 1, ss[1..])
  }

  lemma {:induction false} NulFromAt(buf: Bytes, pos: nat, z: nat)
    requires pos <= z < |buf| && buf[z] == 0 && forall k :: pos <= k < z ==> buf[k] != 0
    ensures NulFrom(buf, pos) == z
    decreases z - pos
  {
    if pos < z { NulFromAt(buf, pos + 1, z); }
  }

  lemma NulFromString(buf: Bytes, pos: nat, s: Bytes)
    requires StringAt(buf, pos, s) && NulFree(s)
    ensures NulFrom(buf, pos) == pos + |s|
  {
    forall k | pos <= k < pos + |s| ensures buf[k] != 0 {
      assert buf[pos + (k - pos)] == s[k - pos];
    }
    NulFromAt(buf, pos, pos + |s|);
  }

  lemma {:induction false} NonNulFromAt(buf: Bytes, pos: nat, z: nat)
    requires pos <= z < |buf| && forall k :: pos <= k < z ==> buf[k] == 0
    ensures buf[z] != 0 ==> NonNulFrom(buf, pos) == z
    ensures buf[z] == 0 ==> NonNulFrom(buf, pos) > z
    decreases z - pos
  {
    if pos < z { NonNulFromAt(buf, pos + 1, z); }
  }

  lemma {:induction false} EnvOffSkips(buf: Bytes, pos: nat, ss: seq<Bytes>)
    requires AllNulFree(ss) && StringsAt(buf, pos, ss) && pos + |Flat(ss)| <= |buf|
    ensures EnvOff(buf, pos, |ss|) == pos + |Flat(ss)|
    decreases |ss|
  {
    if ss != [] {
      NulFromString(buf, pos, ss[0]);
      EnvOffSkips(buf, pos + |ss[0]| + 1, ss[1..]);
    }
  }

  /** At the start of a terminated string, the key matches exactly when the string has it. */
  lemma KeyAtString(buf: Bytes, pos: nat, s: Bytes, key: Bytes)
    requires StringAt(buf, pos, s) && NulFree(key)
    ensures KeyAt(buf, pos, key) <==> HasKey(s, key)
  {
    if |s| < |key| <= |buf| - pos {
      assert buf[pos..pos + |key|][|s|] == buf[pos + |s|];
      assert key[|s|] != 0;
    } else if |key| <= |s| {
      assert buf[pos..pos + |key|] == s[..|key|];
    }
  }

  ghost predicate NoKey(ss: seq<Bytes>, key: Bytes) { forall i :: 0 <= i < |ss| ==> !HasKey(ss[i], key) }

  lemma NoKeyTail(ss: seq<Bytes>, key: Bytes)
    requires ss != []
    ensures NoKey(ss, key) <==> !HasKey(ss[0], key) && NoKey(ss[1..], key)
  {
    if !HasKey(ss[0], key) && NoKey(ss[1..], key) {
      forall i | 0 <= i < |ss| ensures !HasKey(ss[i], key) {
        if i > 0 { assert ss[1..][i - 1] == ss[i]; }
      }
    }
    if NoKey(ss, key) {
      forall i | 0 <= i < |ss[1..]| ensures !HasKey(ss[1..][i], key) { assert ss[1..][i] == ss[i + 1]; }
    }
  }

  /** One round of the scan over a terminated string. */
  lemma AppleOffStep(buf: Bytes, pos: nat, s: Bytes, key: Bytes)
    requires StringAt(buf, pos, s) && NulFree(s) && NulFree(key)
    ensures AppleOff(buf, pos, key) == (if HasKey(s, key) then pos else AppleOff(buf, pos + |s| + 1, key))
  {
    NulFromString(buf, pos, s);
    KeyAtString(buf, pos, s, key);
  }

  /** The scan passes over strings without the key and stops inside strings one of which has it. */
  lemma {:induction false} AppleOffScan(buf: Bytes, pos: nat, ss: seq<Bytes>, key: Bytes)
    requires AllNulFree(ss) && NulFree(key) && StringsAt(buf, pos, ss) && pos + |Flat(ss)| <= |buf|
    ensures NoKey(ss, key) ==> AppleOff(buf, pos, key) == AppleOff(buf, pos + |Flat(ss)|, key)
    ensures !NoKey(ss, key) ==> AppleOff(buf, pos, key) < pos + |Flat(ss)|
    decreases |ss|
  {
    if ss != [] {
      AppleOffStep(buf, pos, ss[0], key);
      NoKeyTail(ss, key);
      AppleOffScan(buf, pos + |ss[0]| + 1, ss[1..], key);
    }
  }

  lemma {:induction false} FlatStands(buf: Bytes, pos: nat, ss: seq<Bytes>)
    requires pos + |Flat(ss)| <= |buf| && buf[pos..pos + |Flat(ss)|] == Flat(ss)
    ensures StringsAt(buf, pos, ss)
    decreases |ss|
  {
    if ss != [] {
      var s, f, rest := ss[0], Flat(ss), Flat(ss[1..]);
      assert f == s + [0] + rest;
      assert buf[pos..pos + |f|][|s|] == buf[pos + |s|] == 0;
      forall i | 0 <= i < |s| ensures buf[pos + i] == s[i] { assert buf[pos..pos + |f|][i] == f[i]; }
      assert buf[pos + |s| + 1..pos + |f|] == buf[pos..pos + |f|][|s| + 1..] == rest;
      FlatStands(buf, pos + |s| + 1, ss[1..]);
    }
  }

  lemma KeyNulFree()
    ensures NulFree(KEY)
  {
  }

  lemma {:induction false} ZerosAreZero(n: nat)
    ensures |Zeros(n)| == n && forall i :: 0 <= i < n ==> Zeros(n)[i] == 0
  {
    if n > 0 { ZerosAreZero(n - 1); }
  }

  lemma Sections(head: Bytes, a: Bytes, b: Bytes, c: Bytes)
    ensures var buf := head + a + b + c;
            && buf[|head|..|head| + |a|] == a && buf[|head| + |a|..|head| + |a| + |b|] == b && buf[|head| + |a| + |b|..] == c
  {
  }

  lemma ArgvOffOfLayout(g: Region)
    requires WellFormed(g)
    ensures g.argv[0] != [] ==> ArgvOff(Encode(g)) == |Head(g)|
    ensures g.argv[0] == [] ==> ArgvOff(Encode(g)) > |Head(g)|
  {
    var buf := Encode(g);
    ZerosAreZero(g.pad);
    assert Head(g) <= buf;
    assert forall k :: 0 <= k < |Head(g)| ==> buf[k] == Head(g)[k];
    assert StringAt(buf, 0, g.path);
    NulFromString(buf, 0, g.path);
    assert buf[|Head(g)|] == Flat(g.argv)[0] == if g.argv[0] != [] then g.argv[0][0] else 0;
    NonNulFromAt(buf, |g.path| + 1, |Head(g)|);
  }

  /** The offset of the environment in the region. */
  function EnvStart(g: Region): nat { |Head(g)| + |Flat(g.argv)| }

  lemma StandsIn(pre: Bytes, ss: seq<Bytes>, rest: Bytes)
    ensures StringsAt(pre + Flat(ss) + rest, |pre|, ss)
  {
    assert (pre + Flat(ss) + rest)[|pre|..|pre| + |Flat(ss)|] == Flat(ss);
    FlatStands(pre + Flat(ss) + rest, |pre|, ss);
  }

  lemma ArgvStands(g: Region)
    ensures StringsAt(Encode(g), |Head(g)|, g.argv)
  {
    StandsIn(Head(g), g.argv, Flat(g.env) + Flat(g.apple));
    assert Head(g) + Flat(g.argv) + (Flat(g.env) + Flat(g.apple)) == Encode(g);
  }

  lemma EnvStands(g: Region)
    ensures StringsAt(Encode(g), EnvStart(g), g.env)
  {
    StandsIn(Head(g) + Flat(g.argv), g.env, Flat(g.apple));
  }

  lemma AppleStands(g: Region)
    ensures StringsAt(Encode(g), EnvStart(g) + |Flat(g.env)|, g.apple)
  {
    StandsIn(Head(g) + Flat(g.argv) + Flat(g.env), g.apple, []);
    assert Encode(g) + [] == Encode(g);
  }

  lemma EnvOffOfLayout(g: Region)
    requires WellFormed(g)
    ensures EnvOff(Encode(g), |Head(g)|, |g.argv|) == EnvStart(g)
  {
    ArgvStands(g);
    EnvOffSkips(Encode(g), |Head(g)|, g.argv);
  }

  /** Two lists of strings up to the end of the buffer, the second beginning with the key. */
  lemma AppleOffBetween(buf: Bytes, start: nat, env: seq<Bytes>, apple: seq<Bytes>, key: Bytes)
    requires AllNulFree(env) && NulFree(key) && (apple != [] ==> NulFree(apple[0]) && HasKey(apple[0], key))
    requires StringsAt(buf, start, env) && StringsAt(buf, start + |Flat(env)|, apple)
    requires start + |Flat(env)| + |Flat(apple)| == |buf|
    ensures AppleOff(buf, start, key) == start + |Flat(env)| <==> NoKey(env, key)
  {
    AppleOffScan(buf, start, env, key);
    if apple != [] { AppleOffStep(buf, start + |Flat(env)|, apple[0], key); }
  }

  lemma AppleOffOfLayout(g: Region)
    requires WellFormed(g)
    ensures AppleOff(Encode(g), EnvStart(g), KEY) == EnvStart(g) + |Flat(g.env)| <==> NoKey(g.env, KEY)
  {
    EnvStands(g);
    AppleStands(g);
    KeyNulFree();
    AppleOffBetween(Encode(g), EnvStart(g), g.env, g.apple, KEY);
  }

  /** The three offsets are exactly where the sections of the region begin. */
  ghost predicate ExactOffsets(g: Region) {
    var buf := Encode(g);
    var a := ArgvOff(buf);
    var e := EnvOff(buf, a, |g.argv|);
    a == |Head(g)| && e == EnvStart(g) && AppleOff(buf, e, KEY) == EnvStart(g) + |Flat(g.env)|
  }

  /**
   Parsing inverts the layout exactly for the regions whose argv[0] is not empty and whose
   environment has no string that begins with the key.
   */
  lemma ParseInvertsLayout(g: Region)
    requires WellFormed(g)
    ensures ExactOffsets(g) <==> g.argv[0] != [] && NoKey(g.env, KEY)
  {
    ArgvOffOfLayout(g);
    EnvOffOfLayout(g);
    AppleOffOfLayout(g);
  }

  /** Then the three spans are the original argv, environment and apple bytes. */
  lemma SpansAreSections(g: Region)
    requires WellFormed(g) && g.argv[0] != [] && NoKey(g.env, KEY)
    ensures var buf := Encode(g); var a := ArgvOff(buf); var e := EnvOff(buf, a, |g.argv|); var p := AppleOff(buf, e, KEY);
            buf[a..e] == Flat(g.argv) && buf[e..p] == Flat(g.env) && buf[p..] == Flat(g.apple)
  {
    ParseInvertsLayout(g);
    Sections(Head(g), Flat(g.argv), Flat(g.env), Flat(g.apple));
  }

  // ---------- from the process to the three nodes ----------

  /** What `procfs_read_procargs` reads of a process. */
  datatype Process = Process(argc: int, argslen: Word, userStack: Word, hasPmap: bool, hasMemory: bool)

  type Word = x: nat | x < WORD

  datatype Args = Fail(errno: int) | Args(buf: Bytes, argvOff: nat, envOff: nat, appleOff: nat)

  datatype Section = Argv | Env | Apple

  predicate Usable(p: Process) { p.argc > 0 && p.userStack != 0 && p.hasPmap && p.argslen > |KEY| }

  /** Where the path begins, in 64-bit arithmetic: the key in front of it is left out. */
  function DataVa(p: Process): nat
    requires Usable(p)
  {
    (p.userStack - (p.argslen - |KEY|)) % WORD
  }

  function ReadLen(p: Process): nat
    requires Usable(p)
  {
    if p.argslen - |KEY| > CMDLINE_MAX then CMDLINE_MAX else p.argslen - |KEY|
  }

  /** The bytes that are actually read. */
  ghost function RegionOf(m: Machine, p: Process): Bytes
    requires Sane(m) && Usable(p)
  {
    UserBytes(m, DataVa(p), Prefix(m, DataVa(p), ReadLen(p)))
  }

  ghost function ArgsOf(m: Machine, p: Process): Args
    requires Sane(m)
  {
    if !Usable(p) then Fail(EINVAL)
    else if !p.hasMemory then Fail(ENOMEM)
    else if RegionOf(m, p) == [] then Fail(EIO)
    else
      var buf := RegionOf(m, p);
      var a := ArgvOff(buf);
      var e := EnvOff(buf, a, p.argc);
      Args(buf, a, e, AppleOff(buf, e, KEY))
  }

  /** `procfs_read_procargs` */
  method ReadProcArgs(m: Machine, p: Process) returns (r: Args)
    requires Sane(m)
    ensures r == ArgsOf(m, p)
  {
    if p.argc <= 0 || p.userStack == 0 || !p.hasPmap || p.argslen <= |KEY| {
      return Fail(EINVAL);
    }
    if !p.hasMemory {
      return Fail(ENOMEM);
    }
    var adj := p.argslen - |KEY|;
    var readlen := if adj > CMDLINE_MAX then CMDLINE_MAX else adj;
    var buf := new Byte[readlen](_ => 0);
    var n := CopyUserPhys(m, DataVa(p), buf, readlen);
    if n == 0 {
      return Fail(EIO);
    }
    var a, e, x := Parse(buf[..n], p.argc);
    r := Args(buf[..n], a, e, x);
  }

  /** The span that the cmdline, environ and auxv nodes emit. */
  function Span(r: Args, which: Section): Bytes
    requires r.Args? && r.argvOff <= r.envOff <= r.appleOff <= |r.buf|
  {
    match which
    case Argv => r.buf[r.argvOff..r.envOff]
    case Env => r.buf[r.envOff..r.appleOff]
    case Apple => r.buf[r.appleOff..]
  }

  /** The address `n` bytes below the stack pointer; below address 0 the address space goes on at its top. */
  function BelowStack(p: Process, n: nat): nat
    requires n < WORD
  {
    if n <= p.userStack then p.userStack - n else p.userStack + WORD - n
  }

  lemma DataIsBelowStack(p: Process)
    requires Usable(p)
    ensures p.argslen - |KEY| < WORD && DataVa(p) == BelowStack(p, p.argslen - |KEY|)
  {
    var d := p.userStack - (p.argslen - |KEY|);
    if d < 0 { assert d % WORD == d + WORD; }
  }

  /** `buf` is the run of bytes at `va` that goes on for `want` bytes, or 256 KiB, or up to the first byte that is not resident. */
  ghost predicate LongestRun(m: Machine, va: nat, want: nat, buf: Bytes)
    requires m.pageSize > 0
  {
    && |buf| <= want && |buf| <= 262144
    && (forall k :: 0 <= k < |buf| ==> Resident(m, va + k) && buf[k] == UserByte(m, va + k))
    && (|buf| < want && |buf| < 262144 ==> !Resident(m, va + |buf|))
  }

  lemma RunIsLongest(m: Machine, va: nat, want: nat, len: nat, n: nat)
    requires m.pageSize > 0 && len == (if want > 262144 then 262144 else want) && n == Prefix(m, va, len)
    ensures LongestRun(m, va, want, UserBytes(m, va, n))
  {
    forall k | 0 <= k < n ensures Resident(m, va + k) && UserBytes(m, va, n)[k] == UserByte(m, va + k) { UserBytesAt(m, va, n, k); }
  }

  lemma RegionIsLongest(m: Machine, p: Process)
    requires Sane(m) && Usable(p)
    ensures LongestRun(m, BelowStack(p, p.argslen - |KEY|), p.argslen - |KEY|, RegionOf(m, p))
  {
    DataIsBelowStack(p);
    RunIsLongest(m, DataVa(p), p.argslen - |KEY|, ReadLen(p), Prefix(m, DataVa(p), ReadLen(p)));
  }

  /**
   What is read of a process: the bytes that end just below its stack pointer, as many as its
   argument length says without the key, up to 256 KiB and up to the first one that is not resident.
   It fails when the process has no arguments, stack or page map, when there is no memory for the
   buffer, and when not even the first byte is resident.
   */
  lemma ReadsBelowStack(m: Machine, p: Process)
    requires Sane(m)
    ensures p.argc <= 0 || p.userStack == 0 || !p.hasPmap || p.argslen <= |KEY| <==> ArgsOf(m, p) == Fail(EINVAL)
    ensures Usable(p) && !p.hasMemory ==> ArgsOf(m, p) == Fail(ENOMEM)
    ensures p.argc > 0 && p.userStack != 0 && p.hasPmap && p.argslen > |KEY| && p.hasMemory ==>
              var va := BelowStack(p, p.argslen - |KEY|);
              if !Resident(m, va) then ArgsOf(m, p) == Fail(EIO)
              else ArgsOf(m, p).Args? && LongestRun(m, va, p.argslen - |KEY|, ArgsOf(m, p).buf)
  {
    if Usable(p) {
      RegionIsLongest(m, p);
      EmptyIff(m, BelowStack(p, p.argslen - |KEY|), p.argslen - |KEY|, RegionOf(m, p));
      BufferIsRegion(m, p, RegionOf(m, p));
    }
  }

  lemma EmptyIff(m: Machine, va: nat, want: nat, buf: Bytes)
    requires m.pageSize > 0 && want > 0 && LongestRun(m, va, want, buf)
    ensures buf == [] <==> !Resident(m, va)
  {
    if buf != [] { assert buf[0] == UserByte(m, va + 0); }
  }

  lemma BufferIsRegion(m: Machine, p: Process, buf: Bytes)
    requires Sane(m) && Usable(p) && buf == RegionOf(m, p)
    ensures if !p.hasMemory then ArgsOf(m, p) == Fail(ENOMEM)
            else if buf == [] then ArgsOf(m, p) == Fail(EIO)
            else ArgsOf(m, p).Args? && ArgsOf(m, p).buf == buf
  {
  }

  /** The region lies resident in the memory of the process, its last byte just below the stack pointer. */
  ghost predicate Placed(m: Machine, p: Process, g: Region)
    requires m.pageSize > 0
  {
    && |Encode(g)| < WORD
    && forall k :: 0 <= k < |Encode(g)| ==>
         var va := BelowStack(p, |Encode(g)|) + k; Resident(m, va) && UserByte(m, va) == Encode(g)[k]
  }

  lemma PlacedIsRead(m: Machine, p: Process, g: Region)
    requires Sane(m) && Usable(p) && Placed(m, p, g) && p.argslen == |KEY| + |Encode(g)| && |Encode(g)| <= CMDLINE_MAX
    ensures RegionOf(m, p) == Encode(g)
  {
    DataIsBelowStack(p);
    var va, n := DataVa(p), |Encode(g)|;
    forall a | va <= a < va + n ensures Resident(m, a) {
      var k := a - va;
      assert UserByte(m, va + k) == Encode(g)[k];
    }
    PrefixUnique(m, va, n, n);
    forall k | 0 <= k < n ensures UserBytes(m, va, n)[k] == Encode(g)[k] { UserBytesAt(m, va, n, k); }
  }

  /**
   End to end: when a well-formed region lies resident in the process's memory, ending just below
   the stack pointer, and fits the read limit, the three nodes emit exactly its argv, environment
   and apple strings.
   */
  lemma NodesEmitSections(m: Machine, p: Process, g: Region)
    requires Sane(m) && p.argc == |g.argv| && p.userStack != 0 && p.hasPmap && p.hasMemory
    requires WellFormed(g) && g.argv[0] != [] && NoKey(g.env, KEY)
    requires p.argslen == |KEY| + |Encode(g)| && |Encode(g)| <= CMDLINE_MAX && Placed(m, p, g)
    ensures var r := ArgsOf(m, p);
            && r.Args? && r.argvOff <= r.envOff <= r.appleOff <= |r.buf|
            && Span(r, Argv) == Flat(g.argv) && Span(r, Env) == Flat(g.env) && Span(r, Apple) == Flat(g.apple)
  {
    assert Encode(g) != [] by { assert |Head(g)| > 0; }
    PlacedIsRead(m, p, g);
    SpansAreSections(g);
  }

  /** A byte-exact reading back: the flattened strings determine the strings. */
  lemma {:induction false} FlatInjective(ss: seq<Bytes>, tt: seq<Bytes>)
    requires AllNulFree(ss) && AllNulFree(tt) && Flat(ss) == Flat(tt)
    ensures ss == tt
    decreases |ss|
  {
    if ss != [] && tt != [] {
      NulFromString(Flat(ss), 0, ss[0]);
      NulFromString(Flat(tt), 0, tt[0]);
      assert ss[0] == Flat(ss)[..|ss[0]|] == tt[0];
      assert Flat(ss[1..]) == Flat(ss)[|ss[0]| + 1..] == Flat(tt[1..]);
      FlatInjective(ss[1..], tt[1..]);
      assert ss == [ss[0]] + ss[1..];
      assert tt == [tt[0]] + tt[1..];
    } else {
      assert ss != [] ==> |Flat(ss)| > 0;
      assert tt != [] ==> |Flat(tt)| > 0;
    }
  }
}
