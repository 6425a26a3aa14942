/** Kernel symbols staged in a text file by a user-space tool, and read back and slid to their runtime addresses in the kernel. */
module KSyms {
  import opened Options

  const WORD: nat := 0x1_0000_0000_0000_0000

  // ---------- hexadecimal ----------

  function HexDigit(d: nat): char
    requires d < 16
  {
    if d < 10 then '0' + d as char else 'a' + (d - 10) as char
  }

  /** `%llx` */
  function Hex(n: nat): string {
    if n < 16 then [HexDigit(n)] else Hex(n / 16) + [HexDigit(n % 16)]
  }

  function HexValue(c: char): Option<nat> {
    if '0' <= c <= '9' then Some((c - '0') as nat)
    else if 'a' <= c <= 'f' then Some((c - 'a') as nat + 10)
    else if 'A' <= c <= 'F' then Some((c - 'A') as nat + 10)
    else None
  }

  /** `(v << 4) | d` in 64 bits. */
  function Shift(v: nat, d: nat): nat { (v * 16 + d) % WORD }

  /** The digits up to the first other character, added to `v`. */
  function ParseHex(s: string, v: nat): nat {
    if s == "" || HexValue(s[0]).None? then v else ParseHex(s[1..], Shift(v, HexValue(s[0]).value))
  }

  lemma {:induction false} ParseAppend(s: string, c: char, v: nat)
    requires HexValue(c).Some? && forall i :: 0 <= i < |s| ==> HexValue(s[i]).Some?
    ensures ParseHex(s + [c], v) == Shift(ParseHex(s, v), HexValue(c).value)
    decreases |s|
  {
    if s == "" {
      assert s + [c] == [c];
      assert ParseHex([c][1..], Shift(v, HexValue(c).value)) == Shift(v, HexValue(c).value);
    } else {
      assert (s + [c])[1..] == s[1..] + [c];
      ParseAppend(s[1..], c, Shift(v, HexValue(s[0]).value));
    }
  }

  lemma ShiftBack(n: nat)
    requires n < WORD
    ensures Shift(n / 16, n % 16) == n
  {
  }

  lemma {:induction false} HexReadsBack(n: nat)
    requires n < WORD
    ensures Hex(n) != "" && (forall i :: 0 <= i < |Hex(n)| ==> HexValue(Hex(n)[i]).Some?)
    ensures ParseHex(Hex(n), 0) == n
  {
    if n < 16 {
      ParseAppend("", HexDigit(n), 0);
      assert "" + [HexDigit(n)] == Hex(n);
    } else {
      HexReadsBack(n / 16);
      ShiftBack(n);
      ParseAppend(Hex(n / 16), HexDigit(n % 16), 0);
    }
  }

  // ---------- reading ----------

  /** The end of the line that starts at `p`. */
  function EolAt(buf: string, p: nat): (e: nat)
    requires p <= |buf|
    ensures p <= e <= |buf|
    decreases |buf| - p
  {
    if p == |buf| || buf[p] == '\n' then p else EolAt(buf, p + 1)
  }

  /** `strncmp` over the length of the name. */
  predicate StartsWith(buf: string, p: nat, name: string)
    requires p <= |buf|
    decreases |name|
  {
    name == "" || (p < |buf| && buf[p] == name[0] && StartsWith(buf, p + 1, name[1..]))
  }

  /** The line from `p` to `lend` starts with the name and a space, and goes on. */
  predicate Bears(buf: string, p: nat, lend: nat, name: string)
    requires p <= lend <= |buf|
  {
    lend - p > |name| + 1 && StartsWith(buf, p, name) && buf[p + |name|] == ' '
  }

  /** Past an optional `0x`. */
  function Digits(buf: string, h: nat, lend: nat): (d: nat)
    requires h <= lend <= |buf|
    ensures h <= d <= lend
  {
    if h + 2 <= lend && buf[h] == '0' && (buf[h + 1] == 'x' || buf[h + 1] == 'X') then h + 2 else h
  }

  /** The digits up to the first other character, added to `v`. */
  function HexAt(buf: string, h: nat, lend: nat, v: nat): nat
    requires h <= lend <= |buf|
    decreases lend - h
  {
    if h == lend || HexValue(buf[h]).None? then v else HexAt(buf, h + 1, lend, Shift(v, HexValue(buf[h]).value))
  }

  /** The value on the first line from `p` on that bears the name, or zero. */
  function ValueAt(buf: string, p: nat, name: string): nat
    requires p <= |buf|
    decreases |buf| - p
  {
    if p == |buf| then 0
    else
      var e := EolAt(buf, p);
      if Bears(buf, p, e, name) then HexAt(buf, Digits(buf, p + |name| + 1, e), e, 0)
      else if e == |buf| then 0
      else ValueAt(buf, e + 1, name)
  }

  /** `memchr` for the end of the line. */
  method FindEol(buf: string, p: nat) returns (e: nat)
    requires p <= |buf|
    ensures e == EolAt(buf, p)
  {
    e := p;
    while e < |buf| && buf[e] != '\n'
      invariant p <= e <= |buf| && EolAt(buf, e) == EolAt(buf, p)
    {
      e := e + 1;
    }
  }

  /** `kl_line_value` */
  method FindValue(buf: string, name: string) returns (v: nat)
    ensures v == ValueAt(buf, 0, name)
  {
    var p := 0;
    while p < |buf|
      invariant p <= |buf| && ValueAt(buf, p, name) == ValueAt(buf, 0, name)
    {
      var lend := FindEol(buf, p);
      if lend - p > |name| + 1 && StartsWith(buf, p, name) && buf[p + |name|] == ' ' {
        var h := p + |name| + 1;
        if h + 2 <= lend && buf[h] == '0' && (buf[h + 1] == 'x' || buf[h + 1] == 'X') { h := h + 2; }
        v := 0;
        while h < lend
          invariant p < h <= lend && HexAt(buf, h, lend, v) == ValueAt(buf, p, name)
        {
          var d := HexValue(buf[h]);
          if d.None? { break; }
          v := Shift(v, d.value);
          h := h + 1;
        }
        return;
      }
      p := if lend < |buf| then lend + 1 else |buf|;
    }
    return 0;
  }

  // ---------- the staged file ----------

  function Line(name: string, addr: nat): string { name + " 0x" + Hex(addr) }

  /** The symbol lines; symbols that were not found get none. */
  function Lines(names: seq<string>, addrs: seq<nat>): string
    requires |names| == |addrs|
  {
    if names == [] then ""
    else (if addrs[0] != 0 then Line(names[0], addrs[0]) + "\n" else "") + Lines(names[1..], addrs[1..])
  }

  /** A line the reader takes for no symbol. */
  predicate Comment(line: string) { line != "" && line[0] == '#' && '\n' !in line }

  /** Two comment lines, the second naming the kernel build, and the symbols. */
  function File(banner: string, build: string, names: seq<string>, addrs: seq<nat>): string
    requires |names| == |addrs|
  {
    banner + "\n" + (("# build " + build) + "\n" + Lines(names, addrs))
  }

  predicate GoodName(name: string) {
    ' ' !in name && '\n' !in name && (name != "" ==> name[0] != '#')
  }

  ghost predicate Table(names: seq<string>, addrs: seq<nat>) {
    && |names| == |addrs|
    && (forall i :: 0 <= i < |names| ==> GoodName(names[i]) && addrs[i] < WORD)
    && (forall i, j :: 0 <= i < j < |names| ==> names[i] != names[j])
  }

  // ---------- writing and reading back ----------

  lemma {:induction false} StandsChar(buf: string, p: nat, s: string, i: nat)
    requires p <= |buf| && StartsWith(buf, p, s) && i < |s|
    ensures p + i < |buf| && buf[p + i] == s[i]
    decreases |s|
  {
    if i > 0 { StandsChar(buf, p + 1, s[1..], i - 1); }
  }

  lemma {:induction false} StandsLength(buf: string, p: nat, s: string)
    requires p <= |buf| && StartsWith(buf, p, s)
    ensures p + |s| <= |buf|
    decreases |s|
  {
    if s != "" { StandsLength(buf, p + 1, s[1..]); }
  }

  lemma {:induction false} StandsIf(buf: string, p: nat, s: string)
    requires p + |s| <= |buf| && buf[p..p + |s|] == s
    ensures StartsWith(buf, p, s)
    decreases |s|
  {
    if s != "" {
      assert buf[p] == s[0] && buf[p + 1..p + |s|] == s[1..];
      StandsIf(buf, p + 1, s[1..]);
    }
  }

  lemma {:induction false} StandsSplit(buf: string, p: nat, s: string, t: string)
    requires p <= |buf| && StartsWith(buf, p, s + t)
    ensures StartsWith(buf, p, s) && p + |s| <= |buf| && StartsWith(buf, p + |s|, t)
    decreases |s|
  {
    if s == "" {
      assert s + t == t;
    } else {
      assert (s + t)[1..] == s[1..] + t;
      StandsSplit(buf, p + 1, s[1..], t);
    }
  }

  /** `line` stands at `p`, followed by a newline. */
  ghost predicate LineStands(buf: string, p: nat, line: string) {
    p + |line| < |buf| && StartsWith(buf, p, line) && buf[p + |line|] == '\n'
  }

  lemma {:induction false} EolOfLine(buf: string, p: nat, e: nat)
    requires p <= e < |buf| && buf[e] == '\n' && forall i :: p <= i < e ==> buf[i] != '\n'
    ensures EolAt(buf, p) == e
    decreases e - p
  {
    if p < e { EolOfLine(buf, p + 1, e); }
  }

  lemma LineEnds(buf: string, p: nat, line: string)
    requires LineStands(buf, p, line) && '\n' !in line
    ensures EolAt(buf, p) == p + |line|
  {
    forall i | p <= i < p + |line| ensures buf[i] != '\n' {
      StandsChar(buf, p, line, i - p);
      assert line[i - p] in line;
    }
    EolOfLine(buf, p, p + |line|);
  }

  lemma {:induction false} HexAtIs(buf: string, h: nat, s: string, v: nat)
    requires h + |s| <= |buf| && StartsWith(buf, h, s)
    ensures HexAt(buf, h, h + |s|, v) == ParseHex(s, v)
    decreases |s|
  {
    if s != "" && HexValue(s[0]).Some? { HexAtIs(buf, h + 1, s[1..], Shift(v, HexValue(s[0]).value)); }
  }

  /** A line that does not bear the name is passed over. */
  lemma LineIsSkipped(buf: string, p: nat, line: string, name: string)
    requires LineStands(buf, p, line) && '\n' !in line
    requires |name| < |line| ==> !(StartsWith(buf, p, name) && buf[p + |name|] == ' ')
    ensures ValueAt(buf, p, name) == ValueAt(buf, p + |line| + 1, name)
  {
    LineEnds(buf, p, line);
  }

  /** A comment bears no symbol's name. */
  lemma CommentIsSkipped(buf: string, p: nat, line: string, name: string)
    requires LineStands(buf, p, line) && Comment(line) && GoodName(name)
    ensures ValueAt(buf, p, name) == ValueAt(buf, p + |line| + 1, name)
  {
    StandsChar(buf, p, line, 0);
    LineIsSkipped(buf, p, line, name);
  }

  lemma LineIsClean(owner: string, addr: nat)
    requires GoodName(owner) && addr < WORD
    ensures '\n' !in Line(owner, addr)
  {
    HexReadsBack(addr);
  }

  /** A line is skipped for every other name, also when one is a prefix of the other. */
  lemma OtherNameIsSkipped(buf: string, p: nat, owner: string, addr: nat, name: string)
    requires LineStands(buf, p, Line(owner, addr)) && GoodName(owner) && GoodName(name) && owner != name && addr < WORD
    ensures ValueAt(buf, p, name) == ValueAt(buf, p + |Line(owner, addr)| + 1, name)
  {
    LineIsClean(owner, addr);
    if |name| < |Line(owner, addr)| { NoOtherName(buf, p, owner, addr, name); }
    LineIsSkipped(buf, p, Line(owner, addr), name);
  }

  lemma NoOtherName(buf: string, p: nat, owner: string, addr: nat, name: string)
    requires LineStands(buf, p, Line(owner, addr)) && GoodName(owner) && GoodName(name) && owner != name
    requires |name| < |Line(owner, addr)|
    ensures !(StartsWith(buf, p, name) && buf[p + |name|] == ' ')
  {
    var line := Line(owner, addr);
    if StartsWith(buf, p, name) {
      if |name| < |owner| {
        StandsChar(buf, p, line, |name|);
        assert line[|name|] == owner[|name|] && owner[|name|] in owner;
      } else if |name| == |owner| {
        SameName(buf, p, line, owner, name);
      } else {
        assert line[|owner|] == ' ' && name[|owner|] in name;
        StandsChar(buf, p, line, |owner|);
        StandsChar(buf, p, name, |owner|);
      }
    }
  }

  lemma SameName(buf: string, p: nat, line: string, owner: string, name: string)
    requires p <= |buf| && StartsWith(buf, p, line) && StartsWith(buf, p, name) && owner <= line && |owner| == |name|
    ensures owner == name
  {
    forall i | 0 <= i < |name| ensures owner[i] == name[i] {
      StandsChar(buf, p, line, i);
      StandsChar(buf, p, name, i);
    }
  }

  /** A line gives its own name its address. */
  lemma OwnNameIsRead(buf: string, p: nat, owner: string, addr: nat)
    requires LineStands(buf, p, Line(owner, addr)) && GoodName(owner) && addr < WORD
    ensures ValueAt(buf, p, owner) == addr
  {
    var line, n := Line(owner, addr), |owner|;
    LineIsClean(owner, addr);
    LineEnds(buf, p, line);
    StandsSplit(buf, p, owner + " 0x", Hex(addr));
    StandsSplit(buf, p, owner, " 0x");
    StandsChar(buf, p + n, " 0x", 0);
    StandsChar(buf, p + n, " 0x", 1);
    StandsChar(buf, p + n, " 0x", 2);
    HexAtIs(buf, p + n + 3, Hex(addr), 0);
    HexReadsBack(addr);
  }

  lemma LineAndRest(buf: string, p: nat, line: string, rest: string)
    requires p <= |buf| && StartsWith(buf, p, line + "\n" + rest)
    ensures LineStands(buf, p, line) && StartsWith(buf, p + |line| + 1, rest)
  {
    StandsSplit(buf, p, line + "\n", rest);
    StandsSplit(buf, p, line, "\n");
    StandsChar(buf, p + |line|, "\n", 0);
  }

  /** The value the table gives a name. */
  ghost predicate Gives(names: seq<string>, addrs: seq<nat>, name: string, value: nat)
    requires |names| == |addrs|
  {
    (forall w :: 0 <= w < |names| && names[w] == name ==> value == addrs[w]) && (name !in names ==> value == 0)
  }

  lemma GivesStep(names: seq<string>, addrs: seq<nat>, name: string, value: nat)
    requires Table(names, addrs) && names != []
    requires if names[0] == name then value == addrs[0] else Gives(names[1..], addrs[1..], name, value)
    ensures Gives(names, addrs, name, value)
  {
    forall w | 0 <= w < |names| && names[w] == name ensures value == addrs[w] {
      if w > 0 { assert names[1..][w - 1] == name && addrs[1..][w - 1] == addrs[w]; }
    }
  }

  lemma LinesStand(buf: string, p: nat, names: seq<string>, addrs: seq<nat>)
    requires |names| == |addrs| > 0 && addrs[0] != 0 && p <= |buf| && StartsWith(buf, p, Lines(names, addrs))
    ensures var line := Line(names[0], addrs[0]);
            && LineStands(buf, p, line) && StartsWith(buf, p + |line| + 1, Lines(names[1..], addrs[1..]))
            && |Lines(names, addrs)| == |line| + 1 + |Lines(names[1..], addrs[1..])|
  {
    LineAndRest(buf, p, Line(names[0], addrs[0]), Lines(names[1..], addrs[1..]));
  }

  lemma LineThenRest(buf: string, p: nat, owner: string, addr: nat, name: string)
    requires LineStands(buf, p, Line(owner, addr)) && GoodName(owner) && GoodName(name) && addr < WORD
    ensures ValueAt(buf, p, name) == if owner == name then addr else ValueAt(buf, p + |Line(owner, addr)| + 1, name)
  {
    if owner == name { OwnNameIsRead(buf, p, name, addr); } else { OtherNameIsSkipped(buf, p, owner, addr, name); }
  }

  lemma TableTail(names: seq<string>, addrs: seq<nat>)
    requires Table(names, addrs) && names != []
    ensures Table(names[1..], addrs[1..]) && names[0] !in names[1..] && GoodName(names[0]) && addrs[0] < WORD
  {
  }

  /** The first symbol's line, if it has one, and where the others start. */
  lemma FirstSymbol(buf: string, p: nat, names: seq<string>, addrs: seq<nat>, name: string) returns (next: nat)
    requires Table(names, addrs) && names != [] && GoodName(name)
    requires p + |Lines(names, addrs)| == |buf| && StartsWith(buf, p, Lines(names, addrs))
    ensures next + |Lines(names[1..], addrs[1..])| == |buf| && StartsWith(buf, next, Lines(names[1..], addrs[1..]))
    ensures ValueAt(buf, p, name) == if names[0] == name && addrs[0] != 0 then addrs[0] else ValueAt(buf, next, name)
  {
    if addrs[0] != 0 {
      next := p + |Line(names[0], addrs[0])| + 1;
      LinesStand(buf, p, names, addrs);
      LineThenRest(buf, p, names[0], addrs[0], name);
    } else {
      next := p;
      assert Lines(names, addrs) == Lines(names[1..], addrs[1..]);
    }
  }

  /** The symbol lines at the end of a buffer. */
  lemma {:induction false} LinesReadBack(buf: string, p: nat, names: seq<string>, addrs: seq<nat>, name: string)
    requires Table(names, addrs) && GoodName(name)
    requires p + |Lines(names, addrs)| == |buf| && StartsWith(buf, p, Lines(names, addrs))
    ensures Gives(names, addrs, name, ValueAt(buf, p, name))
    decreases |names|
  {
    if names != [] {
      var next := FirstSymbol(buf, p, names, addrs, name);
      TableTail(names, addrs);
      LinesReadBack(buf, next, names[1..], addrs[1..], name);
      GivesStep(names, addrs, name, ValueAt(buf, p, name));
    }
  }

  lemma FileParts(banner: string, build: string, names: seq<string>, addrs: seq<nat>)
    requires |names| == |addrs|
    ensures var buf, second := File(banner, build, names, addrs), "# build " + build;
            && LineStands(buf, 0, banner) && LineStands(buf, |banner| + 1, second)
            && |banner| + |second| + 2 + |Lines(names, addrs)| == |buf|
            && StartsWith(buf, |banner| + |second| + 2, Lines(names, addrs))
  {
    var buf, second, lines := File(banner, build, names, addrs), "# build " + build, Lines(names, addrs);
    assert buf == banner + "\n" + (second + "\n" + lines);
    StandsIf(buf, 0, buf);
    LineAndRest(buf, 0, banner, second + "\n" + lines);
    LineAndRest(buf, |banner| + 1, second, lines);
  }

  lemma PastComments(buf: string, banner: string, second: string, name: string)
    requires GoodName(name) && Comment(banner) && Comment(second)
    requires LineStands(buf, 0, banner) && LineStands(buf, |banner| + 1, second)
    ensures ValueAt(buf, 0, name) == ValueAt(buf, |banner| + |second| + 2, name)
  {
    CommentIsSkipped(buf, 0, banner, name);
    var p := |banner| + 1;
    CommentIsSkipped(buf, p, second, name);
    assert p + |second| + 1 == |banner| + |second| + 2;
  }

  lemma StagedLines(buf: string, p: nat, names: seq<string>, addrs: seq<nat>, name: string, value: nat)
    requires Table(names, addrs) && GoodName(name)
    requires p + |Lines(names, addrs)| == |buf| && StartsWith(buf, p, Lines(names, addrs)) && value == ValueAt(buf, p, name)
    ensures Gives(names, addrs, name, value)
  {
    LinesReadBack(buf, p, names, addrs, name);
  }

  /** In the staged file a name's value is that of the symbol lines. */
  lemma FileValue(banner: string, build: string, names: seq<string>, addrs: seq<nat>, name: string) returns (buf: string, p: nat)
    requires |names| == |addrs| && GoodName(name) && Comment(banner) && '\n' !in build
    ensures buf == File(banner, build, names, addrs) && p + |Lines(names, addrs)| == |buf|
    ensures StartsWith(buf, p, Lines(names, addrs)) && ValueAt(buf, p, name) == ValueAt(buf, 0, name)
  {
    var second := "# build " + build;
    buf, p := File(banner, build, names, addrs), |banner| + |second| + 2;
    FileParts(banner, build, names, addrs);
    PastComments(buf, banner, second, name);
  }

  /** Reading the staged file gives each symbol's address, and zero for names that are not staged. */
  lemma StagingRoundTrip(banner: string, build: string, names: seq<string>, addrs: seq<nat>, name: string)
    requires Table(names, addrs) && GoodName(name) && Comment(banner) && '\n' !in build
    ensures Gives(names, addrs, name, ValueAt(File(banner, build, names, addrs), 0, name))
  {
    var buf, p := FileValue(banner, build, names, addrs, name);
    StagedLines(buf, p, names, addrs, name, ValueAt(buf, 0, name));
  }
}
