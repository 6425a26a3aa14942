/** Staging symbols from a kernel's symbol table, and resolving them in the running kernel. */
module KLookup {
  import opened Options
  import opened KSyms

  // ---------- the staging tool ----------

  /** An entry of the symbol table: its string offset, its value and the string there. */
  datatype Sym = Sym(strx: nat, value: nat, name: string)

  predicate Defines(s: Sym, strsize: nat, name: string) {
    s.strx != 0 && s.strx < strsize && s.value != 0 && s.name == name
  }

  /** The first definition of a name, or zero. */
  function FirstDefined(syms: seq<Sym>, strsize: nat, name: string): nat {
    if syms == [] then 0
    else
      var before := FirstDefined(syms[..|syms| - 1], strsize, name);
      if before == 0 && Defines(syms[|syms| - 1], strsize, name) then syms[|syms| - 1].value else before
  }

  /** It is the first one: nothing before it defines the name. */
  lemma {:induction false} FirstDefinedIsFirst(syms: seq<Sym>, strsize: nat, name: string)
    ensures FirstDefined(syms, strsize, name) == 0 ==>
              forall i :: 0 <= i < |syms| ==> !Defines(syms[i], strsize, name)
    ensures FirstDefined(syms, strsize, name) != 0 ==>
              exists i :: 0 <= i < |syms| && Defines(syms[i], strsize, name) && FirstDefined(syms, strsize, name) == syms[i].value
                          && forall j :: 0 <= j < i ==> !Defines(syms[j], strsize, name)
  {
    if syms != [] {
      var rest := syms[..|syms| - 1];
      FirstDefinedIsFirst(rest, strsize, name);
      if FirstDefined(rest, strsize, name) != 0 {
        var i :| 0 <= i < |rest| && Defines(rest[i], strsize, name) && FirstDefined(rest, strsize, name) == rest[i].value
                 && forall j :: 0 <= j < i ==> !Defines(rest[j], strsize, name);
        assert Defines(syms[i], strsize, name) && forall j :: 0 <= j < i ==> syms[j] == rest[j];
      } else if Defines(syms[|syms| - 1], strsize, name) {
        assert forall j :: 0 <= j < |syms| - 1 ==> syms[j] == rest[j];
      }
    }
  }

  method Collect(syms: seq<Sym>, strsize: nat, wanted: seq<string>) returns (addr: array<nat>)
    ensures fresh(addr) && addr.Length == |wanted|
    ensures forall w :: 0 <= w < |wanted| ==> addr[w] == FirstDefined(syms, strsize, wanted[w])
  {
    addr := new nat[|wanted|](_ => 0);
    for i := 0 to |syms|
      invariant forall w :: 0 <= w < |wanted| ==> addr[w] == FirstDefined(syms[..i], strsize, wanted[w])
    {
      assert syms[..i + 1][..i] == syms[..i];
      var s := syms[i];
      if s.strx == 0 || s.strx >= strsize || s.value == 0 { continue; }
      for w := 0 to |wanted|
        invariant forall x :: 0 <= x < w ==> addr[x] == FirstDefined(syms[..i + 1], strsize, wanted[x])
        invariant forall x :: w <= x < |wanted| ==> addr[x] == FirstDefined(syms[..i], strsize, wanted[x])
      {
        if addr[w] == 0 && s.name == wanted[w] { addr[w] := s.value; }
      }
    }
    assert syms[..|syms|] == syms;
  }

  lemma {:induction false} LinesAppend(names: seq<string>, addrs: seq<nat>, name: string, addr: nat)
    requires |names| == |addrs|
    ensures Lines(names + [name], addrs + [addr]) == Lines(names, addrs) + (if addr != 0 then Line(name, addr) + "\n" else "")
    decreases |names|
  {
    if names == [] {
      assert names + [name] == [name] && addrs + [addr] == [addr];
      assert Lines([], []) == "";
    } else {
      assert (names + [name])[1..] == names[1..] + [name] && (addrs + [addr])[1..] == addrs[1..] + [addr];
      LinesAppend(names[1..], addrs[1..], name, addr);
    }
  }

  /** The staged file, or nothing when one of the two anchors, wanted first, is missing. */
  method Stage(banner: string, build: string, wanted: seq<string>, syms: seq<Sym>, strsize: nat)
    returns (file: Option<string>)
    requires |wanted| >= 2
    ensures file.None? <==> FirstDefined(syms, strsize, wanted[0]) == 0 || FirstDefined(syms, strsize, wanted[1]) == 0
    ensures file.Some? ==> file.value == File(banner, build, wanted, Addresses(syms, strsize, wanted))
  {
    var addr := Collect(syms, strsize, wanted);
    if addr[0] == 0 || addr[1] == 0 { return None; }
    ghost var addrs := addr[..];
    assert addrs == Addresses(syms, strsize, wanted);
    var head := banner + "\n" + (("# build " + build) + "\n");
    var text := "";
    for w := 0 to |wanted|
      invariant addr[..] == addrs && text == Lines(wanted[..w], addrs[..w])
    {
      assert wanted[..w + 1] == wanted[..w] + [wanted[w]] && addrs[..w + 1] == addrs[..w] + [addrs[w]];
      LinesAppend(wanted[..w], addrs[..w], wanted[w], addrs[w]);
      if addr[w] != 0 { text := text + (Line(wanted[w], addr[w]) + "\n"); }
    }
    assert wanted[..|wanted|] == wanted && addrs[..|wanted|] == addrs;
    file := Some(head + text);
    assert head + text == File(banner, build, wanted, Addresses(syms, strsize, wanted));
  }

  function Addresses(syms: seq<Sym>, strsize: nat, wanted: seq<string>): (a: seq<nat>)
    ensures |a| == |wanted| && forall w :: 0 <= w < |wanted| ==> a[w] == FirstDefined(syms, strsize, wanted[w])
  {
    seq(|wanted|, w requires 0 <= w < |wanted| => FirstDefined(syms, strsize, wanted[w]))
  }

  // ---------- the kernel ----------

  const KL_MAX: nat := 8192
  const VERSION: string := "_version"
  const KERNEL_PMAP: string := "_kernel_pmap"

  /** What fits into the kernel's buffer, beside a terminator. */
  function Slurped(file: string): string { if |file| <= KL_MAX - 1 then file else file[..KL_MAX - 1] }

  /** An address moved as far as the version anchor has moved, in 64 bits. */
  function Slid(raw: nat, versionRaw: nat, version: nat): nat { (raw + version - versionRaw) % WORD }

  /** The file has the version anchor, and its kernel_pmap anchor, if any, moves to where the kernel's is. */
  predicate Accepts(buf: string, version: nat, pmap: nat) {
    var v, k := ValueAt(buf, 0, VERSION), ValueAt(buf, 0, KERNEL_PMAP);
    buf != "" && v != 0 && (k != 0 ==> Slid(k, v, version) == pmap)
  }

  /** A name's runtime address, or null. */
  function Resolved(buf: string, name: string, version: nat): nat {
    var raw := ValueAt(buf, 0, name);
    if raw == 0 then 0 else Slid(raw, ValueAt(buf, 0, VERSION), version)
  }

  function CountStaged(buf: string, names: seq<string>): nat {
    if names == [] then 0
    else CountStaged(buf, names[..|names| - 1]) + (if ValueAt(buf, 0, names[|names| - 1]) != 0 then 1 else 0)
  }

  /** `klookup_resolve`; `file` is nothing when the staged file cannot be read or memory is short. */
  method Resolve(file: Option<string>, names: seq<string>, version: nat, pmap: nat, out: array<nat>) returns (resolved: nat)
    requires out.Length == |names|
    modifies out
    ensures file.Some? && Accepts(Slurped(file.value), version, pmap) ==>
              && resolved == CountStaged(Slurped(file.value), names)
              && forall i :: 0 <= i < |names| ==> out[i] == Resolved(Slurped(file.value), names[i], version)
    ensures !(file.Some? && Accepts(Slurped(file.value), version, pmap)) ==>
              resolved == 0 && forall i :: 0 <= i < |names| ==> out[i] == 0
  {
    for i := 0 to |names|
      invariant forall j :: 0 <= j < i ==> out[j] == 0
    {
      out[i] := 0;
    }
    if file.None? { return 0; }
    var buf := Slurped(file.value);
    if buf == "" { return 0; }
    var versionRaw := FindValue(buf, VERSION);
    var pmapRaw := FindValue(buf, KERNEL_PMAP);
    if versionRaw == 0 { return 0; }
    if pmapRaw != 0 && Slid(pmapRaw, versionRaw, version) != pmap { return 0; }
    resolved := 0;
    for w := 0 to |names|
      invariant resolved == CountStaged(buf, names[..w])
      invariant forall j :: 0 <= j < w ==> out[j] == Resolved(buf, names[j], version)
      invariant forall j :: w <= j < |names| ==> out[j] == 0
    {
      assert names[..w + 1][..w] == names[..w];
      var raw := FindValue(buf, names[w]);
      if raw != 0 {
        out[w] := Slid(raw, versionRaw, version);
        resolved := resolved + 1;
      }
    }
    assert names[..|names|] == names;
  }

  // ---------- what resolution gives ----------

  lemma SlideRecovered(raw: nat, versionRaw: nat, slide: int)
    ensures Slid(raw, versionRaw, (versionRaw + slide) % WORD) == (raw + slide) % WORD
  {
    var k := (versionRaw + slide) / WORD;
    assert (versionRaw + slide) % WORD == versionRaw + slide - k * WORD;
    ModPeriod(raw + slide, -k);
  }

  lemma ModPeriod(x: int, k: int)
    ensures (x + k * WORD) % WORD == x % WORD
    decreases if k < 0 then -k else k
  {
    if k > 0 {
      ModPeriod(x, k - 1);
      assert x + k * WORD == (x + (k - 1) * WORD) + WORD;
    } else if k < 0 {
      ModPeriod(x, k + 1);
      assert x + k * WORD == (x + (k + 1) * WORD) - WORD;
    }
  }

  lemma AnchorsAreGoodNames()
    ensures GoodName(VERSION) && GoodName(KERNEL_PMAP)
  {
  }

  /** A file that fits the buffer, from a table with the version anchor. */
  ghost predicate Staged(buf: string, banner: string, build: string, names: seq<string>, addrs: seq<nat>, v: nat) {
    && Table(names, addrs) && Comment(banner) && '\n' !in build
    && buf == File(banner, build, names, addrs) && |buf| <= KL_MAX - 1
    && v < |names| && names[v] == VERSION && addrs[v] != 0
  }

  /** When the whole kernel has moved by one slide, the file is accepted and every staged symbol resolves to its runtime address. */
  lemma ResolvesToRuntime(buf: string, banner: string, build: string, names: seq<string>, addrs: seq<nat>, v: nat,
                          slide: int, version: nat, pmap: nat, w: nat)
    requires Staged(buf, banner, build, names, addrs, v) && w < |names|
    requires version == (addrs[v] + slide) % WORD
    requires forall k :: 0 <= k < |names| && names[k] == KERNEL_PMAP ==> pmap == (addrs[k] + slide) % WORD
    ensures Accepts(Slurped(buf), version, pmap)
    ensures Resolved(Slurped(buf), names[w], version) == if addrs[w] == 0 then 0 else (addrs[w] + slide) % WORD
  {
    AnchorsAreGoodNames();
    StagingRoundTrip(banner, build, names, addrs, VERSION);
    StagingRoundTrip(banner, build, names, addrs, KERNEL_PMAP);
    StagingRoundTrip(banner, build, names, addrs, names[w]);
    var k := ValueAt(buf, 0, KERNEL_PMAP);
    SlideRecovered(k, addrs[v], slide);
    SlideRecovered(addrs[w], addrs[v], slide);
    if k != 0 {
      var i :| 0 <= i < |names| && names[i] == KERNEL_PMAP;
    }
  }

  /** Names that are not staged resolve to null. */
  lemma AbsentIsNull(buf: string, banner: string, build: string, names: seq<string>, addrs: seq<nat>, v: nat, name: string, version: nat)
    requires Staged(buf, banner, build, names, addrs, v) && GoodName(name) && name !in names
    ensures Resolved(Slurped(buf), name, version) == 0
  {
    StagingRoundTrip(banner, build, names, addrs, name);
  }

  /** A kernel_pmap that did not move with the version anchor makes the file unacceptable, and so every result null. */
  lemma MismatchIsRejected(buf: string, banner: string, build: string, names: seq<string>, addrs: seq<nat>, v: nat, k: nat,
                           slide: int, version: nat, pmap: nat)
    requires Staged(buf, banner, build, names, addrs, v) && k < |names| && names[k] == KERNEL_PMAP && addrs[k] != 0
    requires version == (addrs[v] + slide) % WORD
    ensures Accepts(Slurped(buf), version, pmap) <==> pmap == (addrs[k] + slide) % WORD
  {
    AnchorsAreGoodNames();
    StagingRoundTrip(banner, build, names, addrs, VERSION);
    StagingRoundTrip(banner, build, names, addrs, KERNEL_PMAP);
    SlideRecovered(addrs[k], addrs[v], slide);
  }

  /** Without a version anchor the file is of no use: it is rejected, whatever else is in it. */
  lemma NoAnchorIsRejected(banner: string, build: string, names: seq<string>, addrs: seq<nat>, version: nat, pmap: nat)
    requires Table(names, addrs) && Comment(banner) && '\n' !in build && |File(banner, build, names, addrs)| <= KL_MAX - 1
    requires forall v :: 0 <= v < |names| && names[v] == VERSION ==> addrs[v] == 0
    ensures !Accepts(Slurped(File(banner, build, names, addrs)), version, pmap)
  {
    AnchorsAreGoodNames();
    StagingRoundTrip(banner, build, names, addrs, VERSION);
  }

  /** The positions of the names that are staged with an address. */
  ghost function StagedAt(names: seq<string>, addrs: seq<nat>, wanted: seq<string>): set<nat>
    requires |names| == |addrs|
  {
    set i: nat | i < |wanted| && exists w :: 0 <= w < |names| && names[w] == wanted[i] && addrs[w] != 0
  }

  /** The result counts the wanted names that are staged with an address. */
  lemma {:induction false} CountIsStaged(banner: string, build: string, names: seq<string>, addrs: seq<nat>, wanted: seq<string>)
    requires Table(names, addrs) && Comment(banner) && '\n' !in build
    requires forall i :: 0 <= i < |wanted| ==> GoodName(wanted[i])
    ensures CountStaged(File(banner, build, names, addrs), wanted) == |StagedAt(names, addrs, wanted)|
    decreases |wanted|
  {
    if wanted == [] {
      assert StagedAt(names, addrs, wanted) == {};
    } else {
      var rest, n := wanted[..|wanted| - 1], |wanted| - 1;
      CountIsStaged(banner, build, names, addrs, rest);
      StagingRoundTrip(banner, build, names, addrs, wanted[n]);
      var before, after := StagedAt(names, addrs, rest), StagedAt(names, addrs, wanted);
      assert forall i :: i in before ==> i in after && i != n;
      assert forall i :: i in after && i != n ==> rest[i] == wanted[i];
      if n in after { assert after == before + {n}; } else { assert after == before; }
    }
  }
}
