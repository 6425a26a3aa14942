/** The string buffer as a value: its text, its size and its flags, and what each operation makes of them. */
module SbufSpec {
  import opened Options

  const INT_MAX: nat := 0x7FFF_FFFF
  const MIN_EXTEND: nat := 16

  // ---------- sizes ----------

  function Doubled(size: nat, target: nat): nat
    requires size > 0
    decreases if size < target then target - size else 0
  {
    if size < target then Doubled(size * 2, target) else size
  }

  /** The size a buffer is extended to: a doubling of 16 below a page, whole pages from there on. */
  function Rounded(target: nat, page: nat): nat
    requires page > 0
  {
    if target < page then Doubled(MIN_EXTEND, target) else (target + page - 1) / page * page
  }

  /** Doubling stops at the first size that is large enough. */
  lemma {:induction false} DoubledCovers(size: nat, target: nat)
    requires size > 0
    ensures Doubled(size, target) >= target && Doubled(size, target) >= size
    ensures Doubled(size, target) > size ==> Doubled(size, target) / 2 < target
    decreases if size < target then target - size else 0
  {
    if size < target { DoubledCovers(size * 2, target); }
  }

  lemma PagesCover(target: nat, page: nat)
    requires page > 0
    ensures target <= (target + page - 1) / page * page < target + page
  {
    var n := target + page - 1;
    assert n == n / page * page + n % page;
  }

  /** The new size covers the wanted one, and is no more than twice it or one page beyond it. */
  lemma RoundedCovers(target: nat, page: nat)
    requires page >= MIN_EXTEND
    ensures target <= Rounded(target, page) && MIN_EXTEND <= Rounded(target, page)
    ensures Rounded(target, page) == MIN_EXTEND || Rounded(target, page) < 2 * target + 2 || Rounded(target, page) < target + page
  {
    if target < page { DoubledCovers(MIN_EXTEND, target); } else { PagesCover(target, page); }
  }

  // ---------- operations ----------

  datatype View = View(text: string, size: nat, auto: bool, overflowed: bool, finished: bool)

  /** A length below a size of at most INT_MAX: a byte is always left for the terminator. */
  predicate Fits(v: View) { |v.text| < v.size <= INT_MAX }

  /** What is asked of the buffer; `ok` says whether an allocation made on the way succeeds. */
  datatype Op =
    | Append(data: string, ok: bool)
    | Print(output: Option<string>, ok: bool)
    | Put(c: char, ok: bool)
    | Trim
    | SetPos(pos: int)
    | Clear
    | Finish

  /** The size after room for `wanted` more bytes has been made, or nothing if that is not possible. */
  function Grown(v: View, wanted: nat, ok: bool, page: nat): Option<nat>
    requires Fits(v) && page > 0
  {
    var capacity := v.size - |v.text| - 1;
    if capacity >= wanted then Some(v.size)
    else
      var target := v.size + (wanted - capacity);
      if !v.auto || target > INT_MAX || Rounded(target, page) > INT_MAX || !ok then None
      else Some(Rounded(target, page))
  }

  function Space(c: char): bool { c == ' ' || c == '\n' || c == '\t' }

  function Trimmed(s: string): string {
    if s != "" && Space(s[|s| - 1]) then Trimmed(s[..|s| - 1]) else s
  }

  /** The text an operation adds; a nul character adds nothing. */
  function Added(op: Op): string {
    match op
    case Append(data, _) => data
    case Print(out, _) => if out.Some? then out.value else ""
    case Put(c, _) => if c == '\0' then "" else [c]
    case _ => ""
  }

  /** The room an operation asks for. */
  function Wanted(op: Op): nat {
    if op.Put? then 1 else |Added(op)|
  }

  predicate Appends(op: Op) { op.Append? || op.Print? || op.Put? }

  predicate Succeeds(v: View, op: Op, page: nat)
    requires Fits(v) && page > 0
  {
    match op
    case Append(_, ok) => !v.overflowed && Grown(v, Wanted(op), ok, page).Some?
    case Print(out, ok) => !v.overflowed && out.Some? && Grown(v, Wanted(op), ok, page).Some?
    case Put(_, ok) => !v.overflowed && Grown(v, Wanted(op), ok, page).Some?
    case Trim => !v.overflowed
    case SetPos(pos) => 0 <= pos <= |v.text|
    case Clear => true
    case Finish => true
  }

  function Apply(v: View, op: Op, page: nat): View
    requires Fits(v) && page > 0
  {
    var done := Succeeds(v, op, page);
    if Appends(op) then
      if done then v.(text := v.text + Added(op), size := Grown(v, Wanted(op), op.ok, page).value)
      else if v.overflowed || (op.Print? && op.output.None?) then v
      else v.(overflowed := true)
    else
      match op
      case Trim => if done then v.(text := Trimmed(v.text)) else v
      case SetPos(pos) => if done then v.(text := v.text[..pos]) else v
      case Clear => v.(text := "", overflowed := false, finished := false)
      case _ => v.(overflowed := false, finished := true)
  }

  lemma {:induction false} TrimmedPrefix(s: string)
    ensures Trimmed(s) <= s && (Trimmed(s) != "" ==> !Space(Trimmed(s)[|Trimmed(s)| - 1]))
    ensures forall i :: |Trimmed(s)| <= i < |s| ==> Space(s[i])
  {
    if s != "" && Space(s[|s| - 1]) { TrimmedPrefix(s[..|s| - 1]); }
  }

  /** Room that is made is room enough. */
  lemma GrownHoldsWanted(v: View, wanted: nat, ok: bool, page: nat)
    requires Fits(v) && page >= MIN_EXTEND && Grown(v, wanted, ok, page).Some?
    ensures var size := Grown(v, wanted, ok, page).value;
            v.size <= size <= INT_MAX && |v.text| + wanted < size && (!v.auto ==> size == v.size)
  {
    var capacity := v.size - |v.text| - 1;
    if capacity < wanted { RoundedCovers(v.size + (wanted - capacity), page); }
  }

  /** Every operation keeps the length below the size; only a successful append changes the size, and only upwards. */
  lemma ApplyKeepsFits(v: View, op: Op, page: nat)
    requires Fits(v) && page >= MIN_EXTEND
    ensures Fits(Apply(v, op, page)) && Apply(v, op, page).auto == v.auto
    ensures v.size <= Apply(v, op, page).size && (!v.auto ==> Apply(v, op, page).size == v.size)
    ensures Appends(op) && !Succeeds(v, op, page) ==> Apply(v, op, page).text == v.text
  {
    if Appends(op) && Succeeds(v, op, page) {
      GrownHoldsWanted(v, Wanted(op), op.ok, page);
    } else if op.Trim? {
      TrimmedPrefix(v.text);
    }
  }

  // ---------- sequences of calls ----------

  function ApplyAll(v: View, ops: seq<Op>, page: nat): View
    requires Fits(v) && page >= MIN_EXTEND
    decreases |ops|
  {
    if ops == [] then v
    else
      ApplyKeepsFits(v, ops[0], page);
      ApplyAll(Apply(v, ops[0], page), ops[1..], page)
  }

  lemma {:induction false} RunKeepsFits(v: View, ops: seq<Op>, page: nat)
    requires Fits(v) && page >= MIN_EXTEND
    ensures Fits(ApplyAll(v, ops, page)) && v.size <= ApplyAll(v, ops, page).size
    ensures !v.auto ==> ApplyAll(v, ops, page).size == v.size
    decreases |ops|
  {
    if ops != [] {
      ApplyKeepsFits(v, ops[0], page);
      RunKeepsFits(Apply(v, ops[0], page), ops[1..], page);
    }
  }

  function Results(v: View, ops: seq<Op>, page: nat): seq<bool>
    requires Fits(v) && page >= MIN_EXTEND
    decreases |ops|
  {
    if ops == [] then []
    else
      ApplyKeepsFits(v, ops[0], page);
      [Succeeds(v, ops[0], page)] + Results(Apply(v, ops[0], page), ops[1..], page)
  }

  /** The text alone, told only which calls succeeded: appends since the last clear, as cut by trimming and repositioning. */
  function Text(s: string, ops: seq<Op>, done: seq<bool>): string
    requires |ops| == |done|
    decreases |ops|
  {
    if ops == [] then s
    else
      var next :=
        if ops[0].Clear? then ""
        else if !done[0] then s
        else if Appends(ops[0]) then s + Added(ops[0])
        else if ops[0].Trim? then Trimmed(s)
        else if ops[0].SetPos? && 0 <= ops[0].pos <= |s| then s[..ops[0].pos]
        else s;
      Text(next, ops[1..], done[1..])
  }

  /** Whatever the sizes and the growth, the buffer holds that text. */
  lemma {:induction false} BufferHoldsText(v: View, ops: seq<Op>, page: nat)
    requires Fits(v) && page >= MIN_EXTEND
    ensures |Results(v, ops, page)| == |ops|
    ensures ApplyAll(v, ops, page).text == Text(v.text, ops, Results(v, ops, page))
    decreases |ops|
  {
    if ops != [] {
      ApplyKeepsFits(v, ops[0], page);
      BufferHoldsText(Apply(v, ops[0], page), ops[1..], page);
    }
  }

  /** Between a failed append and the next clear or finish no append succeeds. */
  lemma {:induction false} OverflowSticks(v: View, ops: seq<Op>, page: nat)
    requires Fits(v) && page >= MIN_EXTEND && v.overflowed
    requires forall i :: 0 <= i < |ops| ==> !ops[i].Clear? && !ops[i].Finish?
    ensures |Results(v, ops, page)| == |ops| && ApplyAll(v, ops, page).overflowed
    ensures forall i :: 0 <= i < |ops| && Appends(ops[i]) ==> !Results(v, ops, page)[i]
    decreases |ops|
  {
    if ops != [] {
      ApplyKeepsFits(v, ops[0], page);
      OverflowSticks(Apply(v, ops[0], page), ops[1..], page);
    }
  }
}
