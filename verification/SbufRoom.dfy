/** When a string buffer takes what it is given, and when one is created, in terms of lengths alone. */
module SbufRoom {
  import opened Options
  import opened SbufSpec
  import opened Sbuf

  /** A page is 16 bytes doubled some number of times. */
  predicate PageSize(page: nat) { MIN_EXTEND <= page <= INT_MAX && Doubled(MIN_EXTEND, page) == page }

  /** The largest size in whole pages that an integer can hold. */
  function Largest(page: nat): nat
    requires page > 0
  {
    INT_MAX / page * page
  }

  lemma {:induction false} DoubledWithin(size: nat, target: nat, page: nat)
    requires size > 0 && target <= page && Doubled(size, page) == page
    ensures Doubled(size, target) <= page
    decreases if size < target then target - size else 0
  {
    if size < target { DoubledWithin(size * 2, target, page); }
  }

  lemma PagesFit(target: nat, page: nat)
    requires page > 0
    ensures (target + page - 1) / page * page <= INT_MAX <==> target <= Largest(page)
  {
    var up, down := (target + page - 1) / page, INT_MAX / page;
    assert INT_MAX == down * page + INT_MAX % page;
    PagesCover(target, page);
    if up <= down { WholePages(up, down, page); } else { WholePages(down + 1, up, page); }
  }

  lemma WholePages(a: nat, b: nat, page: nat)
    requires a <= b
    ensures a * page <= b * page
  {
  }

  lemma OnePageFits(page: nat)
    requires 0 < page <= INT_MAX
    ensures page <= Largest(page)
  {
    WholePages(1, INT_MAX / page, page);
  }

  /** A size can be rounded up exactly when it is within the largest one in whole pages. */
  lemma RoundedFits(target: nat, page: nat)
    requires PageSize(page)
    ensures Rounded(target, page) <= INT_MAX <==> target <= Largest(page)
  {
    OnePageFits(page);
    if target < page { DoubledWithin(MIN_EXTEND, target, page); } else { PagesFit(target, page); }
  }

  /** Room for `n` more bytes and the terminator. */
  predicate Takes(v: View, n: nat, ok: bool, page: nat)
    requires page > 0
  {
    |v.text| + n < v.size || (v.auto && ok && |v.text| + n + 1 <= INT_MAX / page * page)
  }

  lemma LargestIsSmall(page: nat)
    requires page > 0
    ensures Largest(page) <= INT_MAX
  {
    assert INT_MAX == INT_MAX / page * page + INT_MAX % page;
  }

  lemma GrownIff(v: View, wanted: nat, ok: bool, page: nat)
    requires Fits(v) && PageSize(page)
    ensures Grown(v, wanted, ok, page).Some? <==> Takes(v, wanted, ok, page)
  {
    var target := |v.text| + wanted + 1;
    assert v.size + (wanted - (v.size - |v.text| - 1)) == target;
    RoundedFits(target, page);
    LargestIsSmall(page);
  }

  /**
   Exactly when each operation succeeds.  A buffer that has overflowed takes nothing.  Otherwise text
   is taken when it fits with its terminator, or when the buffer may grow, memory is there and the
   new length with its terminator is within the largest size in whole pages.
   */
  lemma SucceedsIff(v: View, op: Op, page: nat)
    requires Fits(v) && PageSize(page)
    ensures Succeeds(v, op, page) <==>
              match op
              case Append(data, ok) => !v.overflowed && Takes(v, |data|, ok, page)
              case Print(None, _) => false
              case Print(Some(text), ok) => !v.overflowed && Takes(v, |text|, ok, page)
              case Put(_, ok) => !v.overflowed && Takes(v, 1, ok, page)
              case Trim => !v.overflowed
              case SetPos(pos) => 0 <= pos <= |v.text|
              case Clear => true
              case Finish => true
  {
    if Appends(op) { GrownIff(v, Wanted(op), op.ok, page); }
  }

  /** A buffer that cannot grow takes text exactly while it is shorter than the space left. */
  lemma FixedTakesWhatFits(v: View, data: string, ok: bool, page: nat)
    requires Fits(v) && !v.auto && !v.overflowed && page > 0
    ensures Succeeds(v, Append(data, ok), page) <==> |v.text| + |data| < v.size
    ensures Apply(v, Append(data, ok), page) ==
            if |v.text| + |data| < v.size then v.(text := v.text + data) else v.(overflowed := true)
  {
  }

  /** A buffer that can grow takes any text, as long as memory is there and a page more would still be a legal size. */
  lemma GrowingTakesAll(v: View, data: string, page: nat)
    requires Fits(v) && v.auto && !v.overflowed && page >= MIN_EXTEND && |v.text| + |data| + 1 + page <= INT_MAX
    ensures Succeeds(v, Append(data, true), page)
    ensures var v' := Apply(v, Append(data, true), page);
            v' == v.(text := v.text + data, size := v'.size) && v.size <= v'.size && |v.text| + |data| < v'.size
  {
    var target := |v.text| + |data| + 1;
    assert v.size + (|data| - (v.size - |v.text| - 1)) == target;
    RoundedUpTo(target, page);
    GrownHoldsWanted(v, |data|, true, page);
  }

  lemma RoundedUpTo(target: nat, page: nat)
    requires page >= MIN_EXTEND
    ensures Rounded(target, page) <= target + page
  {
    if target < page { DoubledCovers(MIN_EXTEND, target); } else { PagesCover(target, page); }
  }

  /** Exactly when a buffer is created, and with what size. */
  lemma CreatesIff(length: int, userFlags: bool, given: bool, auto: bool, okStruct: bool, okBuf: bool, page: nat)
    requires PageSize(page)
    ensures Creates(length, userFlags, given, auto, okStruct, okBuf, page) <==>
              && userFlags && okStruct && 0 <= length <= INT_MAX
              && (given || (okBuf && if auto then length <= INT_MAX / page * page else length > 0))
    ensures length >= 0 && (given || !auto) ==> InitialSize(given, length, auto, page) == length
    ensures length >= 0 && !given && auto ==>
              var size := InitialSize(given, length, auto, page); MIN_EXTEND <= size && length <= size <= length + page
  {
    if length >= 0 {
      RoundedFits(length, page);
      RoundedCovers(length, page);
      RoundedUpTo(length, page);
    }
  }

  // ---------- the flags over a sequence of calls ----------

  predicate Resets(op: Op) { op.Clear? || op.Finish? }

  /** A call that was to add text and failed; printing without output is not one. */
  predicate Failed(op: Op, done: bool) { Appends(op) && !done && !(op.Print? && op.output.None?) }

  ghost predicate NoneAfter(ops: seq<Op>, i: int, p: Op -> bool) {
    forall j :: 0 <= j < |ops| && i < j ==> !p(ops[j])
  }

  ghost predicate LateFailure(ops: seq<Op>, done: seq<bool>)
    requires |ops| == |done|
  {
    exists i :: 0 <= i < |ops| && Failed(ops[i], done[i]) && NoneAfter(ops, i, Resets)
  }

  lemma NoneAfterShift(ops: seq<Op>, i: int, p: Op -> bool)
    requires ops != [] && i >= -1
    ensures NoneAfter(ops, i + 1, p) == NoneAfter(ops[1..], i, p)
  {
    if NoneAfter(ops, i + 1, p) {
      forall j | 0 <= j < |ops[1..]| && i < j ensures !p(ops[1..][j]) { assert ops[1..][j] == ops[j + 1]; }
    }
    if NoneAfter(ops[1..], i, p) {
      forall j | 0 <= j < |ops| && i + 1 < j ensures !p(ops[j]) { assert ops[1..][j - 1] == ops[j]; }
    }
  }

  lemma LateFailureSplits(ops: seq<Op>, done: seq<bool>)
    requires |ops| == |done| && ops != []
    ensures LateFailure(ops, done) <==> (Failed(ops[0], done[0]) && NoneAfter(ops[1..], -1, Resets)) || LateFailure(ops[1..], done[1..])
  {
    var rest, after := ops[1..], done[1..];
    NoneAfterShift(ops, -1, Resets);
    if i :| 0 <= i < |ops| && Failed(ops[i], done[i]) && NoneAfter(ops, i, Resets) {
      if i > 0 {
        NoneAfterShift(ops, i - 1, Resets);
        assert Failed(rest[i - 1], after[i - 1]) && NoneAfter(rest, i - 1, Resets);
      }
    }
    if i :| 0 <= i < |rest| && Failed(rest[i], after[i]) && NoneAfter(rest, i, Resets) {
      NoneAfterShift(ops, i, Resets);
      assert Failed(ops[i + 1], done[i + 1]) && NoneAfter(ops, i + 1, Resets);
    }
    if Failed(ops[0], done[0]) && NoneAfter(rest, -1, Resets) { assert NoneAfter(ops, 0, Resets); }
  }

  lemma FlagStep(v: View, op: Op, page: nat)
    requires Fits(v) && page >= MIN_EXTEND
    ensures Apply(v, op, page).overflowed <==> !Resets(op) && (v.overflowed || Failed(op, Succeeds(v, op, page)))
    ensures Apply(v, op, page).finished <==> !op.Clear? && (v.finished || op.Finish?)
  {
  }

  /**
   After any sequence of calls the buffer reports an overflow exactly when an append has failed, or
   it had overflowed before, and nothing has been cleared or finished since.
   */
  lemma {:induction false} OverflowedIff(v: View, ops: seq<Op>, page: nat)
    requires Fits(v) && page >= MIN_EXTEND
    ensures |Results(v, ops, page)| == |ops|
    ensures ApplyAll(v, ops, page).overflowed <==>
              (v.overflowed && NoneAfter(ops, -1, Resets)) || LateFailure(ops, Results(v, ops, page))
    decreases |ops|
  {
    if ops != [] {
      var v', rest := Apply(v, ops[0], page), ops[1..];
      ApplyKeepsFits(v, ops[0], page);
      FlagStep(v, ops[0], page);
      OverflowedIff(v', rest, page);
      var done := Results(v, ops, page);
      assert done[1..] == Results(v', rest, page);
      LateFailureSplits(ops, done);
      NoneAfterShift(ops, -1, Resets);
      assert NoneAfter(ops, -1, Resets) <==> !Resets(ops[0]) && NoneAfter(ops, 0, Resets);
    }
  }
}
