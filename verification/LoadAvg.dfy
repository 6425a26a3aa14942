/**
 The load-average sampler: per-CPU tick counts turned into a utilisation, and folded into three
 fixed-point exponentially weighted averages.
 */
module LoadAvg {
  const FSCALE := 2048
  const CEXP: seq<nat> := [1884, 2014, 2037]

  function U64(x: int): nat { x % 0x1_0000_0000_0000_0000 }
  function U32(x: int): nat { x % 0x1_0000_0000 }

  /** What one CPU reports: nothing if it or its load information is unavailable. */
  datatype Cpu = Absent | Ticks(user: nat, system: nat, nice: nat, idle: nat)

  // ---------- one sample, as values ----------

  function BusySum(cpus: seq<Cpu>): nat {
    if cpus == [] then 0
    else
      var rest := BusySum(cpus[..|cpus| - 1]);
      match cpus[|cpus| - 1]
      case Absent => rest
      case Ticks(u, s, n, _) => U64(rest + U64(u + s + n))
  }

  function IdleSum(cpus: seq<Cpu>): nat {
    if cpus == [] then 0
    else
      var rest := IdleSum(cpus[..|cpus| - 1]);
      match cpus[|cpus| - 1]
      case Absent => rest
      case Ticks(_, _, _, i) => U64(rest + i)
  }

  /** Unsigned 64-bit subtraction. */
  function Delta(now: nat, before: nat): nat { (now - before) % 0x1_0000_0000_0000_0000 }

  /** Lines 567 to 571: utilisation times the number of CPUs, in fixed point. */
  function Load(dbusy: nat, didle: nat, ncpu: nat): nat {
    var total := U64(dbusy + didle);
    if total == 0 then 0 else U32(U64(dbusy * ncpu * FSCALE) / total)
  }

  /** Lines 574 to 575 for one average. */
  function Fold(c: nat, avg: nat, nrun: nat): nat
    requires c <= FSCALE
  {
    U32(U64(c * avg + nrun * (FSCALE - c)) / FSCALE)
  }

  datatype State = State(busy: nat, idle: nat, primed: bool, avg: seq<nat>)

  /** `la_sample` */
  function Sample(s: State, cpus: seq<Cpu>): State
    requires |s.avg| == 3
  {
    var busy, idle := BusySum(cpus), IdleSum(cpus);
    if !s.primed then s.(busy := busy, idle := idle, primed := true)
    else
      var nrun := Load(Delta(busy, s.busy), Delta(idle, s.idle), |cpus|);
      State(busy, idle, true, Folds(s.avg, nrun))
  }

  function Folds(avg: seq<nat>, nrun: nat): seq<nat>
    requires |avg| == 3
  {
    [Fold(1884, avg[0], nrun), Fold(2014, avg[1], nrun), Fold(2037, avg[2], nrun)]
  }

  /** The sampler's static variables, updated in place. */
  class Sampler {
    var busy: nat
    var idle: nat
    var primed: bool
    var ldavg: array<nat>
    var fscale: nat

    ghost predicate Valid()
      reads this
    {
      ldavg.Length == 3
    }

    ghost function View(): (s: State)
      requires Valid()
      reads this, ldavg
      ensures |s.avg| == 3
    {
      State(busy, idle, primed, ldavg[..])
    }

    constructor ()
      ensures Valid() && fresh(ldavg) && View() == State(0, 0, false, [0, 0, 0])
    {
      busy, idle, primed, fscale := 0, 0, false, FSCALE;
      ldavg := new nat[3](_ => 0);
    }

    method Run(cpus: seq<Cpu>)
      requires Valid()
      modifies this, ldavg
      ensures Valid() && ldavg == old(ldavg) && View() == Sample(old(View()), cpus)
    {
      var b, d := 0, 0;
      for i := 0 to |cpus|
        invariant b == BusySum(cpus[..i]) && d == IdleSum(cpus[..i])
      {
        assert cpus[..i + 1][..i] == cpus[..i];
        match cpus[i]
        case Absent =>
        case Ticks(u, s, n, idl) =>
          b := U64(b + U64(u + s + n));
          d := U64(d + idl);
      }
      assert cpus[..|cpus|] == cpus;
      if !primed {
        busy, idle, primed := b, d, true;
        return;
      }
      var dbusy, didle := Delta(b, busy), Delta(d, idle);
      busy, idle := b, d;
      var nrun := Load(dbusy, didle, |cpus|);
      ghost var before := old(ldavg[..]);
      for i := 0 to 3
        invariant Valid() && ldavg == old(ldavg) && busy == b && idle == d && primed
        invariant forall k :: 0 <= k < i ==> ldavg[k] == Fold(CEXP[k], before[k], nrun)
        invariant forall k :: i <= k < 3 ==> ldavg[k] == before[k]
      {
        ldavg[i] := Fold(CEXP[i], ldavg[i], nrun);
      }
      fscale := FSCALE;
      assert ldavg[..] == Folds(before, nrun);
    }
  }

  // ---------- the arithmetic of one update ----------

  /** The weighted average without machine limits. */
  function Ewma(c: nat, a: int, n: int): int
    requires c <= FSCALE
  {
    (c * a + n * (FSCALE - c)) / FSCALE
  }

  lemma TimesLess(x: int, y: int, z: nat)
    requires x <= y
    ensures x * z <= y * z
  {
  }

  lemma MixBetween(c: nat, a: nat, n: nat, lo: nat, hi: nat)
    requires c <= FSCALE && lo <= a <= hi && lo <= n <= hi
    ensures lo * FSCALE <= c * a + n * (FSCALE - c) <= hi * FSCALE
  {
    TimesLess(lo, a, c);
    TimesLess(a, hi, c);
    TimesLess(lo, n, FSCALE - c);
    TimesLess(n, hi, FSCALE - c);
    assert lo * c + lo * (FSCALE - c) == lo * FSCALE;
    assert hi * c + hi * (FSCALE - c) == hi * FSCALE;
  }

  lemma ShiftFits(x: int, lo: nat, hi: nat)
    requires lo * FSCALE <= x <= hi * FSCALE && hi < 0x1_0000_0000
    ensures U32(U64(x) / FSCALE) == x / FSCALE && lo <= x / FSCALE <= hi
  {
  }

  /** The update lies between the old value and the sample, so it never leaves 32 bits. */
  lemma FoldIsEwma(c: nat, a: nat, n: nat)
    requires c <= FSCALE && a < 0x1_0000_0000 && n < 0x1_0000_0000
    ensures Fold(c, a, n) == Ewma(c, a, n)
    ensures (if a <= n then a else n) <= Ewma(c, a, n) <= (if a <= n then n else a)
  {
    var lo, hi := if a <= n then a else n, if a <= n then n else a;
    MixBetween(c, a, n, lo, hi);
    ShiftFits(c * a + n * (FSCALE - c), lo, hi);
  }

  /** Above the load the excess shrinks to its floor. */
  lemma EwmaAbove(c: nat, n: nat, d: nat)
    requires c <= FSCALE
    ensures Ewma(c, n + d, n) == n + c * d / FSCALE
  {
    assert c * (n + d) + n * (FSCALE - c) == n * FSCALE + c * d;
  }

  /** The gap below the load after one update. */
  function NextGap(c: nat, d: nat): nat { (c * d + FSCALE - 1) / FSCALE }

  lemma EwmaBelow(c: nat, n: nat, d: nat)
    requires c <= FSCALE && d <= n
    ensures Ewma(c, n - d, n) == n - NextGap(c, d)
  {
    assert c * (n - d) + n * (FSCALE - c) == n * FSCALE - c * d;
  }

  /** The largest gap at which an average below the load rests. */
  function RestGap(c: nat): nat
    requires c < FSCALE
  {
    (FSCALE - 1) / (FSCALE - c)
  }

  /** A gap is kept exactly when it is less than FSCALE / (FSCALE - c); larger ones shrink. */
  lemma GapShrinks(c: nat, d: nat)
    requires c < FSCALE
    ensures NextGap(c, d) <= d
    ensures NextGap(c, d) == d <==> d * (FSCALE - c) < FSCALE
  {
    var p := d * (FSCALE - c);
    assert c * d == d * FSCALE - p;
    TimesLess(0, d, FSCALE - c);
    RoundUp(d, p);
  }

  lemma RoundUp(d: nat, p: nat)
    ensures (d * FSCALE - p + FSCALE - 1) / FSCALE <= d
    ensures (d * FSCALE - p + FSCALE - 1) / FSCALE == d <==> p < FSCALE
  {
  }

  lemma GapMonotone(c: nat, d: nat, d': nat)
    requires d <= d'
    ensures NextGap(c, d) <= NextGap(c, d')
  {
    TimesLess(d, d', c);
  }

  lemma RestIsLargest(c: nat, d: nat)
    requires c < FSCALE
    ensures d <= RestGap(c) <==> d * (FSCALE - c) < FSCALE
  {
    var e, g := FSCALE - c, RestGap(c);
    assert g * e <= FSCALE - 1 < (g + 1) * e;
    if d <= g { TimesLess(d, g, e); } else { TimesLess(g + 1, d, e); }
  }

  // ---------- constant load ----------

  function Iterate(c: nat, a: int, n: int, k: nat): int
    requires c <= FSCALE
    decreases k
  {
    if k == 0 then a else Iterate(c, Ewma(c, a, n), n, k - 1)
  }

  /** From above, every update comes strictly closer, and the load itself is reached and kept. */
  lemma {:induction false} FallsToLoad(c: nat, n: nat, d: nat, k: nat)
    requires c < FSCALE
    ensures d > 0 ==> n <= Ewma(c, n + d, n) < n + d
    ensures Iterate(c, n + d, n, k) >= n
    ensures k >= d ==> Iterate(c, n + d, n, k) == n
    decreases k
  {
    EwmaAbove(c, n, d);
    var d' := c * d / FSCALE;
    if d > 0 {
      assert c * d < FSCALE * d;
    }
    if k > 0 { FallsToLoad(c, n, d', k - 1); }
  }

  function Min(x: nat, y: nat): nat { if x <= y then x else y }

  /** From below, an average never overshoots and comes to rest exactly `Min(d, RestGap)` short of the load. */
  lemma {:induction false} RisesToRest(c: nat, n: nat, d: nat, k: nat)
    requires c < FSCALE && d <= n
    ensures n - d <= Iterate(c, n - d, n, k) <= n
    ensures k >= d || d <= RestGap(c) ==> Iterate(c, n - d, n, k) == n - Min(d, RestGap(c))
    decreases k
  {
    EwmaBelow(c, n, d);
    GapShrinks(c, d);
    RestIsLargest(c, d);
    var g := RestGap(c);
    RestIsLargest(c, g);
    GapShrinks(c, g);
    if d > g { GapMonotone(c, g, d); }
    if k > 0 { RisesToRest(c, n, NextGap(c, d), k - 1); }
  }

  // ---------- whole runs ----------

  /** The tick totals do not go backwards and the fixed-point product fits 64 bits. */
  predicate Plausible(s: State, cpus: seq<Cpu>) {
    s.primed ==>
      && s.busy <= BusySum(cpus) && s.idle <= IdleSum(cpus)
      && (BusySum(cpus) - s.busy) * |cpus| * FSCALE < 0x1_0000_0000_0000_0000
      && (BusySum(cpus) - s.busy) + (IdleSum(cpus) - s.idle) < 0x1_0000_0000_0000_0000
  }

  lemma QuotientBounded(x: nat, y: nat, b: nat)
    requires y > 0 && x <= b * y
    ensures x / y <= b
  {
    assert y * (x / y) <= x;
    if b + 1 <= x / y {
      TimesLess(b + 1, x / y, y);
      assert false;
    }
  }

  lemma ShareBounded(part: nat, whole: nat, ncpu: nat)
    requires part <= whole
    ensures 0 <= part * ncpu * FSCALE <= (ncpu * FSCALE) * whole
  {
    TimesLess(part, whole, ncpu);
  }

  lemma QuotientFits(x: nat, y: nat, top: nat)
    requires 0 < y && x < 0x1_0000_0000_0000_0000 && top < 0x1_0000_0000 && x / y <= top
    ensures U32(U64(x) / y) == x / y
  {
  }

  /** The load with the product given as one number. */
  lemma LoadOf(dbusy: nat, didle: nat, ncpu: nat, x: nat, top: nat)
    requires x == dbusy * ncpu * FSCALE && x <= top * (dbusy + didle)
    requires x < 0x1_0000_0000_0000_0000 && dbusy + didle < 0x1_0000_0000_0000_0000 && top < 0x1_0000_0000
    ensures dbusy + didle > 0 ==> Load(dbusy, didle, ncpu) == x / (dbusy + didle) <= top
    ensures dbusy + didle == 0 ==> Load(dbusy, didle, ncpu) == 0
  {
    var total := dbusy + didle;
    if total > 0 {
      QuotientBounded(x, total, top);
      QuotientFits(x, total, top);
    }
  }

  /** The load is the busy share of the ticks times the number of CPUs, and never more than that number. */
  lemma LoadBounded(dbusy: nat, didle: nat, ncpu: nat)
    requires dbusy * ncpu * FSCALE < 0x1_0000_0000_0000_0000 && dbusy + didle < 0x1_0000_0000_0000_0000
    requires ncpu * FSCALE < 0x1_0000_0000
    ensures dbusy + didle > 0 ==> Load(dbusy, didle, ncpu) == dbusy * ncpu * FSCALE / (dbusy + didle)
    ensures Load(dbusy, didle, ncpu) <= ncpu * FSCALE
  {
    ShareBounded(dbusy, dbusy + didle, ncpu);
    LoadOf(dbusy, didle, ncpu, dbusy * ncpu * FSCALE, ncpu * FSCALE);
  }

  ghost predicate Bounded(avg: seq<nat>, top: nat) {
    |avg| == 3 && avg[0] <= top && avg[1] <= top && avg[2] <= top
  }

  lemma FoldBounded(c: nat, a: nat, nrun: nat, top: nat)
    requires c <= FSCALE && a <= top && nrun <= top < 0x1_0000_0000
    ensures Fold(c, a, nrun) == Ewma(c, a, nrun) && Fold(c, a, nrun) <= top
  {
    FoldIsEwma(c, a, nrun);
  }

  lemma FoldsBounded(avg: seq<nat>, nrun: nat, top: nat)
    requires Bounded(avg, top) && nrun <= top < 0x1_0000_0000
    ensures Bounded(Folds(avg, nrun), top)
    ensures Folds(avg, nrun) == [Ewma(1884, avg[0], nrun), Ewma(2014, avg[1], nrun), Ewma(2037, avg[2], nrun)]
  {
    FoldBounded(1884, avg[0], nrun, top);
    FoldBounded(2014, avg[1], nrun, top);
    FoldBounded(2037, avg[2], nrun, top);
  }

  lemma DeltaIsDifference(now: nat, before: nat)
    requires before <= now && now - before < 0x1_0000_0000_0000_0000
    ensures Delta(now, before) == now - before
  {
  }

  /** A sample that follows another one sees the busy share of the ticks in between. */
  lemma SampleLoad(s: State, cpus: seq<Cpu>)
    requires s.primed && Plausible(s, cpus) && |cpus| * FSCALE < 0x1_0000_0000
    ensures var dbusy, didle := BusySum(cpus) - s.busy, IdleSum(cpus) - s.idle;
            Load(Delta(BusySum(cpus), s.busy), Delta(IdleSum(cpus), s.idle), |cpus|) == Load(dbusy, didle, |cpus|)
            <= |cpus| * FSCALE
  {
    DeltaIsDifference(BusySum(cpus), s.busy);
    DeltaIsDifference(IdleSum(cpus), s.idle);
    LoadBounded(BusySum(cpus) - s.busy, IdleSum(cpus) - s.idle, |cpus|);
  }

  lemma SampleKeepsBounds(s: State, cpus: seq<Cpu>)
    requires Bounded(s.avg, |cpus| * FSCALE) && Plausible(s, cpus) && |cpus| * FSCALE < 0x1_0000_0000
    ensures Bounded(Sample(s, cpus).avg, |cpus| * FSCALE)
  {
    if s.primed {
      SampleLoad(s, cpus);
      var nrun := Load(Delta(BusySum(cpus), s.busy), Delta(IdleSum(cpus), s.idle), |cpus|);
      FoldsBounded(s.avg, nrun, |cpus| * FSCALE);
    }
  }

  function Samples(s: State, run: seq<seq<Cpu>>): (r: State)
    requires |s.avg| == 3
    ensures |r.avg| == 3
    decreases |run|
  {
    if run == [] then s else Samples(Sample(s, run[0]), run[1..])
  }

  ghost predicate PlausibleRun(s: State, run: seq<seq<Cpu>>, ncpu: nat)
    requires |s.avg| == 3
    decreases |run|
  {
    run != [] ==> |run[0]| == ncpu && Plausible(s, run[0]) && PlausibleRun(Sample(s, run[0]), run[1..], ncpu)
  }

  /** Over any plausible run from zero every average stays between 0 and the number of CPUs. */
  lemma {:induction false} RunStaysBounded(s: State, run: seq<seq<Cpu>>, ncpu: nat)
    requires Bounded(s.avg, ncpu * FSCALE) && PlausibleRun(s, run, ncpu) && ncpu * FSCALE < 0x1_0000_0000
    ensures Bounded(Samples(s, run).avg, ncpu * FSCALE)
    decreases |run|
  {
    if run != [] {
      SampleKeepsBounds(s, run[0]);
      RunStaysBounded(Sample(s, run[0]), run[1..], ncpu);
    }
  }

  // ---------- runs under constant load ----------

  /** Every sample of the run sees the load `n`. */
  ghost predicate ConstantLoad(s: State, run: seq<seq<Cpu>>, ncpu: nat, n: nat)
    requires |s.avg| == 3
    decreases |run|
  {
    run != [] ==>
      && s.primed && |run[0]| == ncpu && Plausible(s, run[0])
      && Load(Delta(BusySum(run[0]), s.busy), Delta(IdleSum(run[0]), s.idle), |run[0]|) == n
      && ConstantLoad(Sample(s, run[0]), run[1..], ncpu, n)
  }

  /** One sample at load `n` is one step of the weighted average. */
  lemma SampleIterates(s: State, cpus: seq<Cpu>, n: nat, top: nat)
    requires s.primed && Bounded(s.avg, top) && n <= top < 0x1_0000_0000
    requires Load(Delta(BusySum(cpus), s.busy), Delta(IdleSum(cpus), s.idle), |cpus|) == n
    ensures Sample(s, cpus).avg == [Ewma(1884, s.avg[0], n), Ewma(2014, s.avg[1], n), Ewma(2037, s.avg[2], n)]
    ensures Bounded(Sample(s, cpus).avg, top)
  {
    FoldsBounded(s.avg, n, top);
  }

  lemma {:induction false} RunIterates(s: State, run: seq<seq<Cpu>>, ncpu: nat, n: nat, top: nat)
    requires Bounded(s.avg, top) && n <= top < 0x1_0000_0000 && ConstantLoad(s, run, ncpu, n)
    ensures forall i :: 0 <= i < 3 ==> Samples(s, run).avg[i] == Iterate(CEXP[i], s.avg[i], n, |run|)
    decreases |run|
  {
    if run != [] {
      SampleIterates(s, run[0], n, top);
      RunIterates(Sample(s, run[0]), run[1..], ncpu, n, top);
    }
  }

  /** After as many samples under constant load as the average was away from it, an average that was above is exactly the
      load, and one that was below is at rest, at most 12, 60 and 186 units of 1/2048 short of it. */
  lemma ConstantLoadSettles(s: State, run: seq<seq<Cpu>>, ncpu: nat, n: nat, top: nat, i: nat)
    requires Bounded(s.avg, top) && n <= top < 0x1_0000_0000 && ConstantLoad(s, run, ncpu, n) && i < 3
    ensures s.avg[i] >= n && |run| >= s.avg[i] - n ==> Samples(s, run).avg[i] == n
    ensures s.avg[i] <= n && |run| >= n - s.avg[i] ==> Samples(s, run).avg[i] == n - Min(n - s.avg[i], [12, 60, 186][i])
    ensures s.avg[i] <= n ==> s.avg[i] <= Samples(s, run).avg[i] <= n
  {
    RunIterates(s, run, ncpu, n, top);
    assert RestGap(1884) == 12 && RestGap(2014) == 60 && RestGap(2037) == 186;
    if s.avg[i] >= n {
      FallsToLoad(CEXP[i], n, s.avg[i] - n, |run|);
    }
    if s.avg[i] <= n {
      RisesToRest(CEXP[i], n, n - s.avg[i], |run|);
    }
  }

  // ---------- from tick counts to the load ----------

  function UserOf(c: Cpu): nat { if c.Ticks? then c.user else 0 }
  function SystemOf(c: Cpu): nat { if c.Ticks? then c.system else 0 }
  function NiceOf(c: Cpu): nat { if c.Ticks? then c.nice else 0 }
  function IdleOf(c: Cpu): nat { if c.Ticks? then c.idle else 0 }

  /** One kind of tick over all CPUs, without machine limits. */
  function Total(cpus: seq<Cpu>, of: Cpu -> nat): nat {
    if cpus == [] then 0 else Total(cpus[..|cpus| - 1], of) + of(cpus[|cpus| - 1])
  }

  function BusyTotal(cpus: seq<Cpu>): nat { Total(cpus, UserOf) + Total(cpus, SystemOf) + Total(cpus, NiceOf) }
  function IdleTotal(cpus: seq<Cpu>): nat { Total(cpus, IdleOf) }

  lemma U64Adds(x: nat, y: nat)
    ensures U64(U64(x) + U64(y)) == U64(x + y) && U64(U64(x) + y) == U64(x + y)
  {
    var w := 0x1_0000_0000_0000_0000;
    var p, q := x / w, y / w;
    assert x == p * w + U64(x) && y == q * w + U64(y);
    U64Period(U64(x) + U64(y), p + q);
    U64Period(U64(x) + y, p);
  }

  lemma {:induction false} U64Period(x: nat, k: nat)
    ensures U64(x + k * 0x1_0000_0000_0000_0000) == U64(x)
  {
    if k > 0 { U64Period(x, k - 1); }
  }

  /** The two sums the sampler keeps are the user, system and nice ticks of all CPUs that report, and their idle ticks, modulo 2^64. */
  lemma {:induction false} SumsAreTotals(cpus: seq<Cpu>)
    ensures BusySum(cpus) == U64(Total(cpus, UserOf) + Total(cpus, SystemOf) + Total(cpus, NiceOf))
    ensures IdleSum(cpus) == U64(Total(cpus, IdleOf))
  {
    if cpus != [] {
      var rest, c := cpus[..|cpus| - 1], cpus[|cpus| - 1];
      SumsAreTotals(rest);
      U64Adds(BusyTotal(rest), UserOf(c) + SystemOf(c) + NiceOf(c));
      U64Adds(IdleTotal(rest), IdleOf(c));
    }
  }

  lemma DeltaOfTotals(x: nat, y: nat)
    requires y <= x < y + 0x1_0000_0000_0000_0000
    ensures Delta(U64(x), U64(y)) == x - y
  {
    var w := 0x1_0000_0000_0000_0000;
    var p, q := x / w, y / w;
    assert x == p * w + U64(x) && y == q * w + U64(y);
    assert p == q || p == q + 1 by { QuotientsClose(p, q, U64(x), U64(y), x - y); }
  }

  lemma QuotientsClose(p: int, q: int, a: nat, b: nat, d: nat)
    requires a < 0x1_0000_0000_0000_0000 && b < 0x1_0000_0000_0000_0000 && d < 0x1_0000_0000_0000_0000
    requires p * 0x1_0000_0000_0000_0000 + a == q * 0x1_0000_0000_0000_0000 + b + d
    ensures p == q || p == q + 1
  {
  }

  /**
   The first reading only primes the sampler and leaves the averages alone.  The second folds in the
   share of busy ticks among all ticks in between, times the number of CPUs, in fixed point; it folds
   in zero when no tick has passed.
   */
  lemma LoadOfTwoReadings(s: State, before: seq<Cpu>, after: seq<Cpu>, dbusy: nat, didle: nat)
    requires |s.avg| == 3 && !s.primed
    requires BusyTotal(after) == BusyTotal(before) + dbusy && IdleTotal(after) == IdleTotal(before) + didle
    requires dbusy + didle < 0x1_0000_0000_0000_0000 && dbusy * |after| * FSCALE < 0x1_0000_0000_0000_0000
    ensures Sample(s, before).primed && Sample(s, before).avg == s.avg
    ensures Sample(Sample(s, before), after).avg ==
            Folds(s.avg, if dbusy + didle == 0 then 0 else U32(dbusy * |after| * FSCALE / (dbusy + didle)))
  {
    SumsAreTotals(before);
    SumsAreTotals(after);
    DeltaOfTotals(BusyTotal(after), BusyTotal(before));
    DeltaOfTotals(IdleTotal(after), IdleTotal(before));
    LoadIsShare(dbusy, didle, |after|);
  }

  lemma LoadIsShare(dbusy: nat, didle: nat, ncpu: nat)
    requires dbusy + didle < 0x1_0000_0000_0000_0000 && dbusy * ncpu * FSCALE < 0x1_0000_0000_0000_0000
    ensures Load(dbusy, didle, ncpu) == if dbusy + didle == 0 then 0 else U32(dbusy * ncpu * FSCALE / (dbusy + didle))
  {
    SmallU64(dbusy + didle);
    SmallU64(dbusy * ncpu * FSCALE);
  }

  lemma SmallU64(x: nat)
    requires x < 0x1_0000_0000_0000_0000
    ensures U64(x) == x
  {
  }
}
