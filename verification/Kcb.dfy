/**
 The kernel-callback reference counter of libkext: get, put and one invalidate, each a loop of loads
 and compare-and-swaps on one shared counter, interleaved by any number of threads.
 */
module Kcb {
  type Tid = nat

  datatype Pc =
    | Getting                    // about to load the counter
    | GetLoaded(rd: int)         // loaded a non-negative value, about to compare and swap
    | Holding(before: int)       // get succeeded and returned this value
    | Refused(rd: int)           // get returned this value, negative
    | Put(before: int)           // put returned this value
    | Invalidating               // about to load the counter
    | Draining                   // waiting for the counter to reach zero
    | Swapping                   // saw zero, about to compare and swap
    | Invalidated

  /** `invalid` records whether the swap to -1 has happened; `failed` whether an assertion of the code was violated. */
  datatype State = State(counter: int, threads: map<Tid, Pc>, invalidator: bool, invalid: bool, failed: bool)

  datatype Action = BeginGet(t: Tid) | BeginInvalidate(t: Tid) | Run(t: Tid)

  predicate Enabled(s: State, a: Action) {
    match a
    case BeginGet(t) => t !in s.threads
    case BeginInvalidate(t) => t !in s.threads && !s.invalidator
    case Run(t) => t in s.threads && s.threads[t] != Invalidated && !s.threads[t].Refused? && !s.threads[t].Put?
  }

  function At(s: State, t: Tid, pc: Pc): State { s.(threads := s.threads[t := pc]) }

  /** One atomic access to the counter by thread `t`.  A thread that holds a reference puts it. */
  function RunThread(s: State, t: Tid): State
    requires t in s.threads
  {
    match s.threads[t]
    case Getting => At(s, t, if s.counter < 0 then Refused(s.counter) else GetLoaded(s.counter))
    case GetLoaded(rd) =>
      if s.counter == rd then At(s.(counter := rd + 1), t, Holding(rd)) else At(s, t, Getting)
    case Holding(_) =>
      At(s.(counter := s.counter - 1, failed := s.failed || s.counter <= 0), t, Put(s.counter))
    case Invalidating => At(s.(failed := s.failed || s.counter < 0), t, Draining)
    case Draining => if s.counter > 0 then s else At(s, t, Swapping)
    case Swapping =>
      if s.counter == 0 then At(s.(counter := -1, invalid := true), t, Invalidated) else At(s, t, Invalidating)
    case _ => s
  }

  function Step(s: State, a: Action): State
    requires Enabled(s, a)
  {
    match a
    case BeginGet(t) => At(s, t, Getting)
    case BeginInvalidate(t) => At(s, t, Invalidating).(invalidator := true)
    case Run(t) => RunThread(s, t)
  }

  predicate Init(s: State) { s == State(0, map[], false, false, false) }

  ghost predicate Runs(s: State, run: seq<Action>, s': State)
    decreases |run|
  {
    if run == [] then s' == s
    else Enabled(s, run[0]) && Runs(Step(s, run[0]), run[1..], s')
  }

  ghost function Holders(threads: map<Tid, Pc>): set<Tid> { set t | t in threads && threads[t].Holding? }

  predicate Invalidates(pc: Pc) { pc.Invalidating? || pc.Draining? || pc.Swapping? || pc.Invalidated? }

  ghost predicate CountOk(s: State) {
    && s.counter == (if s.invalid then -1 else |Holders(s.threads)|)
    && (s.invalid ==> |Holders(s.threads)| == 0)
  }

  ghost predicate PcsOk(s: State) {
    && (forall t :: t in s.threads && s.threads[t].GetLoaded? ==> s.threads[t].rd >= 0)
    && (forall t :: t in s.threads && Invalidates(s.threads[t]) ==> s.invalidator && (s.threads[t].Invalidated? <==> s.invalid))
    && (forall t, u :: t in s.threads && u in s.threads && Invalidates(s.threads[t]) ==> Invalidates(s.threads[u]) ==> t == u)
    && (s.invalid ==> s.invalidator)
  }

  ghost predicate Inv(s: State) { !s.failed && CountOk(s) && PcsOk(s) }

  lemma CardWithout(h: set<Tid>, t: Tid)
    ensures |h| == |h - {t}| + (if t in h then 1 else 0)
  {
    if t in h { assert h == (h - {t}) + {t}; } else { assert h == h - {t}; }
  }

  lemma HoldersElsewhere(threads: map<Tid, Pc>, t: Tid, pc: Pc)
    ensures Holders(threads[t := pc]) - {t} == Holders(threads) - {t}
  {
  }

  lemma HoldersUpdate(threads: map<Tid, Pc>, t: Tid, pc: Pc)
    ensures |Holders(threads[t := pc])| ==
              |Holders(threads)| - (if t in threads && threads[t].Holding? then 1 else 0) + (if pc.Holding? then 1 else 0)
  {
    HoldersElsewhere(threads, t, pc);
    CardWithout(Holders(threads), t);
    CardWithout(Holders(threads[t := pc]), t);
  }

  lemma HolderCounted(threads: map<Tid, Pc>, t: Tid)
    requires t in threads && threads[t].Holding?
    ensures |Holders(threads)| >= 1
  {
    HoldersUpdate(threads, t, Getting);
  }

  lemma RunCounts(s: State, t: Tid)
    requires Inv(s) && Enabled(s, Run(t))
    ensures CountOk(RunThread(s, t)) && !RunThread(s, t).failed
  {
    var s' := RunThread(s, t);
    HoldersUpdate(s.threads, t, s'.threads[t]);
    assert s'.threads == s.threads[t := s'.threads[t]];
    if s.threads[t].Holding? { HolderCounted(s.threads, t); }
  }

  lemma RunPcs(s: State, t: Tid)
    requires PcsOk(s) && Enabled(s, Run(t))
    ensures PcsOk(RunThread(s, t)) && (s.invalid ==> RunThread(s, t).invalid)
  {
  }

  lemma StepKeeps(s: State, a: Action)
    requires Inv(s) && Enabled(s, a)
    ensures Inv(Step(s, a)) && (s.invalid ==> Step(s, a).invalid)
  {
    match a
    case Run(t) => RunCounts(s, t); RunPcs(s, t);
    case BeginGet(t) => HoldersUpdate(s.threads, t, Getting);
    case BeginInvalidate(t) => HoldersUpdate(s.threads, t, Invalidating);
  }

  lemma {:induction false} RunKeeps(s: State, run: seq<Action>, s': State)
    requires Inv(s) && Runs(s, run, s')
    ensures Inv(s') && (s.invalid ==> s'.invalid)
    decreases |run|
  {
    if run != [] {
      StepKeeps(s, run[0]);
      RunKeeps(Step(s, run[0]), run[1..], s');
    }
  }

  /**
   Until the invalidation takes effect the counter is the number of holders; it takes effect only
   when there is none; from then on the counter is -1 and there is no holder; and neither assertion
   of the code is ever violated.
   */
  lemma CounterCountsHolders(s: State, run: seq<Action>, s': State)
    requires Init(s) && Runs(s, run, s')
    ensures !s'.failed
    ensures !s'.invalid ==> s'.counter == |Holders(s'.threads)|
    ensures s'.invalid ==> s'.counter == -1 && Holders(s'.threads) == {}
  {
    assert Holders(s.threads) == {};
    RunKeeps(s, run, s');
  }

  /** A step that takes the invalidation into effect finds no holder, and a get that returns reports the holders before it. */
  lemma SwapNeedsNoHolder(s: State, run: seq<Action>, s': State, t: Tid)
    requires Init(s) && Runs(s, run, s') && Enabled(s', Run(t))
    ensures Step(s', Run(t)).invalid && !s'.invalid ==> Holders(s'.threads) == {}
    ensures !s'.threads[t].Holding? && Step(s', Run(t)).threads[t].Holding? ==>
              Step(s', Run(t)).threads[t].before == |Holders(s'.threads)| && t !in Holders(s'.threads)
  {
    assert Holders(s.threads) == {};
    RunKeeps(s, run, s');
  }

  /** Once invalid, always invalid: whatever runs afterwards, the counter stays -1 and no get succeeds. */
  lemma InvalidForever(s: State, run: seq<Action>, m: State, later: seq<Action>, s': State)
    requires Init(s) && Runs(s, run, m) && m.invalid && Runs(m, later, s')
    ensures s'.invalid && s'.counter == -1
    ensures forall t :: t in s'.threads ==> !s'.threads[t].Holding?
    ensures forall t :: Enabled(s', Run(t)) ==> !Step(s', Run(t)).threads[t].Holding?
  {
    assert Holders(s.threads) == {};
    RunKeeps(s, run, m);
    RunKeeps(m, later, s');
    forall t | t in s'.threads ensures !s'.threads[t].Holding? { assert t !in Holders(s'.threads); }
  }

  // ---------- what each call comes to when nobody interferes ----------

  /**
   A get that loads the counter before the invalidation takes effect, and whose swap finds it
   unchanged, holds a reference, however many there are already; it returns their number.  A get
   that comes later is refused with -1.
   */
  lemma GetSucceeds(s: State, run: seq<Action>, s': State, t: Tid)
    requires Init(s) && Runs(s, run, s') && t in s'.threads && s'.threads[t].Getting?
    ensures var n := |Holders(s'.threads)|; var s1 := RunThread(s', t);
            if s'.invalid then s1 == At(s', t, Refused(-1))
            else t in s1.threads && RunThread(s1, t) == At(s', t, Holding(n)).(counter := n + 1)
  {
    CounterCountsHolders(s, run, s');
    var s1 := RunThread(s', t);
    if !s'.invalid {
      assert RunThread(s1, t).threads == s'.threads[t := Holding(s'.counter)];
    }
  }

  /** A put gives the reference back and returns how many there were, its own included. */
  lemma PutGivesBack(s: State, run: seq<Action>, s': State, t: Tid)
    requires Init(s) && Runs(s, run, s') && t in s'.threads && s'.threads[t].Holding?
    ensures var n := |Holders(s'.threads)|;
            n >= 1 && !s'.invalid && RunThread(s', t) == At(s', t, Put(n)).(counter := n - 1)
            && Holders(RunThread(s', t).threads) == Holders(s'.threads) - {t}
  {
    CounterCountsHolders(s, run, s');
    HolderCounted(s'.threads, t);
  }

  /** An invalidation waits while there is a holder, and with none left three steps bring it into effect. */
  lemma InvalidateSucceeds(s: State, run: seq<Action>, s': State, t: Tid)
    requires Init(s) && Runs(s, run, s') && t in s'.threads && s'.threads[t].Invalidating?
    ensures var s1 := RunThread(s', t);
            && t in s1.threads && s1 == At(s', t, Draining)
            && var s2 := RunThread(s1, t);
               if Holders(s'.threads) != {} then s2 == s1
               else t in s2.threads && RunThread(s2, t) == At(s', t, Invalidated).(counter := -1, invalid := true)
  {
    assert Holders(s.threads) == {};
    RunKeeps(s, run, s');
    var s1 := RunThread(s', t);
    var s2 := RunThread(s1, t);
    if Holders(s'.threads) == {} {
      assert RunThread(s2, t).threads == s'.threads[t := Invalidated];
    } else {
      assert |Holders(s'.threads)| > 0;
    }
  }

  /** A get whose swap finds the counter changed starts over and leaves the counter alone. */
  lemma DisturbedGetRetries(s: State, t: Tid)
    requires t in s.threads && s.threads[t].GetLoaded? && s.counter != s.threads[t].rd
    ensures RunThread(s, t) == At(s, t, Getting)
  {
  }
}
