/** What holds over every run of the kernel-control bridge. */
module CtlBridgeRuns {
  import opened Options
  import opened CtlBridge

  // ---------- sequence numbers ----------

  lemma NextRemainder(k: nat)
    requires k > 0
    ensures k % PERIOD == if (k - 1) % PERIOD == PERIOD - 1 then 0 else (k - 1) % PERIOD + 1
  {
    var q, r := (k - 1) / PERIOD, (k - 1) % PERIOD;
    assert k - 1 == q * PERIOD + r;
    if r == PERIOD - 1 {
      assert k == (q + 1) * PERIOD;
    } else {
      assert k == q * PERIOD + (r + 1);
    }
  }

  lemma NextSeqIs(r: nat)
    requires r < PERIOD
    ensures NextSeq(r + 1) == if r == PERIOD - 1 then 1 else r + 2
  {
  }

  lemma CounterStep(k: nat)
    ensures NextSeq(CounterAfter(k)) == SeqOf(k) == CounterAfter(k + 1)
  {
    if k > 0 {
      NextRemainder(k);
      NextSeqIs((k - 1) % PERIOD);
    }
  }

  lemma MultipleLeavesNothing(q: int)
    ensures q * PERIOD % PERIOD == 0
  {
  }

  lemma NothingLeftIsMultiple(d: int) returns (q: int)
    requires d % PERIOD == 0
    ensures d == q * PERIOD
  {
    q := d / PERIOD;
  }

  lemma SmallMultipleIsZero(a: nat, b: nat, q: int)
    requires a < PERIOD && b < PERIOD && a - b == q * PERIOD
    ensures a == b
  {
  }

  /** Sequence numbers are never 0, and two tickets share one exactly when they are a multiple of 2^32 - 1 apart. */
  lemma SeqOfRepeats(j: nat, k: nat)
    ensures 0 < SeqOf(j) <= PERIOD
    ensures SeqOf(j) == SeqOf(k) <==> (j - k) % PERIOD == 0
  {
    var p, q, a, b := j / PERIOD, k / PERIOD, j % PERIOD, k % PERIOD;
    assert j - k == (p - q) * PERIOD + (a - b);
    if a == b { MultipleLeavesNothing(p - q); }
    if (j - k) % PERIOD == 0 {
      var d := NothingLeftIsMultiple(j - k);
      SmallMultipleIsZero(a, b, d - (p - q));
    }
  }

  /** Any 2^32 - 1 consecutive allocations get pairwise distinct sequence numbers. */
  lemma SeqOfWindow(j: nat, k: nat)
    requires j < k < j + PERIOD
    ensures SeqOf(j) != SeqOf(k)
  {
    SeqOfRepeats(k, j);
  }

  // ---------- the searches ----------

  lemma {:induction false} FreeFromFinds(slots: seq<Slot>, i: nat)
    ensures match FreeFrom(slots, i)
            case Some(k) => i <= k < |slots| && !slots[k].inUse
            case None => forall k :: i <= k < |slots| ==> slots[k].inUse
    decreases |slots| - i
  {
    if i < |slots| && slots[i].inUse { FreeFromFinds(slots, i + 1); }
  }

  lemma {:induction false} MatchFromFinds(slots: seq<Slot>, seqNo: nat, i: nat)
    ensures match MatchFrom(slots, seqNo, i)
            case Some(k) => i <= k < |slots| && Pending(slots[k], seqNo)
            case None => forall k :: i <= k < |slots| ==> !Pending(slots[k], seqNo)
    decreases |slots| - i
  {
    if i < |slots| && !Pending(slots[i], seqNo) { MatchFromFinds(slots, seqNo, i + 1); }
  }

  // ---------- steps that touch one request and no slot ----------

  ghost predicate Others(s: State, s': State, t: Tid) {
    forall u :: u != t ==> (u in s.requests <==> u in s'.requests) && (u in s.requests ==> s'.requests[u] == s.requests[u])
  }

  lemma HeldKept(s: State, s': State, t: Tid, i: nat)
    requires Held(s, i) && Others(s, s', t) && |s'.slots| == |s.slots|
    requires t in s.requests && SlotOf(s.requests[t].pc) == Some(i) ==> t in s'.requests && SlotOf(s'.requests[t].pc) == Some(i)
    ensures Held(s', i)
  {
    var u :| HasPc(s, u, i);
    assert HasPc(s', u, i);
  }

  /** Request `t` moves on, keeping whatever slot it has. */
  ghost predicate Moves(s: State, s': State, t: Tid) {
    && s'.slots == s.slots && s'.counter == s.counter && s'.tickets == s.tickets && Others(s, s', t)
    && (t in s'.requests ==> RequestOk(s', s'.requests[t]))
    && (t in s.requests && SlotOf(s.requests[t].pc).Some? ==> t in s'.requests && SlotOf(s'.requests[t].pc) == SlotOf(s.requests[t].pc))
    && (t in s'.requests && SlotOf(s'.requests[t].pc).Some? ==> t in s.requests && SlotOf(s.requests[t].pc) == SlotOf(s'.requests[t].pc))
  }

  lemma MovesKeeps(s: State, s': State, t: Tid)
    requires Inv(s) && Moves(s, s', t) && WireOk(s')
    ensures Inv(s')
  {
    forall i | 0 <= i < |s'.slots| && s'.slots[i].inUse ensures Held(s', i) { HeldKept(s, s', t, i); }
  }

  lemma EndWaitKeeps(s: State, t: Tid, interrupted: bool)
    requires Inv(s) && Enabled(s, EndWait(t, interrupted))
    ensures Inv(Step(s, EndWait(t, interrupted)))
  {
    var s' := Step(s, EndWait(t, interrupted));
    var r := s.requests[t];
    OutcomeOk(s, r);
    MovesKeeps(s, s', t);
  }

  lemma OutcomeOk(s: State, r: Request)
    requires RequestOk(s, r) && r.pc.Waiting? && r.pc.slot < |s.slots| && SlotOk(s.slots[r.pc.slot])
    ensures DataOk(r, Outcome(s.slots[r.pc.slot], r.outcap))
  {
    var slot := s.slots[r.pc.slot];
    if slot.done && slot.error == 0 {
      var shown, n := Shown(slot.source.value, slot.stale), Count(slot.source.value, r.outcap);
      assert slot.buf[..n] == slot.buf[..slot.len][..n];
      assert shown[..n] == shown[..slot.len][..n];
    }
  }

  // ---------- steps that touch slots ----------

  lemma AllocKeeps(s: State, t: Tid)
    requires Inv(s) && Enabled(s, Alloc(t))
    ensures Inv(Step(s, Alloc(t)))
  {
    var s' := Step(s, Alloc(t));
    FreeFromFinds(s.slots, 0);
    match FreeFrom(s.slots, 0)
    case None => MovesKeeps(s, s', t);
    case Some(i) => ClaimKeeps(s, t, i);
  }

  function Claimed(s: State, t: Tid, i: nat): State
    requires t in s.requests && i < |s.slots|
  {
    s.(counter := NextSeq(s.counter), slots := s.slots[i := Claim(s.slots[i], NextSeq(s.counter))], tickets := s.tickets + 1,
       requests := s.requests[t := s.requests[t].(ticket := s.tickets, pc := Allocated(i))])
  }

  lemma ClaimRequests(s: State, t: Tid, i: nat)
    requires RequestsOk(s) && s.counter == CounterAfter(s.tickets) && t in s.requests && s.requests[t].pc.Checked?
    requires i < |s.slots| && !s.slots[i].inUse
    ensures RequestsOk(Claimed(s, t, i))
  {
    CounterStep(s.tickets);
    var s' := Claimed(s, t, i);
    forall u | u in s'.requests ensures RequestOk(s', s'.requests[u]) {
      assert RequestOk(s, s.requests[u]);
    }
    forall u | u in s.requests ensures SlotOf(s.requests[u].pc) != Some(i) {
      assert RequestOk(s, s.requests[u]);
    }
  }

  lemma ClaimSlots(s: State, t: Tid, i: nat)
    requires SlotsOk(s) && t in s.requests && s.requests[t].pc.Checked?
    requires i < |s.slots| && !s.slots[i].inUse
    ensures SlotsOk(Claimed(s, t, i))
  {
    var s' := Claimed(s, t, i);
    forall k | 0 <= k < |s'.slots| && s'.slots[k].inUse ensures Held(s', k) {
      if k == i { assert HasPc(s', t, i); } else { HeldKept(s, s', t, k); }
    }
  }

  lemma ClaimKeeps(s: State, t: Tid, i: nat)
    requires Inv(s) && t in s.requests && s.requests[t].pc.Checked? && i < |s.slots| && !s.slots[i].inUse
    ensures Inv(Claimed(s, t, i))
  {
    CounterStep(s.tickets);
    ClaimRequests(s, t, i);
    ClaimSlots(s, t, i);
  }

  lemma ReleaseRequests(s: State, t: Tid)
    requires RequestsOk(s) && Enabled(s, Release(t))
    ensures RequestsOk(Step(s, Release(t)))
  {
    var s' := Step(s, Release(t));
    var i := s.requests[t].pc.slot;
    forall u | u in s'.requests ensures RequestOk(s', s'.requests[u]) {
      assert RequestOk(s, s.requests[u]);
      if u != t { assert SlotOf(s.requests[u].pc) != Some(i); }
    }
  }

  lemma ReleaseSlots(s: State, t: Tid)
    requires SlotsOk(s) && Enabled(s, Release(t))
    ensures SlotsOk(Step(s, Release(t)))
  {
    var s' := Step(s, Release(t));
    forall k | 0 <= k < |s'.slots| && s'.slots[k].inUse ensures Held(s', k) { HeldKept(s, s', t, k); }
  }

  lemma ReleaseKeeps(s: State, t: Tid)
    requires Inv(s) && Enabled(s, Release(t))
    ensures Inv(Step(s, Release(t)))
  {
    ReleaseRequests(s, t);
    ReleaseSlots(s, t);
  }

  /** Slots change without being claimed, released or renumbered. */
  ghost predicate SlotsStay(s: State, s': State) {
    && s'.requests == s.requests && s'.tickets == s.tickets && s'.counter == s.counter && |s'.slots| == |s.slots|
    && forall i :: 0 <= i < |s.slots| ==>
         s'.slots[i].inUse == s.slots[i].inUse && s'.slots[i].seqNo == s.slots[i].seqNo && SlotOk(s'.slots[i])
  }

  lemma SlotsStayKeeps(s: State, s': State)
    requires Inv(s) && SlotsStay(s, s') && WireOk(s')
    ensures Inv(s')
  {
    forall k | 0 <= k < |s'.slots| && s'.slots[k].inUse ensures Held(s', k) {
      var u :| HasPc(s, u, k);
      assert HasPc(s', u, k);
    }
    forall u | u in s'.requests ensures RequestOk(s', s'.requests[u]) { assert RequestOk(s, s.requests[u]); }
  }

  lemma CompleteOk(slot: Slot, p: Packet)
    requires PacketOk(p) && Pending(slot, p.seqNo) && SlotOk(slot)
    ensures SlotOk(Complete(slot, p)) && Complete(slot, p).inUse && Complete(slot, p).seqNo == slot.seqNo
  {
    var c, plen := Complete(slot, p), Clamp(p.len);
    if 0 < plen <= |p.payload| { assert c.buf[..plen] == p.payload[..plen]; }
  }

  lemma DeliverKeeps(s: State, p: Packet)
    requires Inv(s) && Enabled(s, Deliver(p))
    ensures Inv(Step(s, Deliver(p)))
  {
    MatchFromFinds(s.slots, p.seqNo, 0);
    if MatchFrom(s.slots, p.seqNo, 0).Some? {
      CompleteOk(s.slots[MatchFrom(s.slots, p.seqNo, 0).value], p);
    }
    SlotsStayKeeps(s, Step(s, Deliver(p)));
  }

  lemma StepKeeps(s: State, a: Action)
    requires Inv(s) && Enabled(s, a)
    ensures Inv(Step(s, a))
  {
    var s' := Step(s, a);
    match a
    case Begin(t, _, _) => MovesKeeps(s, s', t);
    case Alloc(t) => AllocKeeps(s, t);
    case Enqueue(t) => EnqueueKeeps(s, t);
    case EnqueueErr(t, e) => EnqueueErrKeeps(s, t, e);
    case EndWait(t, interrupted) => EndWaitKeeps(s, t, interrupted);
    case Release(t) => ReleaseKeeps(s, t);
    case Return(t) => MovesKeeps(s, s', t);
    case Answer(m, _, _, _) => SlotsStayKeeps(s, s');
    case LoseRequest(m) => SlotsStayKeeps(s, s');
    case Deliver(p) => DeliverKeeps(s, p);
    case LoseReply(p) => SlotsStayKeeps(s, s');
    case Connect => SlotsStayKeeps(s, s');
    case Disconnect => SlotsStayKeeps(s, s');
  }

  lemma EnqueueKeeps(s: State, t: Tid)
    requires Inv(s) && Enabled(s, Enqueue(t))
    ensures Inv(Step(s, Enqueue(t)))
  {
    assert RequestOk(s, s.requests[t]);
    MovesKeeps(s, Step(s, Enqueue(t)), t);
  }

  lemma EnqueueErrKeeps(s: State, t: Tid, e: int)
    requires Inv(s) && Enabled(s, EnqueueErr(t, e))
    ensures Inv(Step(s, EnqueueErr(t, e)))
  {
    assert RequestOk(s, s.requests[t]);
    MovesKeeps(s, Step(s, EnqueueErr(t, e)), t);
  }

  lemma {:induction false} RunKeeps(s: State, run: seq<Action>, s': State)
    requires Inv(s) && Runs(s, run, s')
    ensures Inv(s')
    decreases |run|
  {
    if run != [] {
      StepKeeps(s, run[0]);
      RunKeeps(Step(s, run[0]), run[1..], s');
    }
  }

  // ---------- slots ----------

  /**
   In every reachable state the slots in use correspond one to one to the requests between
   allocation and release, and each such slot carries its request's sequence number, which is not 0.
   */
  lemma SlotsMatchRequests(s: State, run: seq<Action>, s': State)
    requires Init(s) && Runs(s, run, s')
    ensures |s'.slots| == SLOTS
    ensures forall i :: 0 <= i < SLOTS ==> (s'.slots[i].inUse <==> exists t :: HasPc(s', t, i))
    ensures forall i, t, u :: HasPc(s', t, i) && HasPc(s', u, i) ==> t == u
    ensures forall t :: t in s'.requests && SlotOf(s'.requests[t].pc).Some? ==>
              HasPc(s', t, SlotOf(s'.requests[t].pc).value)
              && s'.slots[SlotOf(s'.requests[t].pc).value].seqNo == SeqOf(s'.requests[t].ticket) != 0
  {
    RunKeeps(s, run, s');
    forall t | t in s'.requests && SlotOf(s'.requests[t].pc).Some?
      ensures HasPc(s', t, SlotOf(s'.requests[t].pc).value)
              && s'.slots[SlotOf(s'.requests[t].pc).value].inUse
              && s'.slots[SlotOf(s'.requests[t].pc).value].seqNo == SeqOf(s'.requests[t].ticket) != 0
    {
      assert RequestOk(s', s'.requests[t]);
    }
    forall i | 0 <= i < SLOTS ensures s'.slots[i].inUse <==> exists t :: HasPc(s', t, i) {
      if s'.slots[i].inUse { assert Held(s', i); }
    }
  }

  /** An allocation fails with EBUSY exactly when all sixteen slots are held, and takes a free one otherwise. */
  lemma BusyExactlyWhenFull(s: State, run: seq<Action>, s': State, t: Tid)
    requires Init(s) && Runs(s, run, s') && Enabled(s', Alloc(t))
    ensures |s'.slots| == SLOTS
    ensures var s'' := Step(s', Alloc(t));
            t in s''.requests
            && (s''.requests[t].pc == Finished(Error(EBUSY)) <==> forall i :: 0 <= i < SLOTS ==> Held(s', i))
            && (s''.requests[t].pc != Finished(Error(EBUSY)) ==> s''.requests[t].pc.Allocated? && !Held(s', s''.requests[t].pc.slot))
  {
    SlotsMatchRequests(s, run, s');
    FreeFromFinds(s'.slots, 0);
    if FreeFrom(s'.slots, 0).Some? {
      var i := FreeFrom(s'.slots, 0).value;
      assert !Held(s', i);
    } else {
      forall i | 0 <= i < SLOTS ensures Held(s', i) { assert s'.slots[i].inUse; }
    }
  }

  /** Right after a disconnect nobody is left waiting for a reply that will not come. */
  lemma DisconnectLeavesNoneWaiting(s: State, run: seq<Action>, s': State)
    requires Init(s) && Runs(s, run, s')
    ensures var s'' := Step(s', Disconnect);
            && |s''.slots| == SLOTS
            && (forall i :: 0 <= i < SLOTS && s''.slots[i].inUse ==> s''.slots[i].done)
            && forall t :: t in s''.requests && s''.requests[t].pc.Waiting? ==> Enabled(s'', EndWait(t, false))
  {
    SlotsMatchRequests(s, run, s');
    var s'' := Step(s', Disconnect);
    forall t | t in s''.requests && s''.requests[t].pc.Waiting? ensures Enabled(s'', EndWait(t, false)) {
      assert HasPc(s', t, s'.requests[t].pc.slot);
      assert s'.slots[s'.requests[t].pc.slot].inUse;
    }
  }

  // ---------- replies ----------

  /**
   Whatever happens on the way, a request that succeeds delivers the first bytes, at most as many as
   the caller has room for, of a reply that carries the request's own sequence number.  If that is
   not the answer to the request itself, the two are a multiple of 2^32 - 1 allocations apart.
   */
  lemma DataCarriesOwnSeq(s: State, run: seq<Action>, s': State, t: Tid)
    requires Init(s) && Runs(s, run, s')
    requires t in s'.requests && s'.requests[t].pc.Finished? && s'.requests[t].pc.result.Data?
    ensures var r := s'.requests[t];
            DataOk(r, r.pc.result) && (r.pc.result.source.value.origin.ticket - r.ticket) % PERIOD == 0
  {
    RunKeeps(s, run, s');
    assert RequestOk(s', s'.requests[t]);
    SeqOfRepeats(s'.requests[t].pc.result.source.value.origin.ticket, s'.requests[t].ticket);
  }

  /** A message, a packet or a slot that a pending request may meet. */
  predicate SameOrigin(m: Msg, r: Request) { m.ticket == r.ticket ==> m.query == r.query }

  /** `m` is the message that request `r` sent. */
  predicate Sent(m: Msg, r: Request) { m == Msg(r.ticket, SeqOf(r.ticket), r.query) }

  ghost predicate OriginsOk(s: State) {
    && (forall t, m :: t in s.requests && SlotOf(s.requests[t].pc).Some? && m in s.outgoing ==> SameOrigin(m, s.requests[t]))
    && (forall t, p :: t in s.requests && SlotOf(s.requests[t].pc).Some? && p in s.incoming ==> SameOrigin(p.origin, s.requests[t]))
    && (forall t, u :: t in s.requests && u in s.requests && SlotOf(s.requests[t].pc).Some? && SlotOf(s.requests[u].pc).Some? ==>
          s.requests[t].ticket == s.requests[u].ticket ==> t == u)
  }

  predicate AnswersOk1(s: State, r: Request) {
    && (SlotOf(r.pc).Some? && SlotOf(r.pc).value < |s.slots| && s.slots[SlotOf(r.pc).value].source.Some? ==>
          Sent(s.slots[SlotOf(r.pc).value].source.value.origin, r))
    && (r.pc.Releasing? && r.pc.result.Data? && r.pc.result.source.Some? ==> Sent(r.pc.result.source.value.origin, r))
    && (r.pc.Finished? && r.pc.result.Data? && r.pc.result.source.Some? ==> Sent(r.pc.result.source.value.origin, r))
  }

  /** Every slot was completed, and every result produced, by the answer to the request itself. */
  ghost predicate AnswersOk(s: State) {
    forall t :: t in s.requests ==> AnswersOk1(s, s.requests[t])
  }

  lemma WindowEqual(tickets: nat, j: nat, k: nat)
    requires j < tickets && k < tickets && tickets - j <= PERIOD && tickets - k <= PERIOD
    requires SeqOf(j) == SeqOf(k)
    ensures j == k
  {
    if j < k { SeqOfWindow(j, k); } else if k < j { SeqOfWindow(k, j); }
  }

  /** In a young state a packet that fits a pending slot answers the request that holds the slot. */
  lemma PacketAnswersHolder(s: State, p: Packet, t: Tid, i: nat)
    requires Young(s) && OriginsOk(s) && WireOk(s) && p in s.incoming
    requires HasPc(s, t, i) && RequestOk(s, s.requests[t]) && Pending(s.slots[i], p.seqNo)
    ensures Sent(p.origin, s.requests[t])
  {
    WindowEqual(s.tickets, p.origin.ticket, s.requests[t].ticket);
    assert SameOrigin(p.origin, s.requests[t]);
  }

  lemma DeliverAnswers(s: State, p: Packet)
    requires Inv(s) && Young(s) && OriginsOk(s) && AnswersOk(s) && Enabled(s, Deliver(p))
    ensures AnswersOk(Step(s, Deliver(p)))
  {
    var s' := Step(s, Deliver(p));
    MatchFromFinds(s.slots, p.seqNo, 0);
    forall t | t in s'.requests ensures AnswersOk1(s', s'.requests[t]) {
      assert AnswersOk1(s, s.requests[t]) && RequestOk(s, s.requests[t]);
      if MatchFrom(s.slots, p.seqNo, 0).Some? && SlotOf(s.requests[t].pc) == MatchFrom(s.slots, p.seqNo, 0) {
        PacketAnswersHolder(s, p, t, SlotOf(s.requests[t].pc).value);
      }
    }
  }

  lemma AllocAnswers(s: State, t: Tid)
    requires Inv(s) && OriginsOk(s) && AnswersOk(s) && Enabled(s, Alloc(t))
    ensures AnswersOk(Step(s, Alloc(t))) && OriginsOk(Step(s, Alloc(t)))
  {
    var s' := Step(s, Alloc(t));
    FreeFromFinds(s.slots, 0);
    forall u | u in s'.requests ensures AnswersOk1(s', s'.requests[u]) {
      assert AnswersOk1(s, s.requests[u]) && RequestOk(s, s.requests[u]);
    }
    AllocOrigins(s, t);
  }

  lemma ClaimOrigins(s: State, t: Tid, i: nat)
    requires WireOk(s) && OriginsOk(s) && t in s.requests && s.requests[t].pc.Checked? && i < |s.slots|
    requires forall u :: u in s.requests && SlotOf(s.requests[u].pc).Some? ==> s.requests[u].ticket < s.tickets
    ensures OriginsOk(Claimed(s, t, i))
  {
  }

  lemma AllocOrigins(s: State, t: Tid)
    requires RequestsOk(s) && WireOk(s) && OriginsOk(s) && Enabled(s, Alloc(t))
    ensures OriginsOk(Step(s, Alloc(t)))
  {
    FreeFromFinds(s.slots, 0);
    if FreeFrom(s.slots, 0).Some? {
      forall u | u in s.requests ensures SlotOf(s.requests[u].pc).Some? ==> s.requests[u].ticket < s.tickets {
        assert RequestOk(s, s.requests[u]);
      }
      ClaimOrigins(s, t, FreeFrom(s.slots, 0).value);
    }
  }

  lemma EnqueueAnswers(s: State, t: Tid)
    requires Inv(s) && OriginsOk(s) && AnswersOk(s) && Enabled(s, Enqueue(t))
    ensures AnswersOk(Step(s, Enqueue(t))) && OriginsOk(Step(s, Enqueue(t)))
  {
    var s' := Step(s, Enqueue(t));
    assert AnswersOk1(s, s.requests[t]);
    forall u | u in s'.requests ensures AnswersOk1(s', s'.requests[u]) { assert AnswersOk1(s, s.requests[u]); }
  }

  /** Request `t` moves, keeps its ticket and query, and gains no slot. */
  ghost predicate Advances(s: State, s': State, t: Tid) {
    && Others(s, s', t) && s'.outgoing == s.outgoing && s'.incoming == s.incoming
    && |s'.slots| == |s.slots| && (forall i :: 0 <= i < |s.slots| ==> s'.slots[i].source == s.slots[i].source)
    && (t in s'.requests ==> AnswersOk1(s', s'.requests[t]))
    && (t in s'.requests && SlotOf(s'.requests[t].pc).Some? ==>
          t in s.requests && SlotOf(s.requests[t].pc).Some?
          && s'.requests[t].ticket == s.requests[t].ticket && s'.requests[t].query == s.requests[t].query)
  }

  lemma AdvanceOrigins(s: State, s': State, t: Tid)
    requires OriginsOk(s) && Advances(s, s', t)
    ensures OriginsOk(s')
  {
  }

  lemma AdvanceAnswers(s: State, s': State, t: Tid)
    requires OriginsOk(s) && AnswersOk(s) && Advances(s, s', t)
    ensures AnswersOk(s') && OriginsOk(s')
  {
    AdvanceOrigins(s, s', t);
    forall u | u in s'.requests ensures AnswersOk1(s', s'.requests[u]) {
      if u != t { assert AnswersOk1(s, s.requests[u]); }
    }
  }

  lemma StepAdvances(s: State, a: Action)
    requires Enabled(s, a) && (a.EnqueueErr? || a.EndWait? || a.Release?) && AnswersOk1(s, s.requests[a.t])
    ensures Advances(s, Step(s, a), a.t)
  {
  }

  lemma WireAnswers(s: State, a: Action)
    requires OriginsOk(s) && AnswersOk(s) && Enabled(s, a)
    requires a.Answer? || a.LoseRequest? || a.LoseReply? || a.Connect? || a.Disconnect?
    ensures AnswersOk(Step(s, a)) && OriginsOk(Step(s, a))
  {
    var s' := Step(s, a);
    forall u | u in s'.requests ensures AnswersOk1(s', s'.requests[u]) { assert AnswersOk1(s, s.requests[u]); }
  }

  lemma StepAnswers(s: State, a: Action)
    requires Inv(s) && Young(s) && OriginsOk(s) && AnswersOk(s) && Enabled(s, a)
    ensures AnswersOk(Step(s, a)) && OriginsOk(Step(s, a))
  {
    match a {
      case Alloc(t) => AllocAnswers(s, t);
      case Enqueue(t) => EnqueueAnswers(s, t);
      case Deliver(p) => DeliverAnswers(s, p);
      case Begin(t, _, _) => AdvanceAnswers(s, Step(s, a), t);
      case EnqueueErr(t, _) => StepAdvances(s, a); AdvanceAnswers(s, Step(s, a), t);
      case EndWait(t, _) => StepAdvances(s, a); AdvanceAnswers(s, Step(s, a), t);
      case Release(t) => StepAdvances(s, a); AdvanceAnswers(s, Step(s, a), t);
      case Return(t) => AdvanceAnswers(s, Step(s, a), t);
      case _ => WireAnswers(s, a);
    }
  }

  lemma {:induction false} RunAnswers(s: State, run: seq<Action>, s': State)
    requires Inv(s) && OriginsOk(s) && AnswersOk(s) && RunsYoung(s, run, s')
    ensures Inv(s') && OriginsOk(s') && AnswersOk(s')
    decreases |run|
  {
    if run != [] {
      StepKeeps(s, run[0]);
      StepAnswers(s, run[0]);
      RunAnswers(Step(s, run[0]), run[1..], s');
    }
  }

  /**
   Request/reply matching.  While nothing outlives 2^32 - 1 allocations, a request that succeeds was
   completed by the daemon's answer to that very request, whatever timed out, was disconnected, was
   reused or arrived late in between.  It delivers the first bytes of that answer if the packet
   carried all it promised, and otherwise the bytes that its slot held when it was claimed.
   */
  lemma ReplyMatchesRequest(s: State, run: seq<Action>, s': State, t: Tid)
    requires Init(s) && RunsYoung(s, run, s')
    requires t in s'.requests && s'.requests[t].pc.Finished? && s'.requests[t].pc.result.Data?
    ensures var r := s'.requests[t];
            && r.pc.result.source.Some? && |r.pc.result.stale| == MAX_PAYLOAD
            && var p := r.pc.result.source.value;
               && p.origin == Msg(r.ticket, SeqOf(r.ticket), r.query) && p.error == 0
               && r.pc.result.bytes == (if Full(p) then p.payload else r.pc.result.stale)[..Count(p, r.outcap)]
  {
    RunAnswers(s, run, s');
    assert RequestOk(s', s'.requests[t]) && AnswersOk1(s', s'.requests[t]);
  }

  /** The bytes delivered are the reply's own exactly when the packet carried all of them, or the slot happened to hold them already. */
  lemma OwnBytesIffFull(s: State, run: seq<Action>, s': State, t: Tid)
    requires Init(s) && RunsYoung(s, run, s')
    requires t in s'.requests && s'.requests[t].pc.Finished? && s'.requests[t].pc.result.Data?
    ensures var r := s'.requests[t];
            && r.pc.result.source.Some? && |r.pc.result.stale| == MAX_PAYLOAD
            && var p, n := r.pc.result.source.value, Count(r.pc.result.source.value, r.outcap);
               (n <= |p.payload| && r.pc.result.bytes == p.payload[..n] <==>
                  Full(p) || (n <= |p.payload| && r.pc.result.stale[..n] == p.payload[..n]))
  {
    ReplyMatchesRequest(s, run, s', t);
  }

  /** Pending requests have pairwise distinct sequence numbers. */
  lemma PendingSeqsDistinct(s: State, run: seq<Action>, s': State, t: Tid, u: Tid, i: nat, k: nat)
    requires Init(s) && RunsYoung(s, run, s') && Young(s')
    requires HasPc(s', t, i) && HasPc(s', u, k) && t != u
    ensures s'.slots[i].seqNo != s'.slots[k].seqNo
  {
    RunAnswers(s, run, s');
    assert RequestOk(s', s'.requests[t]) && RequestOk(s', s'.requests[u]);
    if s'.slots[i].seqNo == s'.slots[k].seqNo {
      WindowEqual(s'.tickets, s'.requests[t].ticket, s'.requests[u].ticket);
    }
  }

  // ---------- a run that delivers another request's bytes ----------

  lemma {:induction false} Append(s: State, run: seq<Action>, m: State, a: Action)
    requires Runs(s, run, m) && Enabled(m, a)
    ensures Runs(s, run + [a], Step(m, a))
    decreases |run|
  {
    if run != [] {
      assert (run + [a])[1..] == run[1..] + [a];
      Append(Step(s, run[0]), run[1..], m, a);
    } else {
      assert run + [a] == [a] && [a][1..] == [];
      assert Runs(Step(s, a), [a][1..], Step(m, a));
    }
  }

  /** A state in which the next request will take the first slot. */
  ghost predicate Idle(s: State) {
    && s.connected && |s.slots| == SLOTS && !s.slots[0].inUse && |s.slots[0].buf| == MAX_PAYLOAD && s.outgoing == {} && s.incoming == {}
  }

  function Waited(s: State, t: Tid, q: Query, outcap: nat): State
    requires |s.slots| == SLOTS
  {
    var n := NextSeq(s.counter);
    s.(counter := n, slots := s.slots[0 := Claim(s.slots[0], n)], tickets := s.tickets + 1,
       requests := s.requests[t := Request(q, outcap, s.tickets, Waiting(0))], outgoing := {Msg(s.tickets, n, q)})
  }

  lemma FirstHalf(s0: State, run: seq<Action>, s: State, t: Tid, q: Query, outcap: nat) returns (run': seq<Action>)
    requires Runs(s0, run, s) && Idle(s) && t !in s.requests
    ensures Runs(s0, run', Waited(s, t, q, outcap))
  {
    var a := Step(s, Begin(t, q, outcap));
    Append(s0, run, s, Begin(t, q, outcap));
    assert FreeFrom(a.slots, 0) == Some(0);
    var b := Step(a, Alloc(t));
    Append(s0, run + [Begin(t, q, outcap)], a, Alloc(t));
    run' := run + [Begin(t, q, outcap)] + [Alloc(t)] + [Enqueue(t)];
    Append(s0, run + [Begin(t, q, outcap)] + [Alloc(t)], b, Enqueue(t));
    assert Step(b, Enqueue(t)).requests == Waited(s, t, q, outcap).requests;
    assert Step(b, Enqueue(t)) == Waited(s, t, q, outcap);
  }

  /** The packet that answers the request of `Waited`. */
  function Reply(s: State, q: Query, len: nat, payload: Bytes): Packet {
    Packet(HEADER + |payload|, MAGIC, NextSeq(s.counter), 0, len, payload, Msg(s.tickets, NextSeq(s.counter), q))
  }

  function Served(s: State, t: Tid, q: Query, outcap: nat, len: nat, payload: Bytes): State
    requires |s.slots| == SLOTS
  {
    var w := Waited(s, t, q, outcap);
    var c := Complete(w.slots[0], Reply(s, q, len, payload));
    w.(slots := w.slots[0 := c.(inUse := false)], outgoing := {},
       requests := w.requests[t := w.requests[t].(pc := Finished(Outcome(c, outcap)))])
  }

  lemma SecondHalf(s0: State, run: seq<Action>, s: State, t: Tid, q: Query, outcap: nat, len: nat, payload: Bytes)
    returns (run': seq<Action>)
    requires Idle(s) && Runs(s0, run, Waited(s, t, q, outcap))
    ensures Runs(s0, run', Served(s, t, q, outcap, len, payload))
  {
    var w, p := Waited(s, t, q, outcap), Reply(s, q, len, payload);
    var m := Msg(s.tickets, NextSeq(s.counter), q);
    var a := Step(w, Answer(m, 0, len, payload));
    Append(s0, run, w, Answer(m, 0, len, payload));
    assert a.incoming == {p} && MatchFrom(a.slots, p.seqNo, 0) == Some(0);
    var b := Step(a, Deliver(p));
    Append(s0, run + [Answer(m, 0, len, payload)], a, Deliver(p));
    var c := Step(b, EndWait(t, false));
    Append(s0, run + [Answer(m, 0, len, payload)] + [Deliver(p)], b, EndWait(t, false));
    run' := run + [Answer(m, 0, len, payload)] + [Deliver(p)] + [EndWait(t, false)] + [Release(t)];
    Append(s0, run + [Answer(m, 0, len, payload)] + [Deliver(p)] + [EndWait(t, false)], c, Release(t));
    var d, e := Step(c, Release(t)), Served(s, t, q, outcap, len, payload);
    assert d.slots == e.slots && d.requests == e.requests && d.outgoing == e.outgoing && d.incoming == e.incoming;
    assert d == e;
  }

  lemma Round(s0: State, run: seq<Action>, s: State, t: Tid, q: Query, outcap: nat, len: nat, payload: Bytes)
    returns (run': seq<Action>)
    requires Runs(s0, run, s) && Idle(s) && t !in s.requests
    ensures Runs(s0, run', Served(s, t, q, outcap, len, payload))
  {
    run' := FirstHalf(s0, run, s, t, q, outcap);
    run' := SecondHalf(s0, run', s, t, q, outcap, len, payload);
  }

  /** After a full one-byte reply to one request, a reply that promises a byte and carries none makes the next request return that byte. */
  lemma ShortReplyGivesEarlierByte(s: State, q: Query, q': Query, x: Byte) returns (run: seq<Action>, s': State)
    requires Init(s) && s.connected
    ensures Runs(s, run, s') && 2 in s'.requests && s'.requests[2].query == q'
    ensures s'.requests[2].pc.Finished? && s'.requests[2].pc.result.Data? && s'.requests[2].pc.result.bytes == [x]
    ensures s'.requests[2].pc.result.source.Some? && s'.requests[2].pc.result.source.value.payload == []
  {
    var one := Served(s, 1, q, 8, 1, [x]);
    run := Round(s, [], s, 1, q, 8, 1, [x]);
    assert one.slots[0].buf[0] == x;
    run := Round(s, run, one, 2, q', 8, 1, []);
    s' := Served(one, 2, q', 8, 1, []);
    assert s'.requests[2].pc.result.bytes == one.slots[0].buf[..1];
  }
}
