/** How a request through the bridge ends: with its reply, with an error, or without an answer. */
module CtlBridgeReplies {
  import opened Options
  import opened CtlBridge
  import opened CtlBridgeRuns

  /** `n` is the least of the three numbers. */
  predicate Least(n: nat, a: nat, b: nat, c: nat) {
    n <= a && n <= b && n <= c && (n == a || n == b || n == c)
  }

  /** Request `t` waits on slot `i`, which nobody has completed. */
  predicate Awaits(s: State, t: Tid, i: nat) {
    t in s.requests && s.requests[t].pc == Waiting(i) && i < |s.slots| && s.slots[i].inUse && !s.slots[i].done
  }

  /** A reply meets the one pending slot with its sequence number. */
  lemma ReplyMeetsSlot(z: State, past: seq<Action>, s: State, t: Tid, i: nat)
    requires Init(z) && RunsYoung(z, past, s) && Young(s) && Awaits(s, t, i)
    ensures MatchFrom(s.slots, s.slots[i].seqNo, 0) == Some(i)
  {
    var n := s.slots[i].seqNo;
    MatchFromFinds(s.slots, n, 0);
    assert Pending(s.slots[i], n);
    var k := MatchFrom(s.slots, n, 0).value;
    if k != i {
      var u := SlotHolder(z, past, s, k);
      PendingSeqsDistinct(z, past, s, t, u, i, k);
    }
  }

  lemma SlotHolder(z: State, past: seq<Action>, s: State, k: nat) returns (u: Tid)
    requires Init(z) && RunsYoung(z, past, s) && k < |s.slots| && s.slots[k].inUse
    ensures HasPc(s, u, k)
  {
    RunAnswers(z, past, s);
    assert Held(s, k);
    u :| HasPc(s, u, k);
  }

  lemma PacketGood(z: State, past: seq<Action>, s: State, p: Packet, i: nat)
    requires Init(z) && RunsYoung(z, past, s) && p in s.incoming && i < |s.slots|
    ensures Accepted(p) && p.total == HEADER + |p.payload| && |s.slots[i].buf| == MAX_PAYLOAD
  {
    RunAnswers(z, past, s);
    assert SlotOk(s.slots[i]);
  }

  /** The completed slot carries the reply's error and length, and its bytes if it brought them all. */
  lemma Completed(slot: Slot, p: Packet)
    requires p.total == HEADER + |p.payload| && |slot.buf| == MAX_PAYLOAD
    ensures var c := Complete(slot, p);
            && c.done && c.error == p.error && Least(c.len, p.len, MAX_PAYLOAD, p.len) && |c.buf| == MAX_PAYLOAD
            && c.buf[..c.len] == (if c.len <= |p.payload| then p.payload else slot.buf)[..c.len]
  {
  }

  /** What a request makes of a slot that was completed without error. */
  lemma DoneOutcome(slot: Slot, outcap: nat)
    requires slot.done && slot.error == 0 && slot.len <= |slot.buf|
    ensures Outcome(slot, outcap).Data?
    ensures var b := Outcome(slot, outcap).bytes;
            Least(|b|, slot.len, outcap, outcap) && b == slot.buf[..slot.len][..|b|]
  {
  }

  /** The result of the request of `t` after its reply is delivered and it stops waiting. */
  function AfterReply(s: State, t: Tid, p: Packet): Option<State>
  {
    if !Enabled(s, Deliver(p)) then None
    else if !Enabled(Step(s, Deliver(p)), EndWait(t, false)) then None
    else Some(Step(Step(s, Deliver(p)), EndWait(t, false)))
  }

  /**
   A reply reaches the request it was sent for: the request stops waiting at once.  With an error it
   fails with that very error.  Without one it succeeds, with as many bytes as the reply announces,
   a slot holds and the caller has room for; they are the first bytes of the reply, unless the
   packet is shorter than it announces, and then they are whatever the slot held.
   */
  lemma ReplyIsReturned(z: State, past: seq<Action>, s: State, t: Tid, i: nat, p: Packet)
    requires Init(z) && RunsYoung(z, past, s) && Young(s) && Awaits(s, t, i)
    requires p in s.incoming && p.seqNo == s.slots[i].seqNo
    ensures AfterReply(s, t, p).Some?
    ensures var s' := AfterReply(s, t, p).value;
            && t in s'.requests && s'.requests[t].pc.Releasing? && s'.requests[t].pc.slot == i
            && var r := s'.requests[t].pc.result;
               if p.error != 0 then r == Error(p.error)
               else
                 && r.Data? && r.source == Some(p)
                 && Least(|r.bytes|, p.len, MAX_PAYLOAD, s.requests[t].outcap)
                 && (p.len <= |p.payload| || MAX_PAYLOAD <= |p.payload| ==> r.bytes <= p.payload)
                 && (|p.payload| < p.len && |p.payload| < MAX_PAYLOAD ==> r.bytes <= s.slots[i].buf)
  {
    ReplyMeetsSlot(z, past, s, t, i);
    PacketGood(z, past, s, p, i);
    Completed(s.slots[i], p);
    var s1 := Step(s, Deliver(p));
    assert s1.slots[i] == Complete(s.slots[i], p) && s1.requests == s.requests;
    if p.error == 0 { DoneOutcome(s1.slots[i], s.requests[t].outcap); }
  }

  /** A request that waits when the daemon goes away fails with ENOTCONN. */
  lemma DisconnectIsReported(s: State, t: Tid, i: nat)
    requires Awaits(s, t, i)
    ensures Enabled(Step(s, Disconnect), EndWait(t, false))
    ensures var s' := Step(Step(s, Disconnect), EndWait(t, false));
            t in s'.requests && s'.requests[t].pc == Releasing(i, Error(ENOTCONN))
  {
    var s1 := Step(s, Disconnect);
    assert s1.slots[i] == Abort(s.slots[i]);
  }

  /** A request that is woken without an answer, by the timeout or a signal, fails with ETIMEDOUT. */
  lemma SilenceIsReported(s: State, t: Tid, i: nat)
    requires Awaits(s, t, i)
    ensures !Enabled(s, EndWait(t, false)) && Enabled(s, EndWait(t, true))
    ensures var s' := Step(s, EndWait(t, true));
            t in s'.requests && s'.requests[t].pc == Releasing(i, Error(ETIMEDOUT)) && s'.slots == s.slots
  {
    assert HasPc(s, t, i);
  }

  /**
   The slot is given back and the result kept: after a release, the slot is free for the next
   request, no other slot has changed, and the request is over with the result it had.
   */
  lemma ReleaseGivesBack(z: State, past: seq<Action>, s: State, t: Tid, i: nat, r: Result)
    requires Init(z) && Runs(z, past, s) && t in s.requests && s.requests[t].pc == Releasing(i, r)
    ensures Enabled(s, Release(t))
    ensures var s' := Step(s, Release(t));
            && t in s'.requests && s'.requests[t] == s.requests[t].(pc := Finished(r))
            && |s'.slots| == |s.slots| == SLOTS && i < SLOTS && s.slots[i].inUse && !s'.slots[i].inUse
            && (forall k :: 0 <= k < SLOTS && k != i ==> s'.slots[k] == s.slots[k])
            && !Held(s', i)
  {
    SlotsMatchRequests(z, past, s);
    assert HasPc(s, t, i);
    Append(z, past, s, Release(t));
    SlotsMatchRequests(z, past + [Release(t)], Step(s, Release(t)));
  }

  /** Without a daemon a request fails with ENOTCONN and takes no slot and no sequence number. */
  lemma NoDaemonIsReported(s: State, t: Tid, q: Query, outcap: nat)
    requires t !in s.requests && !s.connected
    ensures Step(s, Begin(t, q, outcap)) == s.(requests := s.requests[t := Request(q, outcap, 0, Finished(Error(ENOTCONN)))])
  {
  }

  /** A request the socket refuses fails with the socket's error; its slot is given back like any other. */
  lemma RefusalIsReported(z: State, past: seq<Action>, s: State, t: Tid, e: int)
    requires Init(z) && Runs(z, past, s) && t in s.requests && s.requests[t].pc.Allocated? && e != 0
    ensures Enabled(s, EnqueueErr(t, e))
    ensures var s' := Step(s, EnqueueErr(t, e));
            && s' == s.(requests := s'.requests) && Others(s, s', t)
            && t in s'.requests && s'.requests[t].pc == Releasing(s.requests[t].pc.slot, Error(e))
  {
    SlotsMatchRequests(z, past, s);
  }

  /** What a request sends: its own query under a sequence number that is not 0 and that its slot carries. */
  lemma RequestIsSent(z: State, past: seq<Action>, s: State, t: Tid)
    requires Init(z) && Runs(z, past, s) && t in s.requests && s.requests[t].pc.Allocated?
    ensures Enabled(s, Enqueue(t))
    ensures var i, s' := s.requests[t].pc.slot, Step(s, Enqueue(t));
            && i < |s.slots| && s.slots[i].seqNo != 0 && s'.slots == s.slots
            && s'.outgoing == s.outgoing + {Msg(s.requests[t].ticket, s.slots[i].seqNo, s.requests[t].query)}
            && t in s'.requests && s'.requests[t].pc == Waiting(i)
  {
    SlotsMatchRequests(z, past, s);
  }

  /** A fresh request waits for its reply: its slot is claimed, not completed, and free of old errors. */
  lemma AllocationIsClean(z: State, past: seq<Action>, s: State, t: Tid)
    requires Init(z) && Runs(z, past, s) && Enabled(s, Alloc(t))
    requires exists i :: 0 <= i < |s.slots| && !s.slots[i].inUse
    ensures var s' := Step(s, Alloc(t));
            && t in s'.requests && s'.requests[t].pc.Allocated? && s'.requests[t].pc.slot < |s'.slots|
            && var slot := s'.slots[s'.requests[t].pc.slot];
               slot.inUse && !slot.done && slot.error == 0 && slot.len == 0 && slot.seqNo == s'.counter == SeqOf(s.tickets)
  {
    RunKeeps(z, past, s);
    FreeFromFinds(s.slots, 0);
    CounterStep(s.tickets);
  }
}
