/**
 The kernel-control bridge: sixteen slots, a wrapping sequence counter, requests that sleep for a
 reply, and the daemon at the other end.

 The system is a step system.  Each step is one segment run under the control lock, or one action of
 the daemon or of the transport, which may delay and drop messages in both directions.  Timeouts and
 signals are steps that may happen at any time while a request waits.

 Every allocated sequence number also gets a `ticket`, the number of allocations before it.  Tickets,
 the `origin` of a packet and the `source` and `stale` of a slot are bookkeeping: nothing in the protocol reads them.
 */
module CtlBridge {
  import opened Options

  type Tid = nat
  type Byte = x: nat | x < 256
  type Bytes = seq<Byte>

  const SLOTS := 16
  const MAX_PAYLOAD := 2048
  const MAGIC := 0x50524F43
  const HEADER := 16
  const PERIOD := 0xFFFF_FFFF

  const EBUSY := 16
  const ENOTCONN := 57
  const ETIMEDOUT := 60

  datatype Query = Query(kind: nat, pid: int, arg: nat)
  datatype Msg = Msg(ticket: nat, seqNo: nat, query: Query)
  datatype Packet = Packet(total: nat, magic: nat, seqNo: nat, error: int, len: nat, payload: Bytes, origin: Msg)

  /** `stale` is what the buffer held when the slot was claimed. */
  datatype Slot = Slot(inUse: bool, done: bool, seqNo: nat, error: int, len: nat, buf: Bytes, source: Option<Packet>, stale: Bytes)

  datatype Result = Data(bytes: Bytes, source: Option<Packet>, stale: Bytes) | Error(errno: int)

  datatype Pc =
    | Checked                             // saw a connected daemon
    | Allocated(slot: nat)                // owns a slot, request not yet enqueued
    | Waiting(slot: nat)
    | Releasing(slot: nat, result: Result)
    | Finished(result: Result)

  datatype Request = Request(query: Query, outcap: nat, ticket: nat, pc: Pc)

  datatype State = State(
    connected: bool,
    counter: nat,
    slots: seq<Slot>,
    requests: map<Tid, Request>,
    outgoing: set<Msg>,
    incoming: set<Packet>,
    tickets: nat)

  datatype Action =
    | Begin(t: Tid, query: Query, outcap: nat)
    | Alloc(t: Tid)
    | Enqueue(t: Tid)
    | EnqueueErr(t: Tid, errno: int)
    | EndWait(t: Tid, interrupted: bool)
    | Release(t: Tid)
    | Return(t: Tid)
    | Answer(m: Msg, error: int, len: nat, payload: Bytes)
    | LoseRequest(m: Msg)
    | Deliver(p: Packet)
    | LoseReply(p: Packet)
    | Connect
    | Disconnect

  // ---------- sequence numbers ----------

  /** Lines 143 to 146: increment modulo 2^32, skipping 0. */
  function NextSeq(counter: nat): nat {
    var n := (counter + 1) % 0x1_0000_0000;
    if n == 0 then (n + 1) % 0x1_0000_0000 else n
  }

  /** The sequence number that goes with a ticket. */
  function SeqOf(ticket: nat): nat { ticket % PERIOD + 1 }

  function CounterAfter(tickets: nat): nat { if tickets == 0 then 0 else SeqOf(tickets - 1) }

  // ---------- the slot table ----------

  function FreeFrom(slots: seq<Slot>, i: nat): Option<nat>
    decreases |slots| - i
  {
    if i >= |slots| then None
    else if !slots[i].inUse then Some(i)
    else FreeFrom(slots, i + 1)
  }

  predicate Pending(slot: Slot, seqNo: nat) { slot.inUse && !slot.done && slot.seqNo == seqNo }

  function MatchFrom(slots: seq<Slot>, seqNo: nat, i: nat): Option<nat>
    decreases |slots| - i
  {
    if i >= |slots| then None
    else if Pending(slots[i], seqNo) then Some(i)
    else MatchFrom(slots, seqNo, i + 1)
  }

  /** Overwrites the front of a buffer. */
  function Overlay(buf: Bytes, data: Bytes): Bytes {
    if |data| <= |buf| then data + buf[|data|..] else buf
  }

  function Clamp(len: nat): nat { if len > MAX_PAYLOAD then MAX_PAYLOAD else len }

  /** Lines 101 to 106: the payload is copied only if the packet really carries it. */
  function Complete(slot: Slot, p: Packet): Slot {
    var plen := Clamp(p.len);
    var buf := if 0 < plen <= |p.payload| && p.total >= HEADER + plen then Overlay(slot.buf, p.payload[..plen]) else slot.buf;
    slot.(buf := buf, len := plen, error := p.error, done := true, source := Some(p))
  }

  predicate Accepted(p: Packet) { p.total >= HEADER && p.magic == MAGIC }

  /** `procfs_ctl_send` */
  function SendSlots(slots: seq<Slot>, p: Packet): (r: seq<Slot>)
    ensures |r| == |slots|
  {
    match MatchFrom(slots, p.seqNo, 0)
    case Some(i) => if Accepted(p) && i < |slots| then slots[i := Complete(slots[i], p)] else slots
    case None => slots
  }

  function Abort(slot: Slot): Slot {
    if slot.inUse && !slot.done then slot.(error := ENOTCONN, done := true) else slot
  }

  function AbortSlots(slots: seq<Slot>): (r: seq<Slot>)
    ensures |r| == |slots|
  {
    seq(|slots|, i requires 0 <= i < |slots| => Abort(slots[i]))
  }

  function Claim(slot: Slot, seqNo: nat): Slot {
    slot.(inUse := true, done := false, seqNo := seqNo, error := 0, len := 0, source := None, stale := slot.buf)
  }

  /** Lines 177 to 191: what a request makes of its slot once it stops waiting. */
  function Outcome(slot: Slot, outcap: nat): Result {
    if !slot.done then Error(ETIMEDOUT)
    else if slot.error != 0 then Error(slot.error)
    else
      var n := if slot.len > outcap then outcap else slot.len;
      Data(slot.buf[..if n <= |slot.buf| then n else |slot.buf|], slot.source, slot.stale)
  }

  // ---------- the steps ----------

  function SlotOf(pc: Pc): Option<nat> {
    match pc
    case Allocated(i) => Some(i)
    case Waiting(i) => Some(i)
    case Releasing(i, _) => Some(i)
    case _ => None
  }

  function Move(s: State, t: Tid, pc: Pc): State
    requires t in s.requests
  {
    s.(requests := s.requests[t := s.requests[t].(pc := pc)])
  }

  function AllocSegment(s: State, t: Tid): State
    requires t in s.requests
  {
    match FreeFrom(s.slots, 0)
    case None => Move(s, t, Finished(Error(EBUSY)))
    case Some(i) =>
      if i >= |s.slots| then s
      else
        var n := NextSeq(s.counter);
        s.(counter := n, slots := s.slots[i := Claim(s.slots[i], n)], tickets := s.tickets + 1,
           requests := s.requests[t := s.requests[t].(ticket := s.tickets, pc := Allocated(i))])
  }

  predicate HasPc(s: State, t: Tid, i: nat) { t in s.requests && SlotOf(s.requests[t].pc) == Some(i) && i < |s.slots| }

  predicate Enabled(s: State, a: Action) {
    match a
    case Begin(t, _, _) => t !in s.requests
    case Alloc(t) => t in s.requests && s.requests[t].pc.Checked?
    case Enqueue(t) => t in s.requests && s.requests[t].pc.Allocated? && HasPc(s, t, s.requests[t].pc.slot)
    case EnqueueErr(t, e) => t in s.requests && s.requests[t].pc.Allocated? && HasPc(s, t, s.requests[t].pc.slot) && e != 0
    case EndWait(t, interrupted) =>
      && t in s.requests && s.requests[t].pc.Waiting? && HasPc(s, t, s.requests[t].pc.slot)
      && (interrupted || s.slots[s.requests[t].pc.slot].done)
    case Release(t) => t in s.requests && s.requests[t].pc.Releasing? && HasPc(s, t, s.requests[t].pc.slot)
    case Return(t) => t in s.requests && s.requests[t].pc.Finished?
    case Answer(m, _, _, _) => m in s.outgoing
    case LoseRequest(m) => m in s.outgoing
    case Deliver(p) => p in s.incoming
    case LoseReply(p) => p in s.incoming
    case Connect => true
    case Disconnect => true
  }

  function Step(s: State, a: Action): State
    requires Enabled(s, a)
  {
    match a
    case Begin(t, q, outcap) =>
      s.(requests := s.requests[t := Request(q, outcap, 0, if s.connected then Checked else Finished(Error(ENOTCONN)))])
    case Alloc(t) => AllocSegment(s, t)
    case Enqueue(t) =>
      var r := s.requests[t];
      Move(s.(outgoing := s.outgoing + {Msg(r.ticket, s.slots[r.pc.slot].seqNo, r.query)}), t, Waiting(r.pc.slot))
    case EnqueueErr(t, e) => Move(s, t, Releasing(s.requests[t].pc.slot, Error(e)))
    case EndWait(t, _) =>
      var r := s.requests[t];
      Move(s, t, Releasing(r.pc.slot, Outcome(s.slots[r.pc.slot], r.outcap)))
    case Release(t) =>
      var r := s.requests[t];
      Move(s.(slots := s.slots[r.pc.slot := s.slots[r.pc.slot].(inUse := false)]), t, Finished(r.pc.result))
    case Return(t) => s.(requests := s.requests - {t})
    case Answer(m, e, len, payload) =>
      s.(outgoing := s.outgoing - {m},
         incoming := s.incoming + {Packet(HEADER + |payload|, MAGIC, m.seqNo, e, len, payload, m)})
    case LoseRequest(m) => s.(outgoing := s.outgoing - {m})
    case Deliver(p) => s.(incoming := s.incoming - {p}, slots := SendSlots(s.slots, p))
    case LoseReply(p) => s.(incoming := s.incoming - {p})
    case Connect => s.(connected := true)
    case Disconnect => s.(connected := false, slots := AbortSlots(s.slots))
  }

  ghost predicate Init(s: State) {
    && |s.slots| == SLOTS && (forall i :: 0 <= i < SLOTS ==> !s.slots[i].inUse && |s.slots[i].buf| == |s.slots[i].stale| == MAX_PAYLOAD)
    && s.counter == 0 && s.tickets == 0 && s.requests == map[] && s.outgoing == {} && s.incoming == {}
  }

  /**
   Everything that still carries a sequence number, in a slot or in transit, got it within the last
   2^32 - 1 allocations.
   */
  ghost predicate Young(s: State) {
    && (forall m :: m in s.outgoing ==> s.tickets - m.ticket <= PERIOD)
    && (forall p :: p in s.incoming ==> s.tickets - p.origin.ticket <= PERIOD)
    && (forall t :: t in s.requests && SlotOf(s.requests[t].pc).Some? ==> s.tickets - s.requests[t].ticket <= PERIOD)
  }

  ghost predicate Runs(s: State, run: seq<Action>, s': State)
    decreases |run|
  {
    if run == [] then s' == s
    else Enabled(s, run[0]) && Runs(Step(s, run[0]), run[1..], s')
  }

  /** A run in which every state before a step is young. */
  ghost predicate RunsYoung(s: State, run: seq<Action>, s': State)
    decreases |run|
  {
    if run == [] then s' == s
    else Young(s) && Enabled(s, run[0]) && RunsYoung(Step(s, run[0]), run[1..], s')
  }

  // ---------- the invariant ----------

  /** A reply that echoes the sequence number; its header may promise more or less than it carries. */
  predicate PacketOk(p: Packet) {
    && p.magic == MAGIC && p.total == HEADER + |p.payload|
    && p.seqNo == p.origin.seqNo == SeqOf(p.origin.ticket)
  }

  /** The packet carries as many bytes as its header promises, up to what a slot can hold. */
  predicate Full(p: Packet) { Clamp(p.len) <= |p.payload| }

  /** The bytes a slot shows for a reply: those of the reply if it is full, otherwise what was there before. */
  function Shown(p: Packet, stale: Bytes): Bytes { if Full(p) then p.payload else stale }

  predicate MsgOk(s: State, m: Msg) { m.ticket < s.tickets && m.seqNo == SeqOf(m.ticket) }

  /** The buffer of a completed slot holds the payload of the packet that completed it, or what it held when it was claimed. */
  predicate SlotOk(slot: Slot) {
    && |slot.buf| == |slot.stale| == MAX_PAYLOAD
    && (slot.inUse && !slot.done ==> slot.buf == slot.stale)
    && (slot.inUse && slot.done && slot.error == 0 ==>
          && slot.source.Some? && PacketOk(slot.source.value) && slot.source.value.error == 0
          && slot.source.value.seqNo == slot.seqNo && slot.len == Clamp(slot.source.value.len)
          && slot.buf[..slot.len] == Shown(slot.source.value, slot.stale)[..slot.len])
  }

  /** How many bytes of a reply the caller gets. */
  function Count(p: Packet, outcap: nat): nat { if Clamp(p.len) > outcap then outcap else Clamp(p.len) }

  /** What a request that succeeded has to show. */
  predicate DataOk(r: Request, result: Result) {
    result.Data? ==>
      && result.source.Some? && PacketOk(result.source.value) && result.source.value.error == 0
      && result.source.value.seqNo == SeqOf(r.ticket) && |result.stale| == MAX_PAYLOAD
      && result.bytes == Shown(result.source.value, result.stale)[..Count(result.source.value, r.outcap)]
  }

  predicate RequestOk(s: State, r: Request) {
    && (SlotOf(r.pc).Some? ==>
          var i := SlotOf(r.pc).value;
          i < |s.slots| && s.slots[i].inUse && r.ticket < s.tickets && s.slots[i].seqNo == SeqOf(r.ticket))
    && (r.pc.Releasing? ==> DataOk(r, r.pc.result))
    && (r.pc.Finished? ==> DataOk(r, r.pc.result))
    && (r.pc.Finished? && r.pc.result.Data? ==> r.ticket < s.tickets)
  }

  ghost predicate Held(s: State, i: nat) { exists t :: HasPc(s, t, i) }

  ghost predicate SlotsOk(s: State) {
    && |s.slots| == SLOTS
    && (forall i :: 0 <= i < |s.slots| ==> SlotOk(s.slots[i]))
    && (forall i :: 0 <= i < |s.slots| && s.slots[i].inUse ==> Held(s, i))
  }

  ghost predicate RequestsOk(s: State) {
    && (forall t :: t in s.requests ==> RequestOk(s, s.requests[t]))
    && (forall t, u :: t in s.requests && u in s.requests && SlotOf(s.requests[t].pc).Some? ==>
          SlotOf(s.requests[t].pc) == SlotOf(s.requests[u].pc) ==> t == u)
  }

  ghost predicate WireOk(s: State) {
    && (forall m :: m in s.outgoing ==> MsgOk(s, m))
    && (forall p :: p in s.incoming ==> PacketOk(p) && MsgOk(s, p.origin))
  }

  ghost predicate Inv(s: State) {
    s.counter == CounterAfter(s.tickets) && SlotsOk(s) && RequestsOk(s) && WireOk(s)
  }
}
