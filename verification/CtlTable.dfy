/** The slot table of the kernel-control bridge as the code keeps it: an array updated in place under the lock. */
module CtlTable {
  import opened Options
  import opened CtlBridge

  class Table {
    var slots: array<Slot>
    var connected: bool
    var counter: nat

    ghost predicate Valid()
      reads this
    {
      slots.Length == SLOTS
    }

    constructor (blank: Bytes)
      requires |blank| == MAX_PAYLOAD
      ensures Valid() && fresh(slots) && !connected && counter == 0
      ensures forall i :: 0 <= i < SLOTS ==> !slots[i].inUse && |slots[i].buf| == MAX_PAYLOAD
    {
      slots := new Slot[SLOTS](_ => Slot(false, false, 0, 0, 0, blank, None, blank));
      connected := false;
      counter := 0;
    }

    /** `procfs_ctl_disconnect` */
    method Disconnect()
      requires Valid()
      modifies this`connected, slots
      ensures Valid() && !connected && slots[..] == AbortSlots(old(slots[..]))
    {
      connected := false;
      for i := 0 to SLOTS
        invariant Valid() && !connected
        invariant forall k :: 0 <= k < i ==> slots[k] == Abort(old(slots[k]))
        invariant forall k :: i <= k < SLOTS ==> slots[k] == old(slots[k])
      {
        if slots[i].inUse && !slots[i].done {
          slots[i] := slots[i].(error := ENOTCONN, done := true);
        }
      }
    }

    /** `procfs_ctl_send`: at most the first pending slot with the packet's number is completed. */
    method Send(p: Packet)
      requires Valid()
      modifies slots
      ensures Valid() && slots[..] == SendSlots(old(slots[..]), p)
    {
      if p.total >= HEADER && p.magic == MAGIC {
        var plen := if p.len > MAX_PAYLOAD then MAX_PAYLOAD else p.len;
        var i := 0;
        while i < SLOTS
          invariant 0 <= i <= SLOTS
          invariant slots[..] == old(slots[..])
          invariant MatchFrom(slots[..], p.seqNo, 0) == MatchFrom(slots[..], p.seqNo, i)
        {
          if slots[i].inUse && !slots[i].done && slots[i].seqNo == p.seqNo {
            if 0 < plen <= |p.payload| && p.total >= HEADER + plen {
              slots[i] := slots[i].(buf := Overlay(slots[i].buf, p.payload[..plen]));
            }
            slots[i] := slots[i].(len := plen, error := p.error, done := true, source := Some(p));
            break;
          }
          i := i + 1;
        }
      }
    }

    /** The first locked segment of `procfs_ctl_request`. */
    method Allocate() returns (slot: Option<nat>)
      requires Valid()
      modifies this`counter, slots
      ensures Valid() && slot == FreeFrom(old(slots[..]), 0)
      ensures slot.None? ==> slots[..] == old(slots[..]) && counter == old(counter)
      ensures slot.Some? ==>
                slot.value < SLOTS && counter == NextSeq(old(counter))
                && slots[..] == old(slots[..])[slot.value := Claim(old(slots[slot.value]), counter)]
    {
      var i := 0;
      while i < SLOTS && slots[i].inUse
        invariant 0 <= i <= SLOTS
        invariant FreeFrom(slots[..], 0) == FreeFrom(slots[..], i)
      {
        i := i + 1;
      }
      if i == SLOTS {
        return None;
      }
      counter := (counter + 1) % 0x1_0000_0000;
      if counter == 0 {
        counter := (counter + 1) % 0x1_0000_0000;
      }
      slots[i] := slots[i].(inUse := true, done := false, seqNo := counter, error := 0, len := 0, source := None, stale := slots[i].buf);
      slot := Some(i);
    }

    /** The last locked segment of `procfs_ctl_request`. */
    method Release(i: nat)
      requires Valid() && i < SLOTS
      modifies slots
      ensures Valid() && slots[..] == old(slots[..])[i := old(slots[i]).(inUse := false)]
    {
      slots[i] := slots[i].(inUse := false);
    }
  }
}
