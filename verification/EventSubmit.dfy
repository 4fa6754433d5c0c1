/** Sending one event: the serialized length decides the reservation, and the
    serializer then writes into the reserved slice of the shared ring. */
module EventSubmit {
  import opened Wrappers
  import opened Words
  import opened RingMachine
  import opened RingInvariant
  import opened RingSteps
  import opened RingTheorems
  import opened SharedRing
  import opened TwoPassSerialization

  datatype Submitted = Sent | SerializeError | NoRoom

  /** One write into a reserved slice, while others run. */
  method WriteChunk(ring: SharedRing.Ring, ghost p: nat, ghost slot: Slot, pos: nat, at: nat, bytes: seq<byte>)
    requires ring.Valid() && ring.View().Actor(p) == Filling(slot) && slot.pos == pos && at + |bytes| <= slot.size
    modifies ring, ring.mem
    ensures ring.Valid() && ring.View().Actor(p) == Filling(slot)
    ensures Extends(old(ring.recs), ring.recs) && NewBy(old(ring.recs), ring.recs, p) == {}
    ensures slot.idx < |ring.recs| && OwnsBusy(RingOf(ring.View()), p, slot)
    ensures |ring.recs[slot.idx].payload| == slot.size
    ensures slot.idx < |old(ring.recs)| && |old(ring.recs)[slot.idx].payload| == slot.size
    ensures ring.recs[slot.idx].payload == Spliced(old(ring.recs)[slot.idx].payload, at, bytes)
  {
    hide Inv, Interfered, Spliced, NewBy;
    ring.FillAt(p, slot, pos, at, bytes);
    ring.Bystanders(p, old(ring.recs));
  }

  lemma OwnSlice(s: State, p: nat, slot: Slot)
    requires Inv(s) && s.Actor(p) == Filling(slot)
    ensures slot.idx < |s.recs| && OwnsBusy(RingOf(s), p, slot) && |s.recs[slot.idx].payload| == slot.size
  {
    OwnsIt(s, p);
    hide Inv;
  }

  /** The writing pass over a reserved slice: it succeeds exactly when the
      serializer completes within the slice, which then begins with its bytes. */
  method SerializeToSlice<S>(ring: SharedRing.Ring, f: Serializer<S>, s0: S, ghost p: nat, ghost slot: Slot,
                             pos: nat, size: nat, ghost n: nat)
    returns (ok: bool)
    requires ring.Valid() && ring.View().Actor(p) == Filling(slot) && slot.pos == pos && slot.size == size
    requires Stops(f, s0, n)
    modifies ring, ring.mem
    ensures ring.Valid() && Extends(old(ring.recs), ring.recs) && ring.View().Actor(p) == Filling(slot)
    ensures NewBy(old(ring.recs), ring.recs, p) == {}
    ensures slot.idx < |ring.recs| && OwnsBusy(RingOf(ring.View()), p, slot)
    ensures |ring.recs[slot.idx].payload| == size
    ensures var out := Emitted(f, s0, 0, n);
      && (ok <==> out.outcome == Complete && |out.bytes| <= size)
      && (ok ==> out.bytes <= ring.recs[slot.idx].payload)
  {
    hide Inv, Interfered, OwnsBusy, Spliced, Extends, NewBy, RingOf, Emitted;
    OwnSlice(ring.View(), p, slot);
    Unchanged(ring.recs, p);
    var s, at: nat := s0, 0;
    ghost var all, left := Emitted(f, s0, 0, n), n;
    assert n > 0 by { NeverAtOnce(f, s0); }
    while true
      invariant ring.Valid() && Extends(old(ring.recs), ring.recs) && ring.View().Actor(p) == Filling(slot)
      invariant NewBy(old(ring.recs), ring.recs, p) == {}
      invariant slot.idx < |ring.recs| && OwnsBusy(RingOf(ring.View()), p, slot)
      invariant |ring.recs[slot.idx].payload| == size
      invariant 0 < left && at <= size && Rest(all, at, Emitted(f, s, at, left))
      invariant ring.recs[slot.idx].payload[..at] == all.bytes[..at]
      decreases left
    {
      Unfold(f, s, at, left);
      match f(s, at) {
        case Done =>
          assert all.bytes == all.bytes[..at];
          return true;
        case Fail => return false;
        case Write(bytes, next) =>
          ghost var payload, rest := ring.recs[slot.idx].payload, Emitted(f, next, at + |bytes|, left - 1);
          Advance(all, at, bytes, rest);
          if at + |bytes| > size {
            return false;
          }
          SpliceRead(all.bytes, at, payload, bytes);
          ghost var recs := ring.recs;
          WriteChunk(ring, p, slot, pos, at, bytes);
          NewByAdds(old(ring.recs), recs, ring.recs, p);
          s, at, left := next, at + |bytes|, left - 1;
      }
    }
  }

  lemma SpliceRead(all: seq<byte>, at: nat, payload: seq<byte>, bytes: seq<byte>)
    requires at + |bytes| <= |all| && at + |bytes| <= |payload|
    requires payload[..at] == all[..at] && all[at..at + |bytes|] == bytes
    ensures Spliced(payload, at, bytes)[..at + |bytes|] == all[..at + |bytes|]
  {
  }

  /** Dropping the reserved slice commits it whatever the second pass returned;
      the record is whole only because that pass cannot fail. So an event that
      is sent is in the log as one committed record holding its complete
      serialization, and an event whose serializer breaks reserves nothing. */
  method Submit<S>(ring: SharedRing.Ring, f: Serializer<S>, s0: S, weak: nat -> bool, ghost p: nat, ghost n: nat)
    returns (r: Submitted, ghost idx: nat)
    requires ring.Valid() && ring.View().Actor(p).Idle? && Stops(f, s0, n)
    modifies ring, ring.mem
    ensures ring.Valid() && Extends(old(ring.recs), ring.recs) && ring.View().Actor(p).Idle?
    ensures r == SerializeError <==> Emitted(f, s0, 0, n).outcome == Broken
    ensures r == SerializeError ==> ring.View() == old(ring.View())
    ensures r == NoRoom ==> Refused(old(ring.View()), ring.View(), p, |Emitted(f, s0, 0, n).bytes|, weak)
    ensures NewBy(old(ring.recs), ring.recs, p) == if r == Sent then {idx} else {}
    ensures r == Sent ==>
      && old(|ring.recs|) <= idx < |ring.recs| && ring.recs[idx].owner == p && ring.recs[idx].status == Committed
      && ring.recs[idx].payload == Emitted(f, s0, 0, n).bytes
  {
    hide Inv, Interfered, Emitted, Apply, NewBy, Reserves;
    idx := 0;
    Unchanged(ring.recs, p);
    var required := ComputeLength(f, s0, n);
    if required.None? {
      return SerializeError, idx;
    }
    var reserved, slot := ring.Reserve(p, required.value, weak);
    if !reserved.Ok? {
      return NoRoom, idx;
    }
    ring.Bystanders(p, old(ring.recs));
    ghost var now := ring.recs;
    var ok := SerializeToSlice(ring, f, s0, p, slot, reserved.slot.pos, required.value, n);
    NewByAdds(old(ring.recs), now, ring.recs, p);
    ring.Bystanders(p, old(ring.recs));
    idx, now := slot.idx, ring.recs;
    ring.DropBuffer(p, slot, reserved.slot.pos);
    NewByAdds(old(ring.recs), now, ring.recs, p);
    r := if ok then Sent else SerializeError;
  }
}
