/** Each step of the ring buffer keeps the invariant. */
module RingSteps {
  import opened Wrappers
  import opened Words
  import opened RingMemory
  import opened RingMachine
  import opened RingInvariant
  import opened RingStray

  // ------------------------------------------- writes stay inside a record

  lemma KeepsRecord(g: Ring, r: Rec, a: nat, bs: seq<byte>)
    requires Shape(g) && Stored(g.mem, r) && RecShape(r)
    requires g.consumer <= r.start && g.consumer <= a
    requires r.end <= g.consumer + g.n && a + |bs| <= g.consumer + g.n
    requires a + |bs| <= r.start || r.end <= a
    ensures Stored(WriteBytes(g.mem, a, bs), r)
  {
    ReadElsewhere(g.mem, a, bs, r.start, HEADER_SIZE);
    ReadElsewhere(g.mem, a, bs, r.start + HEADER_SIZE, r.size);
  }

  lemma LiveAfterConsumer(g: Ring)
    requires Layout(g)
    ensures forall i | g.head <= i < |g.recs| :: g.consumer <= g.recs[i].start
  {
    forall i | g.head < i < |g.recs| ensures g.consumer <= g.recs[i].start {
      assert Follows(g.head, i, g.recs[g.head], g.recs[i]);
    }
  }

  /** A write inside record `idx` disturbs no other live record and not the
      header cell at the producer position. */
  lemma WriteInside(g: Ring, idx: nat, a: nat, bs: seq<byte>)
    requires RingOk(g)
    requires g.head <= idx < |g.recs|
    requires g.recs[idx].start <= a && a + |bs| <= g.recs[idx].end
    ensures forall i | g.head <= i < |g.recs| && i != idx ::
      Stored(WriteBytes(g.mem, a, bs), g.recs[i])
    ensures g.producer + HEADER_SIZE <= g.consumer + g.n ==>
      LoadHeader(WriteBytes(g.mem, a, bs), g.producer) == LoadHeader(g.mem, g.producer)
  {
    LiveAfterConsumer(g);
    forall i | g.head <= i < |g.recs| && i != idx
      ensures Stored(WriteBytes(g.mem, a, bs), g.recs[i])
    {
      assert i < idx ==> Follows(i, idx, g.recs[i], g.recs[idx]);
      assert idx < i ==> Follows(idx, i, g.recs[idx], g.recs[i]);
      KeepsRecord(g, g.recs[i], a, bs);
    }
    if g.producer + HEADER_SIZE <= g.consumer + g.n {
      ReadElsewhere(g.mem, a, bs, g.producer, HEADER_SIZE);
    }
  }

  // --------------------------------------------- the ring after each change

  /** Rewriting record `idx` in place, in memory and in the log. */
  lemma RewrittenRing(g: Ring, h: Ring, idx: nat, a: nat, bs: seq<byte>, rec: Rec)
    requires RingOk(g) && g.head <= idx < |g.recs|
    requires g.recs[idx].start <= a && a + |bs| <= g.recs[idx].end
    requires h == g.(mem := WriteBytes(g.mem, a, bs), recs := g.recs[idx := rec])
    requires rec.start == g.recs[idx].start && rec.end == g.recs[idx].end && RecShape(rec)
    requires Stored(h.mem, rec)
    ensures RingOk(h)
    ensures g.producer + HEADER_SIZE <= g.consumer + g.n ==>
      LoadHeader(h.mem, g.producer) == LoadHeader(g.mem, g.producer)
  {
    WriteInside(g, idx, a, bs);
    LayoutRewrite(g, h, idx, rec);
    forall i | h.head <= i < |h.recs| ensures Stored(h.mem, h.recs[i]) {
    }
    assert forall i | 0 <= i < h.head :: h.recs[i] == g.recs[i];
  }

  lemma LayoutRewrite(g: Ring, h: Ring, idx: nat, rec: Rec)
    requires Layout(g) && idx < |g.recs|
    requires rec.start == g.recs[idx].start && rec.end == g.recs[idx].end && RecShape(rec)
    requires h.recs == g.recs[idx := rec] && h.head == g.head
    requires h.producer == g.producer && h.consumer == g.consumer
    ensures Layout(h)
  {
    forall i, j | 0 <= i < j < |h.recs| ensures Follows(i, j, h.recs[i], h.recs[j]) {
      assert Follows(i, j, g.recs[i], g.recs[j]);
    }
  }

  lemma AppendedRing(g: Ring, h: Ring, size: nat, p: nat)
    requires RingOk(g) && size < WORD32
    requires g.producer + TotalSize(size) < g.consumer + g.n
    requires LoadHeader(g.mem, g.producer) == Pack(size, BUSY_FLAG)
    requires h == g.(producer := g.producer + TotalSize(size),
                     recs := g.recs + [Rec(g.producer, g.producer + TotalSize(size), size, p, Busy,
                                           ReadBytes(g.mem, g.producer + HEADER_SIZE, size))])
    ensures RingOk(h)
  {
    forall i, j | 0 <= i < j < |h.recs| ensures Follows(i, j, h.recs[i], h.recs[j]) {
      assert j < |g.recs| ==> Follows(i, j, g.recs[i], g.recs[j]);
    }
    assert Layout(h);
    forall i | h.head <= i < |h.recs| ensures Stored(h.mem, h.recs[i]) {
      assert i < |g.recs| ==> Stored(g.mem, g.recs[i]);
    }
  }

  lemma StampedRing(g: Ring, h: Ring, size: nat)
    requires RingOk(g) && size < WORD32
    requires g.producer + TotalSize(size) < g.consumer + g.n
    requires h == g.(mem := StoreHeader(g.mem, g.producer, Pack(size, BUSY_FLAG)))
    ensures RingOk(h) && LoadHeader(h.mem, g.producer) == Pack(size, BUSY_FLAG)
  {
    HeaderRoundTrip(g.mem, g.producer, size, BUSY_FLAG);
    LiveAfterConsumer(g);
    forall i | h.head <= i < |h.recs| ensures Stored(h.mem, h.recs[i]) {
      KeepsRecord(g, g.recs[i], g.producer, LittleEndian(Pack(size, BUSY_FLAG), HEADER_SIZE));
    }
    assert Layout(h);
  }

  lemma FilledRing(g: Ring, h: Ring, idx: nat, i: nat, v: byte)
    requires RingOk(g) && g.head <= idx < |g.recs| && i < g.recs[idx].size
    requires h == g.(mem := WriteBytes(g.mem, g.recs[idx].start + HEADER_SIZE + i, [v]),
                     recs := Fill(g.recs, idx, i, v))
    ensures RingOk(h)
    ensures g.producer + HEADER_SIZE <= g.consumer + g.n ==>
      LoadHeader(h.mem, g.producer) == LoadHeader(g.mem, g.producer)
  {
    hide WriteBytes, ReadBytes, Follows, TotalSize;
    var r := g.recs[idx];
    var a := r.start + HEADER_SIZE;
    LiveAfterConsumer(g);
    assert Stored(g.mem, r) && RecShape(r) && r.end <= g.producer;
    PayloadInside(r);
    FilledRecord(g.mem, r, i, v);
    RewrittenRing(g, h, idx, a + i, [v], h.recs[idx]);
  }

  lemma PayloadInside(r: Rec)
    requires RecShape(r)
    ensures r.start + HEADER_SIZE + r.size <= r.end
  {
  }

  lemma FilledRecord(mem: seq<byte>, r: Rec, i: nat, v: byte)
    requires mem != [] && Stored(mem, r) && |r.payload| == r.size && i < r.size
    requires HEADER_SIZE + r.size <= |mem|
    ensures Stored(WriteBytes(mem, r.start + HEADER_SIZE + i, [v]), r.(payload := r.payload[i := v]))
  {
    hide WriteBytes, ReadBytes, Pack;
    var a := r.start + HEADER_SIZE;
    ReadElsewhere(mem, a + i, [v], r.start, HEADER_SIZE);
    ReadAfterByte(mem, a, r.size, i, v);
  }

  lemma ReadAfterByte(mem: seq<byte>, a: nat, k: nat, i: nat, v: byte)
    requires mem != [] && i < k <= |mem|
    ensures ReadBytes(WriteBytes(mem, a + i, [v]), a, k) == ReadBytes(mem, a, k)[i := v]
  {
    var n := |mem|;
    var m, was := WriteBytes(mem, a + i, [v]), ReadBytes(mem, a, k);
    forall j | 0 <= j < k ensures ReadBytes(m, a, k)[j] == was[i := v][j] {
      RingDistance(a + j, a + i, n);
      var d := j - i;
      RemainderUnique(d, n, if d < 0 then -1 else 0, if d < 0 then d + n else d);
    }
  }

  lemma FinishedRing(g: Ring, h: Ring, idx: nat, status: Status)
    requires RingOk(g) && g.head <= idx < |g.recs| && status != Busy
    requires h == g.(mem := StoreHeader(g.mem, g.recs[idx].start, Pack(g.recs[idx].size, FlagOf(status))),
                     recs := Mark(g.recs, idx, status))
    ensures RingOk(h)
    ensures g.producer + HEADER_SIZE <= g.consumer + g.n ==>
      LoadHeader(h.mem, g.producer) == LoadHeader(g.mem, g.producer)
  {
    var r := g.recs[idx];
    LiveAfterConsumer(g);
    assert Stored(g.mem, r);
    FinishedRecord(g.mem, r, status);
    RewrittenRing(g, h, idx, r.start, LittleEndian(Pack(r.size, FlagOf(status)), HEADER_SIZE), h.recs[idx]);
  }

  lemma FinishedRecord(mem: seq<byte>, r: Rec, status: Status)
    requires |mem| >= HEADER_SIZE && Stored(mem, r) && RecShape(r) && r.end <= r.start + |mem|
    ensures Stored(StoreHeader(mem, r.start, Pack(r.size, FlagOf(status))), r.(status := status))
  {
    HeaderRoundTrip(mem, r.start, r.size, FlagOf(status));
    ReadElsewhere(mem, r.start, LittleEndian(Pack(r.size, FlagOf(status)), HEADER_SIZE),
                  r.start + HEADER_SIZE, r.size);
  }

  lemma AdvancedRing(g: Ring, h: Ring)
    requires RingOk(g) && g.head < |g.recs| && g.recs[g.head].status != Busy
    requires h == g.(consumer := g.recs[g.head].end, head := g.head + 1)
    ensures RingOk(h) && g.consumer <= h.consumer
  {
    if h.head < |g.recs| {
      assert Follows(g.head, h.head, g.recs[g.head], g.recs[h.head]);
    }
  }

  // --------------------------------------------------- what actors rely on

  /** An actor outside the critical section relies only on its own record and
      on the consumer position never moving back. */
  lemma ActorFrame(g: Ring, h: Ring, p: nat, t: Prod)
    requires g.mem != [] && h.mem != [] && ActorOk(g, p, t)
    requires g.consumer <= h.consumer && g.head <= h.head && g.n == h.n && |g.recs| <= |h.recs|
    requires t.Measured? || t.Stamped? ==> g.producer == h.producer
    requires t.Stamped? ==> LoadHeader(h.mem, t.prod) == LoadHeader(g.mem, t.prod)
    requires forall i | 0 <= i < |g.recs| && g.recs[i].owner == p :: Same(g.recs[i], h.recs[i])
    ensures ActorOk(h, p, t)
  {
  }

  predicate Same(a: Rec, b: Rec) {
    a.start == b.start && a.size == b.size && a.owner == b.owner && a.status == b.status
  }

  /** A change that keeps the producer position and the header cell there. */
  lemma OthersFrame(g: Ring, h: Ring, procs: map<nat, Prod>, p: nat)
    requires g.mem != [] && h.mem != [] && ActorsOk(g, procs)
    requires g.consumer == h.consumer && g.head == h.head && g.n == h.n && |g.recs| <= |h.recs|
    requires g.producer == h.producer
    requires g.producer + HEADER_SIZE <= g.consumer + g.n ==>
      LoadHeader(h.mem, g.producer) == LoadHeader(g.mem, g.producer)
    requires forall i | 0 <= i < |g.recs| && g.recs[i].owner != p :: Same(g.recs[i], h.recs[i])
    ensures forall q | q in procs && q != p :: ActorOk(h, q, procs[q])
  {
    forall q | q in procs && q != p ensures ActorOk(h, q, procs[q]) {
      assert ActorOk(g, q, procs[q]);
      ActorFrame(g, h, q, procs[q]);
    }
  }

  /** A change that keeps every record's place and status. */
  lemma AllFrame(g: Ring, h: Ring, procs: map<nat, Prod>)
    requires g.mem != [] && h.mem != [] && ActorsOk(g, procs)
    requires g.consumer <= h.consumer && g.head <= h.head && g.n == h.n && |g.recs| == |h.recs|
    requires g.producer == h.producer
    requires g.producer + HEADER_SIZE <= g.consumer + g.n ==>
      LoadHeader(h.mem, g.producer) == LoadHeader(g.mem, g.producer)
    requires forall i | 0 <= i < |g.recs| :: Same(g.recs[i], h.recs[i])
    ensures ActorsOk(h, procs)
  {
    forall q | q in procs ensures ActorOk(h, q, procs[q]) {
      assert ActorOk(g, q, procs[q]);
      ActorFrame(g, h, q, procs[q]);
    }
  }

  /** A change made inside the critical section, seen by the actors outside. */
  lemma OutsideFrame(g: Ring, h: Ring, procs: map<nat, Prod>, p: nat)
    requires g.mem != [] && h.mem != [] && ActorsOk(g, procs)
    requires g.consumer == h.consumer && g.head == h.head && g.n == h.n && |g.recs| <= |h.recs|
    requires forall q | q in procs && q != p :: !InCritical(procs[q])
    requires forall i | 0 <= i < |g.recs| :: Same(g.recs[i], h.recs[i])
    ensures forall q | q in procs && q != p :: ActorOk(h, q, procs[q])
  {
    forall q | q in procs && q != p ensures ActorOk(h, q, procs[q]) {
      assert ActorOk(g, q, procs[q]);
      ActorFrame(g, h, q, procs[q]);
    }
  }

  lemma Alone(procs: map<nat, Prod>, locked: bool, p: nat)
    requires Exclusive(procs, locked) && p in procs && InCritical(procs[p])
    ensures forall q | q in procs && q != p :: !InCritical(procs[q])
  {
  }

  lemma BusyIsLive(g: Ring, c: Cons, p: nat, slot: Slot)
    requires g.mem != [] && Contents(g) && ConsumerOk(g, c) && OwnsBusy(g, p, slot)
    ensures Upto(g.head, c) <= slot.idx < |g.recs|
  {
  }

  lemma HeldKept(recs: seq<Rec>, procs: map<nat, Prod>, p: nat, t: Prod)
    requires BusyHeld(recs, procs)
    requires BusySlot(if p in procs then procs[p] else Idle) == BusySlot(t)
    ensures BusyHeld(recs, procs[p := t])
  {
    forall i | 0 <= i < |recs| && recs[i].status == Busy
      ensures HeldBy(procs[p := t], recs[i].owner, i)
    {
      assert HeldBy(procs, recs[i].owner, i);
    }
  }

  lemma NotifyKept(s: State, r: State)
    requires Wakeup(s) && s.forced == r.forced && s.head == r.head && s.cons == r.cons
    requires s.eventfd == r.eventfd
    requires HeadAvailable(r.recs, s.head) ==> HeadAvailable(s.recs, s.head)
    requires forall q | q in s.procs && Ending(s.procs[q]) ::
      q in r.procs && r.procs[q] == s.procs[q]
    ensures Wakeup(r)
  {
    if NotifyPending(s.procs, s.head) {
      var q :| q in s.procs && Ending(s.procs[q]) && s.procs[q].slot.idx == s.head;
      assert q in r.procs && r.procs[q] == s.procs[q];
    }
  }

  /** The log only grows; an entry keeps its place, size and owner, and a
      finished entry never changes again. */
  predicate Extends(a: seq<Rec>, b: seq<Rec>) {
    |a| <= |b| && forall i | 0 <= i < |a| :: Continues(a[i], b[i])
  }

  predicate Continues(x: Rec, y: Rec) {
    && y.start == x.start && y.end == x.end && y.size == x.size && y.owner == x.owner
    && (x.status != Busy ==> y == x)
  }

  lemma ConsumerFrame(g: Ring, h: Ring, c: Cons, delivered: seq<seq<byte>>)
    requires g.mem != [] && Contents(g) && ConsumerOk(g, c) && Delivery(g.recs, g.head, c, delivered)
    requires h.head == g.head && h.consumer == g.consumer && Extends(g.recs, h.recs)
    ensures ConsumerOk(h, c) && Delivery(h.recs, h.head, c, delivered)
  {
    assert h.recs[..Upto(h.head, c)] == g.recs[..Upto(g.head, c)];
  }

  // -------------------------------------------------- steps on locals only

  /** Moving one actor to a sound position that finishes nothing. */
  lemma ActorMoves(s: State, p: nat, t: Prod, locked: bool)
    requires Inv(s)
    requires ActorOk(RingOf(s), p, t)
    requires BusySlot(s.Actor(p)) == BusySlot(t)
    requires !Ending(s.Actor(p))
    requires Exclusive(s.procs[p := t], locked)
    ensures Inv(s.With(p, t).(locked := locked))
  {
    var r := s.With(p, t).(locked := locked);
    assert RingOf(r) == RingOf(s);
    HeldKept(s.recs, s.procs, p, t);
    NotifyKept(s, r);
  }

  lemma EnterSteps(s: State, a: Action)
    requires Inv(s) && Enabled(s, a)
    requires a.LoadConsumer? || a.LookTaken? || a.LookWeak? || a.LockTimeout? || a.Acquire?
    ensures Inv(Apply(s, a))
  {
    Moved(s, Apply(s, a), a.p, Apply(s, a).procs[a.p]);
  }

  lemma InsideSteps(s: State, a: Action)
    requires Inv(s) && Enabled(s, a)
    requires a.LoadProducer? || a.Release?
    ensures Inv(Apply(s, a))
  {
    Moved(s, Apply(s, a), a.p, Apply(s, a).procs[a.p]);
  }

  /** The moves a reservation makes without writing anything but the lock. */
  lemma Moved(s: State, r: State, p: nat, t: Prod)
    requires Inv(s) && r == s.With(p, t).(locked := r.locked)
    requires match s.Actor(p)
      case Idle => t.Sized? && t.cons == s.consumer && r.locked == s.locked
      case Sized(size, cons, _) =>
        || ((t.Idle? || (t.Sized? && t.cons == cons)) && r.locked == s.locked)
        || (t == InLock(size, cons) && !s.locked && r.locked)
      case InLock(size, cons) => r.locked == s.locked &&
        (t.Rejected? || (t == Measured(size, cons, s.producer) && Fits(RingOf(s), size, cons, s.producer)))
      case Rejected => t.Idle? && !r.locked
      case Published(slot) => t == Filling(slot) && !r.locked
      case _ => false
    ensures Inv(r)
  {
    assert p in s.procs ==> ActorOk(RingOf(s), p, s.procs[p]);
    LockDiscipline(s.procs, s.locked, p, t, r.locked);
    ActorMoves(s, p, t, r.locked);
  }

  lemma LockDiscipline(procs: map<nat, Prod>, locked: bool, p: nat, t: Prod, locked': bool)
    requires Exclusive(procs, locked)
    requires var was := p in procs && InCritical(procs[p]);
      if InCritical(t) then locked' && (was || !locked)
      else locked' == locked || (was && !locked')
    ensures Exclusive(procs[p := t], locked')
  {
  }

  lemma DropSteps(s: State, a: Action)
    requires Inv(s) && Enabled(s, a)
    requires (a.DropCheck? || a.CommitLoad? || a.DiscardLoad?) && BusySlot(s.Actor(a.p)).Some?
    ensures Inv(Apply(s, a))
    ensures a.DropCheck? ==> Apply(s, a).Actor(a.p) == Checked(s.Actor(a.p).slot)
  {
    hide Stored, RecShape, Follows, Exclusive, BusyHeld;
    hide LoadHeader, LenOf, FlagsOf, HasFlag, CommittedPayloads, TotalSize;
    var slot := s.procs[a.p].slot;
    assert ActorOk(RingOf(s), a.p, s.procs[a.p]);
    OwnHeader(s, a.p, slot);
    StaysOutside(s, a.p, slot, Apply(s, a).procs[a.p]);
  }

  lemma StaysOutside(s: State, p: nat, slot: Slot, t: Prod)
    requires Inv(s) && p in s.procs && (s.procs[p].Filling? || s.procs[p].Checked?)
    requires s.procs[p].slot == slot
    requires t == Checked(slot) || t == HeaderRead(slot, slot.size) || t == DiscardRead(slot, slot.size)
    ensures Inv(s.With(p, t))
  {
    hide Layout, Contents, CommittedPayloads, BusyHeld, BitAnd;
    assert ActorOk(RingOf(s), p, s.procs[p]);
    LockDiscipline(s.procs, s.locked, p, t, s.locked);
    ActorMoves(s, p, t, s.locked);
  }

  /** A producer that reads back its own header sees its size, busy. */
  lemma OwnHeader(s: State, p: nat, slot: Slot)
    requires Inv(s) && OwnsBusy(RingOf(s), p, slot)
    ensures LenOf(LoadHeader(s.mem, s.Offset(slot.pos))) == slot.size
    ensures !HasFlag(FlagsOf(LoadHeader(s.mem, s.Offset(slot.pos))), DISCARD_FLAG)
  {
    BusyIsLive(RingOf(s), s.cons, p, slot);
    PhysicalHeader(s, slot.pos, 0);
    assert Stored(s.mem, s.recs[slot.idx]);
    assert RecShape(s.recs[slot.idx]);
    HeaderWord(slot.size, Busy);
  }

  /** A discarded record that has not been consumed yet still carries its flag. */
  lemma LiveKeepsFlag(s: State, p: nat)
    requires Inv(s) && s.Actor(p).Flagged? && s.head <= s.Actor(p).slot.idx
    ensures HasFlag(FlagsOf(LoadHeader(s.mem, s.Offset(s.Actor(p).slot.pos))), DISCARD_FLAG)
  {
    hide LoadHeader, Follows, Exclusive, BusyHeld, CommittedPayloads;
    var slot := s.procs[p].slot;
    assert ActorOk(RingOf(s), p, s.procs[p]);
    PhysicalHeader(s, slot.pos, 0);
    assert Stored(s.mem, s.recs[slot.idx]) && RecShape(s.recs[slot.idx]);
    HeaderWord(slot.size, Discarded);
  }

  /** The second look at a discarded record. */
  lemma RecheckStep(s: State, p: nat)
    requires Inv(s) && s.Actor(p).Flagged?
    ensures Inv(Apply(s, DropCheck(p)))
  {
    hide Stored, RecShape, Follows, Exclusive, BusyHeld;
    hide LoadHeader, LenOf, FlagsOf, HasFlag, CommittedPayloads, TotalSize;
    var slot, r := s.procs[p].slot, Apply(s, DropCheck(p));
    var t := r.procs[p];
    assert ActorOk(RingOf(s), p, s.procs[p]);
    assert RingOf(r) == RingOf(s);
    if s.head <= slot.idx {
      LiveKeepsFlag(s, p);
    }
    LockDiscipline(s.procs, s.locked, p, t, s.locked);
    HeldKept(s.recs, s.procs, p, t);
    RecheckWakes(s, r, p, slot);
  }

  lemma RecheckWakes(s: State, r: State, p: nat, slot: Slot)
    requires Wakeup(s) && s.Actor(p) == Flagged(slot)
    requires r == s.With(p, Finished(slot)) || (r == s.With(p, Lapsed(slot)) && slot.idx < s.head)
    ensures Wakeup(r)
  {
    if NotifyPending(s.procs, s.head) {
      var q :| q in s.procs && Ending(s.procs[q]) && s.procs[q].slot.idx == s.head;
      assert q in r.procs && Ending(r.procs[q]) && r.procs[q].slot.idx == s.head;
    }
  }

  /** A drop that has missed its flag moves on. */
  lemma LapsedMoves(s: State, p: nat, slot: Slot, t: Prod)
    requires Inv(s) && (s.Actor(p).Lapsed? || s.Actor(p).LapsedRead?) && s.Actor(p).slot == slot
    requires t == Finished(slot) || (t.LapsedRead? && t.slot == slot)
    ensures Inv(s.With(p, t))
  {
    hide Layout, Contents, CommittedPayloads, BusyHeld, BitAnd;
    assert ActorOk(RingOf(s), p, s.procs[p]);
    LockDiscipline(s.procs, s.locked, p, t, s.locked);
    ActorMoves(s, p, t, s.locked);
  }

  lemma LapsedLoad(s: State, p: nat)
    requires Sane(s) && Inv(s) && s.Actor(p).Lapsed?
    ensures Inv(Apply(s, CommitLoad(p)))
  {
    hide Inv;
    LapsedMoves(s, p, s.Actor(p).slot, Apply(s, CommitLoad(p)).procs[p]);
  }

  /** Its store keeps the invariant if and only if it changes no byte in use. */
  lemma LapsedStore(s: State, p: nat)
    requires Sane(s) && Inv(s) && s.Actor(p).LapsedRead?
    ensures Inv(Apply(s, CommitStore(p))) <==> Calm(s, CommitStore(p))
  {
    hide Inv, Spares, StoreHeader;
    var slot, r := s.Actor(p).slot, Apply(s, CommitStore(p));
    LapsedMoves(s, p, slot, Finished(slot));
    StrayWriteIff(s.With(p, Finished(slot)), r);
    SameUse(s, p, slot, r.mem);
  }

  lemma SameUse(s: State, p: nat, slot: Slot, m: seq<byte>)
    requires s.Actor(p).LapsedRead? && s.mem != [] && |m| == |s.mem|
    ensures Spares(s.With(p, Finished(slot)), m) <==> Spares(s, m)
  {
    var u := s.With(p, Finished(slot));
    hide Cell;
    assert Stamping(u.procs) <==> Stamping(s.procs) by {
      if q :| q in s.procs && s.procs[q].Stamped? {
        assert q in u.procs && u.procs[q].Stamped?;
      }
    }
    forall x ensures InUse(u, x) <==> InUse(s, x) {
    }
  }

  lemma NotifyStep(s: State, p: nat)
    requires Inv(s) && Enabled(s, Notify(p))
    ensures Inv(Apply(s, Notify(p)))
  {
    var r := Apply(s, Notify(p));
    assert RingOf(r) == RingOf(s);
    LockDiscipline(s.procs, s.locked, p, Idle, s.locked);
    HeldKept(s.recs, s.procs, p, Idle);
  }

  // --------------------------------------------------------------- reserve

  lemma WriteHeaderStep(s: State, p: nat)
    requires Inv(s) && Enabled(s, WriteHeader(p))
    ensures Inv(Apply(s, WriteHeader(p)))
  {
    hide Stored, RecShape, Follows, BusyHeld, ReadBytes, CommittedPayloads;
    var r := Apply(s, WriteHeader(p));
    var t := s.procs[p];
    var g, h := RingOf(s), RingOf(r);
    assert ActorOk(g, p, t);
    RemainderUnique(t.size, WORD32, 0, t.size);
    PhysicalHeader(s, t.prod, Pack(t.size, BUSY_FLAG));
    StampedRing(g, h, t.size);
    Alone(s.procs, s.locked, p);
    OutsideFrame(g, h, s.procs, p);
    LockDiscipline(s.procs, s.locked, p, r.procs[p], s.locked);
    HeldKept(s.recs, s.procs, p, r.procs[p]);
    NotifyKept(s, r);
  }

  lemma StoreProducerStep(s: State, p: nat)
    requires Inv(s) && Enabled(s, StoreProducer(p))
    ensures Inv(Apply(s, StoreProducer(p)))
  {
    hide Stored, RecShape, Follows, BusyHeld, LoadHeader, ReadBytes, CommittedPayloads;
    var t := s.procs[p];
    assert ActorOk(RingOf(s), p, t);
    PhysicalCell(s, t.prod, HEADER_SIZE, [], t.size);
    PublishStep(s, Apply(s, StoreProducer(p)), p, t.size);
  }

  lemma PublishStep(s: State, r: State, p: nat, size: nat)
    requires Inv(s) && p in s.procs && s.procs[p].Stamped? && s.procs[p].size == size
    requires r == s.With(p, Published(Slot(s.producer, size, |s.recs|)))
                   .(producer := s.producer + TotalSize(size),
                     recs := s.recs + [Rec(s.producer, s.producer + TotalSize(size), size, p, Busy,
                                           ReadBytes(s.mem, s.producer + HEADER_SIZE, size))])
    ensures Inv(r)
  {
    hide Stored, Follows, LoadHeader, ReadBytes, Pack, CommittedPayloads, RoundUp8, BusyHeld, BitAnd;
    var g, h := RingOf(s), RingOf(r);
    assert ActorOk(g, p, s.procs[p]);
    AppendedRing(g, h, size, p);
    Alone(s.procs, s.locked, p);
    PublishActors(g, h, s.procs, p, r.procs[p]);
    LockDiscipline(s.procs, s.locked, p, r.procs[p], s.locked);
    HeldAppend(s.recs, s.procs, p, r.recs[|s.recs|], r.procs[p]);
    ConsumerFrame(g, h, s.cons, s.delivered);
    NotifyKept(s, r);
  }

  lemma PublishActors(g: Ring, h: Ring, procs: map<nat, Prod>, p: nat, t: Prod)
    requires g.mem != [] && h.mem != [] && ActorsOk(g, procs)
    requires forall q | q in procs && q != p :: !InCritical(procs[q])
    requires g.consumer == h.consumer && g.head == h.head && g.n == h.n
    requires |g.recs| < |h.recs| && h.recs[..|g.recs|] == g.recs
    requires t.Published? && OwnsBusy(h, p, t.slot)
    ensures ActorsOk(h, procs[p := t])
  {
    assert forall i | 0 <= i < |g.recs| :: h.recs[i] == h.recs[..|g.recs|][i];
    OutsideFrame(g, h, procs, p);
  }

  lemma HeldAppend(recs: seq<Rec>, procs: map<nat, Prod>, p: nat, rec: Rec, t: Prod)
    requires BusyHeld(recs, procs) && p in procs && BusySlot(procs[p]).None?
    requires t.Published? && t.slot.idx == |recs| && rec.owner == p
    ensures BusyHeld(recs + [rec], procs[p := t])
  {
    var recs' := recs + [rec];
    forall i | 0 <= i < |recs'| && recs'[i].status == Busy
      ensures HeldBy(procs[p := t], recs'[i].owner, i)
    {
      assert i < |recs| ==> HeldBy(procs, recs[i].owner, i);
    }
  }

  // ------------------------------------------------------------ fill, drop

  lemma WriteByteStep(s: State, p: nat, i: nat, v: byte)
    requires Inv(s) && Enabled(s, WriteByte(p, i, v))
    ensures Inv(Apply(s, WriteByte(p, i, v)))
  {
    var r := Apply(s, WriteByte(p, i, v));
    assert ActorOk(RingOf(s), p, s.procs[p]);
    FillStep(s, r, p, s.procs[p].slot, i, v);
  }

  lemma FillStep(s: State, r: State, p: nat, slot: Slot, i: nat, v: byte)
    requires Inv(s) && OwnsBusy(RingOf(s), p, slot) && i < slot.size
    requires r == s.(mem := WriteBytes(s.mem, s.Offset(slot.pos) + HEADER_SIZE + i, [v]),
                     recs := Fill(s.recs, slot.idx, i, v))
    ensures Inv(r)
  {
    hide Stored, RecShape, Follows, Exclusive, BusyHeld, ActorOk;
    hide LoadHeader, ReadBytes, TotalSize, WriteBytes, CommittedPayloads;
    var g, h := RingOf(s), RingOf(r);
    BusyIsLive(g, s.cons, p, slot);
    PhysicalCell(s, slot.pos, HEADER_SIZE + i, [v], 0);
    FilledRing(g, h, slot.idx, i, v);
    AllFrame(g, h, s.procs);
    HeldRewrite(s.recs, r.recs, s.procs);
    ConsumerFrame(g, h, s.cons, s.delivered);
    NotifyKept(s, r);
  }

  lemma HeldRewrite(recs: seq<Rec>, recs': seq<Rec>, procs: map<nat, Prod>)
    requires BusyHeld(recs, procs) && |recs'| == |recs|
    requires forall i | 0 <= i < |recs| :: Same(recs[i], recs'[i])
    ensures BusyHeld(recs', procs)
  {
    forall i | 0 <= i < |recs'| && recs'[i].status == Busy
      ensures HeldBy(procs, recs'[i].owner, i)
    {
      assert Same(recs[i], recs'[i]);
      assert HeldBy(procs, recs[i].owner, i);
    }
  }

  /** Where a producer stands after closing its record. */
  function Closed(slot: Slot, status: Status): Prod {
    if status == Discarded then Flagged(slot) else Finished(slot)
  }

  /** Closing a busy record: its header is rewritten without the busy flag. */
  lemma FinishStep(s: State, r: State, p: nat, slot: Slot, status: Status)
    requires Inv(s) && p in s.procs && BusySlot(s.procs[p]) == Some(slot) && status != Busy
    requires OwnsBusy(RingOf(s), p, slot) && !InCritical(s.procs[p])
    requires r == s.With(p, Closed(slot, status))
                   .(mem := StoreHeader(s.mem, s.Offset(slot.pos), Pack(slot.size, FlagOf(status))),
                     recs := Mark(s.recs, slot.idx, status))
    ensures Inv(r)
  {
    hide Stored, RecShape, Follows, Exclusive, BusyHeld, ActorOk;
    hide LoadHeader, ReadBytes, TotalSize, StoreHeader, Pack, CommittedPayloads;
    var g, h := RingOf(s), RingOf(r);
    BusyIsLive(g, s.cons, p, slot);
    PhysicalHeader(s, slot.pos, Pack(slot.size, FlagOf(status)));
    FinishedRing(g, h, slot.idx, status);
    FinishActors(g, h, s.procs, p, slot, status);
    LockDiscipline(s.procs, s.locked, p, Closed(slot, status), s.locked);
    HeldFinish(s.recs, s.procs, p, slot, status);
    ConsumerFrame(g, h, s.cons, s.delivered);
    FinishWakes(s, r, p, slot, status);
  }

  lemma FinishActors(g: Ring, h: Ring, procs: map<nat, Prod>, p: nat, slot: Slot, status: Status)
    requires g.mem != [] && h.mem != [] && ActorsOk(g, procs) && OwnsBusy(g, p, slot) && status != Busy
    requires h == g.(mem := h.mem, recs := Mark(g.recs, slot.idx, status))
    requires g.producer + HEADER_SIZE <= g.consumer + g.n ==>
      LoadHeader(h.mem, g.producer) == LoadHeader(g.mem, g.producer)
    ensures ActorsOk(h, procs[p := Closed(slot, status)])
  {
    OthersFrame(g, h, procs, p);
  }

  lemma FinishWakes(s: State, r: State, p: nat, slot: Slot, status: Status)
    requires Wakeup(s) && r.procs == s.procs[p := Closed(slot, status)] && !Ending(s.Actor(p))
    requires s.forced == r.forced && s.head == r.head && s.cons == r.cons && s.eventfd == r.eventfd
    requires |s.recs| == |r.recs| && forall i | 0 <= i < |s.recs| && i != slot.idx :: r.recs[i] == s.recs[i]
    ensures Wakeup(r)
  {
    assert p in r.procs && Ending(r.procs[p]) && r.procs[p].slot == slot;
    if s.head != slot.idx {
      NotifyKept(s, r);
    }
  }

  lemma HeldFinish(recs: seq<Rec>, procs: map<nat, Prod>, p: nat, slot: Slot, status: Status)
    requires BusyHeld(recs, procs) && p in procs && BusySlot(procs[p]) == Some(slot)
    requires slot.idx < |recs| && status != Busy
    ensures BusyHeld(Mark(recs, slot.idx, status), procs[p := Closed(slot, status)])
  {
    var recs' := Mark(recs, slot.idx, status);
    forall i | 0 <= i < |recs'| && recs'[i].status == Busy
      ensures HeldBy(procs[p := Closed(slot, status)], recs'[i].owner, i)
    {
      assert HeldBy(procs, recs[i].owner, i);
    }
  }

  lemma FinishSteps(s: State, a: Action)
    requires Inv(s) && Enabled(s, a) && (a.CommitStore? || a.DiscardStore?) && !s.Actor(a.p).LapsedRead?
    ensures Inv(Apply(s, a))
  {
    assert ActorOk(RingOf(s), a.p, s.procs[a.p]);
    FinishStep(s, Apply(s, a), a.p, s.procs[a.p].slot, if a.CommitStore? then Committed else Discarded);
  }

  // ------------------------------------------------------ consumer's steps

  lemma ConsumerLocalSteps(s: State, a: Action)
    requires Inv(s) && Enabled(s, a)
    requires a.ConsumeBegin? || a.ConsumeLoadProducer? || a.Wait?
    ensures Inv(Apply(s, a))
  {
    assert RingOf(Apply(s, a)) == RingOf(s);
  }

  /** What the consumer sees at its position. */
  lemma HeadHeader(s: State)
    requires Sane(s) && RingOk(RingOf(s)) && s.head < |s.recs|
    ensures var w := LoadHeader(s.mem, s.Offset(s.consumer));
      && LenOf(w) == s.recs[s.head].size
      && (HasFlag(FlagsOf(w), BUSY_FLAG) <==> s.recs[s.head].status == Busy)
      && (HasFlag(FlagsOf(w), DISCARD_FLAG) <==> s.recs[s.head].status == Discarded)
    ensures ReadBytes(s.mem, s.Offset(s.consumer) + HEADER_SIZE, s.recs[s.head].size)
         == s.recs[s.head].payload
    ensures s.consumer + RoundUp8(HEADER_SIZE + s.recs[s.head].size) == s.recs[s.head].end
  {
    hide LoadHeader, ReadBytes, Follows, Pack, LenOf, FlagsOf, HasFlag;
    var rec := s.recs[s.head];
    PhysicalHeader(s, s.consumer, 0);
    PhysicalCell(s, s.consumer, HEADER_SIZE, [], rec.size);
    assert Stored(s.mem, rec) && RecShape(rec);
    HeaderWord(rec.size, rec.status);
  }

  lemma LoadHeaderStep(s: State)
    requires Inv(s) && Enabled(s, ConsumeLoadHeader)
    ensures Inv(Apply(s, ConsumeLoadHeader))
  {
    hide Stored, RecShape, Follows, Exclusive, BusyHeld, ActorOk;
    hide ReadBytes, LoadHeader, LenOf, FlagsOf, HasFlag, RoundUp8, CommittedPayloads;
    HeadHeader(s);
    HeadSeen(s, Apply(s, ConsumeLoadHeader));
  }

  lemma HeadSeen(s: State, r: State)
    requires Inv(s) && s.cons.GotProd?
    requires var rec := s.recs[s.head];
      r == match rec.status
           case Busy => s.(cons := Empty)
           case Discarded => s.(cons := Skipping(rec.end))
           case Committed => s.(cons := Holding(s.consumer, rec.size, rec.end),
                                delivered := s.delivered + [rec.payload])
    ensures Inv(r)
  {
    hide Contents, ActorOk, Exclusive, BusyHeld, CommittedPayloads, BitAnd, NotifyPending, Follows, RecShape;
    assert RingOf(r) == RingOf(s);
    PayloadsGrow(s.recs, s.head);
  }

  lemma PayloadsGrow(recs: seq<Rec>, i: nat)
    requires i < |recs|
    ensures CommittedPayloads(recs[..i + 1])
         == CommittedPayloads(recs[..i]) + (if recs[i].status == Committed then [recs[i].payload] else [])
  {
    assert recs[..i + 1][..i] == recs[..i];
  }

  lemma RetireStep(s: State, a: Action)
    requires Inv(s) && Enabled(s, a)
    requires a.ConsumeSkip? || a.DropRecord?
    ensures Inv(Apply(s, a))
  {
    hide Stored, RecShape, Follows, Exclusive, BusyHeld, ActorOk;
    hide LoadHeader, ReadBytes, TotalSize, BitAnd, CommittedPayloads, NotifyPending;
    var r := Apply(s, a);
    var g, h := RingOf(s), RingOf(r);
    PayloadsGrow(s.recs, s.head);
    AdvancedRing(g, h);
    AllFrame(g, h, s.procs);
  }

  lemma DropCheckStep(s: State, p: nat)
    requires Sane(s) && Inv(s) && Enabled(s, DropCheck(p))
    ensures Inv(Apply(s, DropCheck(p)))
  {
    hide Inv, Apply;
    if s.Actor(p).Flagged? {
      RecheckStep(s, p);
    } else {
      DropSteps(s, DropCheck(p));
    }
  }

  lemma DiscardSteps(s: State, a: Action)
    requires Inv(s) && Enabled(s, a) && (a.DiscardLoad? || a.DiscardStore?)
    ensures Inv(Apply(s, a))
  {
    hide Inv, Apply;
    if a.DiscardLoad? {
      DropSteps(s, a);
    } else {
      FinishSteps(s, a);
    }
  }

  lemma CommitLoadStep(s: State, p: nat)
    requires Sane(s) && Inv(s) && Enabled(s, CommitLoad(p))
    ensures Inv(Apply(s, CommitLoad(p)))
  {
    hide Inv, Apply;
    if s.Actor(p).Lapsed? {
      LapsedLoad(s, p);
    } else {
      DropSteps(s, CommitLoad(p));
    }
  }

  lemma CommitStoreStep(s: State, p: nat)
    requires Sane(s) && Inv(s) && Enabled(s, CommitStore(p))
    ensures Inv(Apply(s, CommitStore(p))) <==> Calm(s, CommitStore(p))
  {
    hide Inv, Apply, Spares;
    if s.Actor(p).LapsedRead? {
      LapsedStore(s, p);
    } else {
      FinishSteps(s, CommitStore(p));
    }
  }

  /** Every access of every producer and of the consumer keeps the invariant,
      provided that a drop which has missed its flag changes no byte in use. */
  lemma StepKeepsInv(s: State, a: Action)
    requires Sane(s) && Inv(s) && Enabled(s, a) && Calm(s, a)
    ensures Inv(Apply(s, a))
  {
    hide Inv, Enabled, Apply, Calm;
    match a {
      case WriteHeader(p) => WriteHeaderStep(s, p);
      case StoreProducer(p) => StoreProducerStep(s, p);
      case WriteByte(p, i, v) => WriteByteStep(s, p, i, v);
      case DropCheck(p) => DropCheckStep(s, p);
      case CommitLoad(p) => CommitLoadStep(s, p);
      case DiscardLoad(p) => DiscardSteps(s, a);
      case CommitStore(p) => CommitStoreStep(s, p);
      case DiscardStore(p) => DiscardSteps(s, a);
      case Notify(p) => NotifyStep(s, p);
      case ConsumeLoadHeader => LoadHeaderStep(s);
      case ConsumeSkip => RetireStep(s, a);
      case DropRecord => RetireStep(s, a);
      case ConsumeBegin => ConsumerLocalSteps(s, a);
      case ConsumeLoadProducer => ConsumerLocalSteps(s, a);
      case Wait => ConsumerLocalSteps(s, a);
      case LoadProducer(p) => InsideSteps(s, a);
      case Release(p) => InsideSteps(s, a);
      case _ => EnterSteps(s, a);
    }
  }

  /** That proviso is exact. */
  lemma StepKeepsInvIff(s: State, a: Action)
    requires Sane(s) && Inv(s) && Enabled(s, a)
    ensures Inv(Apply(s, a)) <==> Calm(s, a)
  {
    hide Inv, Apply, Spares;
    if a.CommitStore? {
      CommitStoreStep(s, a.p);
    } else {
      StepKeepsInv(s, a);
    }
  }
}
