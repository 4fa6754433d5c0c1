/** Discarding a reservation takes two looks at its header: one that sets the
    flag, one when the buffer is dropped. Between the two the record may be
    consumed and its place given to somebody else; then the drop commits a
    record that is not its own. */
module RingDiscard {
  import opened Wrappers
  import opened Words
  import opened RingMemory
  import opened RingMachine
  import opened RingInvariant
  import opened RingStray
  import opened RingSteps
  import opened RingTheorems

  // -------------------------------------------------------- reachable states

  lemma ExecThen(s: State, acts: seq<Action>, a: Action)
    requires Sane(s) && Exec(s, acts).Some?
    requires var r := Exec(s, acts).value; Enabled(r, a) && Calm(r, a)
    ensures Exec(s, acts + [a]) == Some(Apply(Exec(s, acts).value, a))
  {
    hide Enabled, Calm, Apply;
    ExecConcat(s, acts, [a]);
    var r := Exec(s, acts).value;
    assert Exec(Apply(r, a), [a][1..]) == Some(Apply(r, a));
  }

  lemma ReachableThen(s: State, a: Action)
    requires Sane(s) && Reachable(s) && Enabled(s, a) && Calm(s, a)
    ensures Reachable(Apply(s, a))
  {
    hide Enabled, Calm, Apply;
    var s0, acts :| Start(s0) && Exec(s0, acts) == Some(s);
    ExecThen(s0, acts, a);
  }

  lemma ReachableSane(s: State)
    requires Reachable(s)
    ensures Sane(s) && Inv(s)
  {
    ReachableInv(s);
  }

  // ----------------------------------------------------- all interleavings

  predicate AlwaysInv(s: State, acts: seq<Action>)
    requires Sane(s) && Wild(s, acts).Some?
    decreases |acts|
  {
    Inv(s) && (acts == [] || AlwaysInv(Apply(s, acts[0]), acts[1..]))
  }

  /** Of all interleavings, the invariant holds throughout exactly those in which
      no drop that has missed its flag changes a byte in use. */
  lemma {:induction false} RunKeepsInvIff(s: State, acts: seq<Action>)
    requires Sane(s) && Inv(s) && Wild(s, acts).Some?
    ensures AlwaysInv(s, acts) <==> Exec(s, acts).Some?
    ensures Exec(s, acts).Some? ==> Exec(s, acts) == Wild(s, acts)
    decreases |acts|
  {
    hide Inv, Enabled, Calm, Apply;
    if acts != [] {
      StepKeepsInvIff(s, acts[0]);
      if Calm(s, acts[0]) {
        RunKeepsInvIff(Apply(s, acts[0]), acts[1..]);
      }
    }
  }

  // --------------------------------------------- callers who are always safe

  predicate NoneLapsed(procs: map<nat, Prod>) {
    forall p | p in procs :: !procs[p].Lapsed? && !procs[p].LapsedRead?
  }

  /** Each discarded record is dropped before it is consumed. */
  predicate Prompt(s: State, acts: seq<Action>)
    requires Sane(s) && Wild(s, acts).Some?
    decreases |acts|
  {
    acts == [] ||
    (&& (acts[0].DropCheck? && s.Actor(acts[0].p).Flagged? ==> s.head <= s.Actor(acts[0].p).slot.idx)
     && Prompt(Apply(s, acts[0]), acts[1..]))
  }

  lemma PromptStep(s: State, a: Action)
    requires Sane(s) && Inv(s) && NoneLapsed(s.procs) && Enabled(s, a)
    requires a.DropCheck? && s.Actor(a.p).Flagged? ==> s.head <= s.Actor(a.p).slot.idx
    ensures Calm(s, a) && NoneLapsed(Apply(s, a).procs)
  {
    hide Inv;
    if a.DropCheck? && s.Actor(a.p).Flagged? {
      LiveKeepsFlag(s, a.p);
    }
  }

  /** An interleaving in which every discarded record is dropped before it is
      consumed is calm. */
  lemma {:induction false} PromptIsCalm(s: State, acts: seq<Action>)
    requires Sane(s) && Inv(s) && NoneLapsed(s.procs) && Wild(s, acts).Some? && Prompt(s, acts)
    ensures Exec(s, acts) == Wild(s, acts)
    decreases |acts|
  {
    hide Inv, Enabled, Calm, Apply, NoneLapsed;
    if acts != [] {
      PromptStep(s, acts[0]);
      StepKeepsInv(s, acts[0]);
      PromptIsCalm(Apply(s, acts[0]), acts[1..]);
    }
  }

  predicate NoneDiscards(procs: map<nat, Prod>) {
    forall p | p in procs :: !procs[p].DiscardRead? && !procs[p].Flagged?
  }

  lemma {:induction false} CommitsArePrompt(s: State, acts: seq<Action>)
    requires Sane(s) && NoneDiscards(s.procs) && Wild(s, acts).Some?
    requires forall i | 0 <= i < |acts| :: !acts[i].DiscardLoad?
    ensures Prompt(s, acts)
    decreases |acts|
  {
    hide Apply, Enabled;
    if acts != [] {
      CommitStepDiscardsNone(s, acts[0]);
      CommitsArePrompt(Apply(s, acts[0]), acts[1..]);
    }
  }

  lemma CommitStepDiscardsNone(s: State, a: Action)
    requires Sane(s) && NoneDiscards(s.procs) && Enabled(s, a) && !a.DiscardLoad?
    ensures NoneDiscards(Apply(s, a).procs)
  {
  }

  /** So is every interleaving of producers that never discard, as the agent's do
      not: whatever they do, the state is reachable by calm steps, and what holds
      of those holds of it. */
  lemma CommitOnlyRuns(s: State, acts: seq<Action>)
    requires Start(s) && Wild(s, acts).Some? && forall i | 0 <= i < |acts| :: !acts[i].DiscardLoad?
    ensures Exec(s, acts) == Wild(s, acts) && Reachable(Wild(s, acts).value)
    ensures FifoRun(Abs(s), Ops(s, acts), Abs(Wild(s, acts).value))
  {
    hide Inv, Abs, Ops, FifoRun;
    InitInv(s);
    CommitsArePrompt(s, acts);
    PromptIsCalm(s, acts);
    RunRefinesFifo(s, acts);
  }

  // ------------------------------------------- what follows a missing flag

  /** A discarded buffer is about to be dropped and its flag is gone. */
  predicate Missed(s: State, p: nat)
    requires Sane(s)
  {
    && s.Actor(p).Flagged?
    && !HasFlag(FlagsOf(LoadHeader(s.mem, s.Offset(s.Actor(p).slot.pos))), DISCARD_FLAG)
  }

  /** Then, after its next two steps, it is about to store a committed word. */
  function Lapse(s: State, p: nat): (r: State)
    requires Sane(s) && Missed(s, p)
    ensures Sane(r)
  {
    var slot := s.Actor(p).slot;
    s.With(p, LapsedRead(slot, LenOf(LoadHeader(s.mem, s.Offset(slot.pos)))))
  }

  lemma LapseSteps(s: State, p: nat)
    requires Sane(s) && Missed(s, p)
    ensures Exec(s, [DropCheck(p), CommitLoad(p)]) == Some(Lapse(s, p))
    ensures Enabled(Lapse(s, p), CommitStore(p))
  {
    hide LoadHeader, LenOf, FlagsOf, HasFlag, BitAnd, Spares;
    var acts, slot := [DropCheck(p), CommitLoad(p)], s.Actor(p).slot;
    var a := s.With(p, Lapsed(slot));
    assert Apply(s, acts[0]) == a;
    assert Apply(a, acts[1]).procs == Lapse(s, p).procs;
    assert acts[1..][1..] == [];
    assert Exec(a, acts[1..]) == Some(Lapse(s, p));
  }

  /** The store that follows harms nobody if and only if no flag byte it clears
      is in use: not part of the header or payload of a live record, nor of a
      header being written. */
  lemma DropHarmsIff(s: State, p: nat)
    requires Sane(s) && Inv(s) && Missed(s, p)
    ensures Calm(Lapse(s, p), CommitStore(p))
       <==> forall x | InUse(s, x) && FlagByte(s.N(), s.Actor(p).slot.pos, x) :: Cell(s.mem, x) == 0
  {
    hide Inv, LoadHeader, StoreHeader, LenOf, FlagsOf, HasFlag, BitAnd, FlagByte, Cell, Pack;
    var pos := s.Actor(p).slot.pos;
    RingBytes(s);
    PhysicalHeader(s, pos, Pack(LenOf(LoadHeader(s.mem, pos)), 0));
    ClearedSparesIff(Lapse(s, p), pos);
    LapseUse(s, p);
  }

  lemma RingBytes(s: State)
    requires Inv(s)
    ensures |s.mem| == s.N() >= HEADER_SIZE
  {
    RingSize(s.k);
  }

  lemma LapseUse(s: State, p: nat)
    requires Sane(s) && Missed(s, p)
    ensures forall x :: InUse(Lapse(s, p), x) <==> InUse(s, x)
  {
    var u := Lapse(s, p);
    assert Stamping(u.procs) <==> Stamping(s.procs) by {
      if q :| q in s.procs && s.procs[q].Stamped? {
        assert q in u.procs && u.procs[q].Stamped?;
      }
    }
    forall x ensures InUse(u, x) <==> InUse(s, x) {
    }
  }

  /** If a live record now begins where the discarded one began, it is harmed if
      and only if it is not committed. */
  lemma DropOverHeaderIff(s: State, p: nat, i: nat)
    requires Sane(s) && Inv(s) && Missed(s, p) && s.head <= i < |s.recs|
    requires s.Offset(s.recs[i].start) == s.Offset(s.Actor(p).slot.pos)
    ensures Calm(Lapse(s, p), CommitStore(p)) <==> s.recs[i].status == Committed
  {
    hide Inv, LoadHeader, StoreHeader, FlagsOf, HasFlag, BitAnd, Spares, Pack, LenOf, Apply;
    LapseSteps(s, p);
    HeaderThere(s, i);
    var a, rec := s.Offset(s.recs[i].start), s.recs[i];
    var m := StoreHeader(s.mem, a, Pack(rec.size, 0));
    if rec.status == Committed {
      SameWord(s.mem, a, rec.size);
      SparesItself(Lapse(s, p));
    } else {
      HeaderRoundTrip(s.mem, a, rec.size, 0);
      OtherWord(rec.size, rec.status);
      if Spares(Lapse(s, p), m) {
        HeaderSpared(s, Lapse(s, p), i, m);
      }
    }
  }

  lemma OtherWord(len: nat, status: Status)
    requires status != Committed
    ensures Pack(len, FlagOf(status)) != Pack(len, 0)
  {
  }

  lemma HeaderThere(s: State, i: nat)
    requires Sane(s) && Inv(s) && s.head <= i < |s.recs|
    ensures |s.mem| >= HEADER_SIZE && s.recs[i].size < WORD32
    ensures LoadHeader(s.mem, s.Offset(s.recs[i].start)) == Pack(s.recs[i].size, FlagOf(s.recs[i].status))
    ensures LenOf(LoadHeader(s.mem, s.Offset(s.recs[i].start))) == s.recs[i].size
  {
    hide LoadHeader, Follows, Exclusive, BusyHeld, CommittedPayloads, ActorOk, Pack, BitAnd, LenOf;
    RingBytes(s);
    PhysicalHeader(s, s.recs[i].start, 0);
    assert Stored(s.mem, s.recs[i]) && RecShape(s.recs[i]);
    HeaderWord(s.recs[i].size, s.recs[i].status);
  }

  lemma SameWord(mem: seq<byte>, a: nat, len: nat)
    requires |mem| >= HEADER_SIZE && LoadHeader(mem, a) == Pack(len, 0)
    ensures StoreHeader(mem, a, Pack(len, 0)) == mem
  {
    hide LittleEndian, FromLittleEndian, Pack, ReadBytes, WriteBytes;
    var bs := ReadBytes(mem, a, HEADER_SIZE);
    BytesRoundTrip(bs);
    WriteSame(mem, a, HEADER_SIZE);
  }

  lemma SparesItself(s: State)
    requires s.mem != []
    ensures Spares(s, s.mem)
  {
  }

  lemma HeaderSpared(s: State, u: State, i: nat, m: seq<byte>)
    requires Sane(s) && s.head <= i < |s.recs| && |m| == |s.mem| >= HEADER_SIZE
    requires u == s.(procs := u.procs) && Spares(u, m)
    ensures LoadHeader(m, s.Offset(s.recs[i].start)) == LoadHeader(s.mem, s.Offset(s.recs[i].start))
  {
    hide LoadHeader, Cell, BitAnd;
    var a := s.recs[i].start;
    forall x | a <= x < a + HEADER_SIZE ensures Cell(m, x) == Cell(s.mem, x) {
      assert InRecord(u.recs[i], x) && InUse(u, x);
    }
    HeaderIff(s.mem, m, a);
    PhysicalHeader(s, a, 0);
    PhysicalHeader(s.(mem := m), a, 0);
  }

  // ---------------------------------------------------- the worst that follows

  /** The steps of a drop that does not find its flag, and the consumer's next
      look at the record there. */
  function Overwrites(p: nat): seq<Action> {
    [DropCheck(p), CommitLoad(p), CommitStore(p), ConsumeLoadHeader]
  }

  /** Somebody else's unfinished record in the discarded record's place: the
      drop does not find its flag, commits that record, and the consumer hands
      it out although its producer is still writing it. */
  lemma RecycledIsDelivered(s: State, p: nat)
    requires Sane(s) && Inv(s) && s.Actor(p).Flagged? && s.cons.GotProd?
    requires s.head < |s.recs| && s.recs[s.head].status == Busy
    requires s.Offset(s.consumer) == s.Offset(s.Actor(p).slot.pos)
    ensures Missed(s, p) && !Calm(Lapse(s, p), CommitStore(p))
    ensures Wild(s, Overwrites(p)).Some?
    ensures var r := Wild(s, Overwrites(p)).value;
      && r.cons.Holding? && r.head == s.head < |r.recs| && r.recs[r.head] == s.recs[s.head]
      && r.delivered == s.delivered + [s.recs[s.head].payload]
  {
    hide Inv, Apply, Enabled, LoadHeader, StoreHeader, ReadBytes, LenOf, FlagsOf, HasFlag, BitAnd, Pack, Calm;
    BusyHead(s, p);
    var rec := s.recs[s.head];
    var r := s.With(p, Finished(s.Actor(p).slot))
              .(mem := StoreHeader(s.mem, s.Offset(s.consumer), Pack(rec.size, 0)));
    Recommitted(s, r, p, rec.size);
    HandedOut(r, rec.size);
    DropOverHeaderIff(s, p, s.head);
  }

  /** Without its flag the drop stores a committed word over what is there. */
  lemma Recommitted(s: State, r: State, p: nat, len: nat)
    requires Sane(s) && Missed(s, p) && s.cons.GotProd?
    requires var slot := s.Actor(p).slot;
      && LenOf(LoadHeader(s.mem, s.Offset(slot.pos))) == len
      && r == s.With(p, Finished(slot)).(mem := StoreHeader(s.mem, s.Offset(slot.pos), Pack(len, 0)))
    ensures Enabled(r, ConsumeLoadHeader) && Sane(r)
    ensures Wild(s, Overwrites(p)) == Some(Apply(r, ConsumeLoadHeader))
  {
    hide Enabled, Apply, LoadHeader, StoreHeader, LenOf, FlagsOf, HasFlag, BitAnd, Pack;
    var acts, slot := Overwrites(p), s.Actor(p).slot;
    var a, b := s.With(p, Lapsed(slot)), s.With(p, LapsedRead(slot, len));
    Unflagged(s, p);
    Reread(a, p, b);
    Overwrite(b, p, r);
    StillLooking(r);
    WildStep(s, acts, a);
    WildStep(a, acts[1..], b);
    WildStep(b, acts[1..][1..], r);
    WildStep(r, acts[1..][1..][1..], Apply(r, ConsumeLoadHeader));
  }

  lemma Unflagged(s: State, p: nat)
    requires Sane(s) && Missed(s, p)
    ensures Enabled(s, DropCheck(p)) && Apply(s, DropCheck(p)) == s.With(p, Lapsed(s.Actor(p).slot))
  {
  }

  lemma Reread(s: State, p: nat, r: State)
    requires Sane(s) && s.Actor(p).Lapsed?
    requires var slot := s.Actor(p).slot;
      r.procs == s.procs[p := LapsedRead(slot, LenOf(LoadHeader(s.mem, s.Offset(slot.pos))))]
    requires r == s.(procs := r.procs)
    ensures Enabled(s, CommitLoad(p)) && Apply(s, CommitLoad(p)) == r
  {
  }

  lemma Overwrite(s: State, p: nat, r: State)
    requires Sane(s) && s.Actor(p).LapsedRead?
    requires var slot := s.Actor(p).slot;
      && r.procs == s.procs[p := Finished(slot)]
      && r == s.(procs := r.procs, mem := StoreHeader(s.mem, s.Offset(slot.pos), Pack(s.Actor(p).len, 0)))
    ensures Enabled(s, CommitStore(p)) && Apply(s, CommitStore(p)) == r
  {
  }

  lemma StillLooking(s: State)
    requires s.cons.GotProd?
    ensures Enabled(s, ConsumeLoadHeader)
  {
  }

  lemma WildStep(s: State, acts: seq<Action>, r: State)
    requires Sane(s) && acts != [] && Enabled(s, acts[0]) && r == Apply(s, acts[0])
    ensures Wild(s, acts) == Wild(r, acts[1..])
    ensures |acts| == 1 ==> Wild(s, acts) == Some(r)
  {
    hide Enabled, Apply;
  }

  lemma HandedOut(s: State, len: nat)
    requires Sane(s) && s.cons.GotProd? && LoadHeader(s.mem, s.Offset(s.cons.pos)) == Pack(len, 0) && len < WORD32
    ensures var r := Apply(s, ConsumeLoadHeader);
      && r.cons.Holding? && r.head == s.head && r.recs == s.recs
      && r.delivered == s.delivered + [ReadBytes(s.mem, s.Offset(s.cons.pos) + HEADER_SIZE, len)]
  {
    hide ReadBytes, LoadHeader, BitAnd, Pack;
    HeaderWord(len, Committed);
  }

  /** What the drop finds, and what the memory is after it stored its word. */
  lemma BusyHead(s: State, p: nat)
    requires Sane(s) && Inv(s) && s.Actor(p).Flagged? && s.cons.GotProd?
    requires s.head < |s.recs| && s.recs[s.head].status == Busy
    ensures s.cons.pos == s.consumer == s.recs[s.head].start && s.Actor(p).slot.idx != s.head
    ensures var rec, at := s.recs[s.head], s.Offset(s.consumer);
      && rec.size < WORD32
      && LenOf(LoadHeader(s.mem, at)) == rec.size
      && !HasFlag(FlagsOf(LoadHeader(s.mem, at)), DISCARD_FLAG)
      && var mem := StoreHeader(s.mem, at, Pack(rec.size, 0));
         LoadHeader(mem, at) == Pack(rec.size, 0) && ReadBytes(mem, at + HEADER_SIZE, rec.size) == rec.payload
  {
    hide LoadHeader, ReadBytes, Follows, Pack, LenOf, FlagsOf, HasFlag, Exclusive, BusyHeld, CommittedPayloads, BitAnd;
    var rec, at := s.recs[s.head], s.Offset(s.consumer);
    assert ActorOk(RingOf(s), p, s.procs[p]);
    assert RecShape(rec);
    HeadHeader(s);
    HeaderRoundTrip(s.mem, at, rec.size, 0);
    ReadElsewhere(s.mem, at, LittleEndian(Pack(rec.size, 0), HEADER_SIZE), at + HEADER_SIZE, rec.size);
  }

  // ------------------------------------------------- and it does happen

  /** Reserving in an empty ring. */
  lemma ReserveSome(s: State, p: nat, size: nat) returns (r: State)
    requires Reachable(s) && !s.locked && s.Actor(p).Idle? && s.consumer == s.producer
    requires TotalSize(size) <= s.N() - 1
    ensures Reachable(r)
    ensures r == s.(mem := r.mem, producer := s.producer + TotalSize(size), recs := r.recs,
                    procs := s.procs[p := Filling(Slot(s.producer, size, |s.recs|))])
    ensures r.recs == s.recs + [NewRec(s, p, size, r.recs)]
  {
    hide Reachable, TotalSize;
    var a := TakeLock(s, p, size);
    var b := Stamp(a, p, size);
    r := PublishIt(b, p, size);
    assert r.procs == s.procs[p := Filling(Slot(s.producer, size, |s.recs|))];
  }

  /** The new record of a reservation; its bytes are what the memory held. */
  function NewRec(s: State, p: nat, size: nat, recs: seq<Rec>): Rec {
    Rec(s.producer, s.producer + TotalSize(size), size, p, Busy,
        if |s.recs| < |recs| then recs[|s.recs|].payload else [])
  }

  lemma Stamp(s: State, p: nat, size: nat) returns (r: State)
    requires Reachable(s) && s.Actor(p) == InLock(size, s.producer) && TotalSize(size) <= s.N() - 1
    ensures Reachable(r)
    ensures r == s.With(p, Stamped(size, s.producer, s.producer)).(mem := r.mem)
  {
    hide Reachable, Inv, BitAnd, StoreHeader, Pack, TotalSize;
    ReachableSane(s);
    r := Take(s, LoadProducer(p));
    r := Take(r, WriteHeader(p));
    assert r.procs == s.procs[p := Stamped(size, s.producer, s.producer)];
  }

  lemma PublishIt(s: State, p: nat, size: nat) returns (r: State)
    requires Reachable(s) && s.Actor(p) == Stamped(size, s.producer, s.producer)
    ensures Reachable(r)
    ensures r == s.With(p, Filling(Slot(s.producer, size, |s.recs|)))
                  .(locked := false, producer := s.producer + TotalSize(size), recs := r.recs)
    ensures r.recs == s.recs + [NewRec(s, p, size, r.recs)]
  {
    hide Reachable, Inv, BitAnd, Apply, TotalSize;
    ReachableSane(s);
    r := Take(s, StoreProducer(p));
    RecordAdded(s, p, size);
    ReachableSane(r);
    var u := r;
    r := Take(u, Release(p));
    Released(u, p);
    assert r.procs == s.procs[p := Filling(Slot(s.producer, size, |s.recs|))];
  }

  lemma RecordAdded(s: State, p: nat, size: nat)
    requires Sane(s) && s.Actor(p) == Stamped(size, s.producer, s.producer)
    ensures var r := Apply(s, StoreProducer(p));
      && r == s.With(p, Published(Slot(s.producer, size, |s.recs|)))
               .(producer := s.producer + TotalSize(size), recs := r.recs)
      && r.recs == s.recs + [NewRec(s, p, size, r.recs)]
  {
    hide TotalSize, ReadBytes, BitAnd;
  }

  lemma Released(s: State, p: nat)
    requires Sane(s) && s.Actor(p).Published?
    ensures Apply(s, Release(p)) == s.With(p, Filling(s.Actor(p).slot)).(locked := false)
  {
  }

  lemma Take(s: State, a: Action) returns (r: State)
    requires Sane(s) && Reachable(s) && Enabled(s, a) && !a.CommitStore?
    ensures r == Apply(s, a) && Reachable(r)
  {
    hide Enabled, Apply, Reachable;
    ReachableThen(s, a);
    r := Apply(s, a);
  }

  lemma TakeLock(s: State, p: nat, size: nat) returns (r: State)
    requires Reachable(s) && !s.locked && s.Actor(p).Idle?
    ensures Reachable(r) && r == s.With(p, InLock(size, s.consumer)).(locked := true)
  {
    hide Reachable, Inv;
    ReachableSane(s);
    r := Take(s, LoadConsumer(p, size));
    r := Take(r, Acquire(p));
    assert r.procs == s.procs[p := InLock(size, s.consumer)];
  }

  /** Discarding it, up to but not including the second look. */
  lemma DiscardIt(s: State, p: nat) returns (r: State)
    requires Reachable(s) && s.Actor(p).Filling? && s.Actor(p).slot.idx < |s.recs|
    ensures Reachable(r)
    ensures r == s.(mem := r.mem, recs := Mark(s.recs, s.Actor(p).slot.idx, Discarded),
                    procs := s.procs[p := Flagged(s.Actor(p).slot)])
  {
    hide Reachable, Inv, LoadHeader, StoreHeader, BitAnd, Pack, LenOf;
    ReachableSane(s);
    r := Take(s, DiscardLoad(p));
    r := Take(r, DiscardStore(p));
  }

  /** The consumer reads both positions of a ring that is not empty. */
  lemma Look(s: State) returns (r: State)
    requires Reachable(s) && s.cons.Ready? && s.consumer < s.producer
    ensures Reachable(r) && r == s.(cons := GotProd(s.consumer))
  {
    hide Reachable, Inv;
    ReachableSane(s);
    r := Take(s, ConsumeBegin);
    r := Take(r, ConsumeLoadProducer);
  }

  /** The consumer skips a discarded record. */
  lemma SkipIt(s: State) returns (r: State)
    requires Reachable(s) && s.cons.Ready? && s.head < |s.recs| && s.consumer < s.producer
    requires s.recs[s.head].status == Discarded
    ensures Reachable(r)
    ensures r == s.(consumer := s.recs[s.head].end, head := s.head + 1)
  {
    hide Reachable, LoadHeader, ReadBytes, LenOf, FlagsOf, HasFlag, BitAnd, RoundUp8, Inv;
    r := Look(s);
    ReachableSane(r);
    SkipFound(r);
    r := Take(r, ConsumeLoadHeader);
    r := Take(r, ConsumeSkip);
  }

  lemma SkipFound(s: State)
    requires Sane(s) && Inv(s) && s.cons.GotProd? && s.head < |s.recs| && s.recs[s.head].status == Discarded
    ensures Apply(s, ConsumeLoadHeader) == s.(cons := Skipping(s.recs[s.head].end))
  {
    hide LoadHeader, ReadBytes, LenOf, FlagsOf, HasFlag, BitAnd, Follows, Exclusive, BusyHeld, ActorOk;
    HeadHeader(s);
  }

  /** A record reserved, discarded and skipped: the ring is empty again, one
      record further, and the producer has not looked a second time. */
  lemma DiscardRound(s: State, p: nat, size: nat) returns (r: State)
    requires Reachable(s) && !s.locked && s.Actor(p).Idle? && s.cons.Ready?
    requires s.consumer == s.producer && s.head == |s.recs| && TotalSize(size) <= s.N() - 1
    ensures Reachable(r) && r.k == s.k && !r.locked && r.cons.Ready?
    ensures r.consumer == r.producer == s.producer + TotalSize(size) && r.head == |r.recs| == |s.recs| + 1
    ensures r.procs == s.procs[p := Flagged(Slot(s.producer, size, |s.recs|))] && r.delivered == s.delivered
  {
    hide Reachable;
    var a := ReserveSome(s, p, size);
    var b := DiscardIt(a, p);
    r := SkipIt(b);
    assert r.procs == s.procs[p := Flagged(Slot(s.producer, size, |s.recs|))];
  }

  /** In a ring of any size from 16 bytes up, so of every size that is accepted: the
      first reservation takes no bytes and discards, the second takes all but 16
      and discards, the third, of any size, comes to lie in the first one's place
      and is still being written when the first drops its buffer; the consumer
      then hands out the third record. */
  lemma RecycledExample(k: nat, mem: seq<byte>, size: nat) returns (s: State)
    requires 4 <= k <= 32 && |mem| == Pow2(k) && TotalSize(size) < Pow2(k)
    ensures Reachable(s) && Sane(s) && s.k == k && s.Actor(0).Flagged? && s.Actor(2).Filling?
    ensures Missed(s, 0) && !Calm(Lapse(s, 0), CommitStore(0)) && Wild(s, Overwrites(0)).Some?
    ensures var r := Wild(s, Overwrites(0)).value;
      && r.cons.Holding? && r.head < |r.recs| && r.recs[r.head].status == Busy
      && r.recs[r.head].owner == 2 && r.recs[r.head].size == size
      && r.delivered == [r.recs[r.head].payload]
  {
    hide Reachable, Inv, Wild, Calm, Pow2, TotalSize, Missed;
    Sizes(k);
    AlignedTotal(0);
    AlignedTotal(size);
    var s0 := Init(k, true, mem);
    StartReachable(s0);
    var a := DiscardRound(s0, 0, 0);
    var b := DiscardRound(a, 1, Pow2(k) - 16);
    var c := ReserveSome(b, 2, size);
    s := Look(c);
    ReachableSane(s);
    SameOffset(s);
    RecycledIsDelivered(s, 0);
  }

  lemma Sizes(k: nat)
    requires 4 <= k <= 32
    ensures 16 <= Pow2(k) && TotalSize(Pow2(k) - 16) == Pow2(k) - 8
  {
    hide Pow2;
    RingSize(k);
    Pow2Monotone(4, k);
    Sixteen();
    AlignedTotal(Pow2(k) - 16);
  }

  lemma Sixteen()
    ensures Pow2(4) == 16
  {
  }

  lemma AlignedTotal(size: nat)
    ensures TotalSize(size) >= 8 && (size % 8 == 0 ==> TotalSize(size) == size + 8)
  {
  }

  lemma StartReachable(s: State)
    requires 3 <= s.k <= 32 && |s.mem| == Pow2(s.k) && s == Init(s.k, true, s.mem)
    ensures Reachable(s)
  {
    assert Start(s) && Exec(s, []) == Some(s);
  }

  lemma SameOffset(s: State)
    requires s.k <= 32
    ensures s.Offset(s.N()) == s.Offset(0)
  {
    MaskIsRemainder(s.N(), s.k);
    MaskIsRemainder(0, s.k);
    RemainderUnique(s.N(), s.N(), 1, 0);
  }
}
