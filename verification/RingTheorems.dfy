/** What holds of every interleaving of producers and consumer. */
module RingTheorems {
  import opened Wrappers
  import opened Words
  import opened RingMemory
  import opened RingMachine
  import opened RingInvariant
  import opened RingSteps

  // -------------------------------------------------------------- all runs

  predicate Start(s: State) {
    3 <= s.k <= 32 && Sane(s) && s == Init(s.k, s.forced, s.mem)
  }

  lemma InitInv(s: State)
    requires Start(s)
    ensures Inv(s)
  {
    RingSize(s.k);
  }

  lemma {:induction false} RunKeepsInv(s: State, acts: seq<Action>)
    requires Inv(s) && Exec(s, acts).Some?
    ensures Inv(Exec(s, acts).value)
    decreases |acts|
  {
    if acts != [] {
      StepKeepsInv(s, acts[0]);
      RunKeepsInv(Apply(s, acts[0]), acts[1..]);
    }
  }

  /** One run after another is a run. */
  lemma {:induction false} ExecConcat(s: State, a: seq<Action>, b: seq<Action>)
    requires Sane(s) && Exec(s, a).Some?
    ensures Exec(s, a + b) == Exec(Exec(s, a).value, b)
    decreases |a|
  {
    hide Enabled, Calm, Apply;
    if a == [] {
      assert a + b == b;
    } else {
      ExecConcat(Apply(s, a[0]), a[1..], b);
      assert (a + b)[1..] == a[1..] + b;
    }
  }

  ghost predicate Reachable(s: State) {
    exists s0, acts :: Start(s0) && Exec(s0, acts) == Some(s)
  }

  lemma ReachableInv(s: State)
    requires Reachable(s)
    ensures Inv(s)
  {
    var s0, acts :| Start(s0) && Exec(s0, acts) == Some(s);
    InitInv(s0);
    RunKeepsInv(s0, acts);
  }

  // ---------------------------------------------------------------- space

  /** The window between consumer and producer never fills a whole turn, even
      though the space check used a consumer position read before the lock;
      and that check never subtracts a larger number from a smaller one. */
  lemma WindowBounded(s: State)
    requires Reachable(s)
    ensures s.consumer <= s.producer && s.producer - s.consumer < s.N()
    ensures forall p | p in s.procs && (s.procs[p].Sized? || s.procs[p].InLock?) ::
      s.procs[p].cons <= s.consumer <= s.producer
  {
    ReachableInv(s);
    forall p | p in s.procs && (s.procs[p].Sized? || s.procs[p].InLock?)
      ensures s.procs[p].cons <= s.consumer
    {
      assert ActorOk(RingOf(s), p, s.procs[p]);
    }
  }

  /** Bytes of two different live records, or two different bytes of one, are
      different memory cells. */
  lemma LiveCellsDisjoint(s: State, i: nat, j: nat, x: nat, y: nat)
    requires Reachable(s)
    requires s.head <= i <= j < |s.recs|
    requires s.recs[i].start <= x < s.recs[i].end && s.recs[j].start <= y < s.recs[j].end && x != y
    ensures s.Offset(x) != s.Offset(y)
  {
    ReachableInv(s);
    LiveAfterConsumer(RingOf(s));
    PhysicalCell(s, x, 0, [], 0);
    PhysicalCell(s, y, 0, [], 0);
    DistinctRemainders(if x < y then x else y, if x < y then y else x, s.N());
  }

  /** Every live record is contiguous in the mirrored view, and its header does
      not straddle the end of the data area. */
  lemma RecordsContiguous(s: State, i: nat)
    requires Reachable(s) && s.head <= i < |s.recs|
    ensures s.Offset(s.recs[i].start) + (s.recs[i].end - s.recs[i].start) <= 2 * s.N()
    ensures s.Offset(s.recs[i].start) % 8 == 0
    ensures s.Offset(s.recs[i].start) + HEADER_SIZE <= s.N()
  {
    ReachableInv(s);
    LiveAfterConsumer(RingOf(s));
    var r := s.recs[i];
    PhysicalCell(s, r.start, 0, [], 0);
    StartAligned(RingOf(s), i);
    RingSize(s.k);
    AlignedRemainder(r.start, s.N());
  }

  lemma {:induction false} StartAligned(g: Ring, i: nat)
    requires Layout(g) && i < |g.recs|
    ensures g.recs[i].start % 8 == 0
  {
    hide TotalSize;
    if i > 0 {
      StartAligned(g, i - 1);
      assert Follows(i - 1, i, g.recs[i - 1], g.recs[i]);
      assert RecShape(g.recs[i - 1]);
      AlignedEnd(g.recs[i - 1].start, g.recs[i - 1].size);
    }
  }

  lemma AlignedEnd(start: nat, size: nat)
    requires start % 8 == 0
    ensures (start + TotalSize(size)) % 8 == 0
  {
  }

  lemma AlignedRemainder(x: nat, n: nat)
    requires x % 8 == 0 && n % 8 == 0 && n > 0
    ensures (x % n) % 8 == 0 && x % n + 8 <= n
  {
    var q, m := x / n, n / 8;
    assert x % n == 8 * (x / 8 - q * m) by {
      assert x == q * n + x % n && n == 8 * m && x == 8 * (x / 8);
      assert q * n == 8 * (q * m);
    }
  }

  // -------------------------------------------------------------- delivery

  /** What was handed out is exactly the committed payloads of a prefix of the
      reservations, in reservation order, none of them still busy; discarded
      reservations contribute nothing. */
  lemma DeliveredInOrder(s: State)
    requires Reachable(s)
    ensures var u := Upto(s.head, s.cons);
      && u <= |s.recs|
      && s.delivered == CommittedPayloads(s.recs[..u])
      && (forall i | 0 <= i < u :: s.recs[i].status != Busy)
    ensures s.delivered <= CommittedPayloads(s.recs)
  {
    ReachableInv(s);
    Settled(RingOf(s), s.cons);
    PayloadsPrefix(s.recs, Upto(s.head, s.cons));
  }

  lemma Settled(g: Ring, c: Cons)
    requires g.mem != [] && Contents(g) && ConsumerOk(g, c) && Upto(g.head, c) <= |g.recs|
    ensures forall i | 0 <= i < Upto(g.head, c) :: g.recs[i].status != Busy
  {
  }

  lemma {:induction false} PayloadsPrefix(recs: seq<Rec>, u: nat)
    requires u <= |recs|
    ensures CommittedPayloads(recs[..u]) <= CommittedPayloads(recs)
    decreases |recs|
  {
    if u == |recs| {
      assert recs[..u] == recs;
    } else {
      var init := recs[..|recs| - 1];
      PayloadsPrefix(init, u);
      assert init[..u] == recs[..u];
    }
  }

  /** Log entries keep their place, size and owner for ever; once committed or
      discarded they do not change at all. */
  lemma StepExtends(s: State, a: Action)
    requires Inv(s) && Enabled(s, a)
    ensures Extends(s.recs, Apply(s, a).recs)
    ensures s.delivered <= Apply(s, a).delivered && s.head <= Apply(s, a).head
  {
    if Visible(s, a) {
      VisibleExtends(s, a);
    } else {
      Invisible(s, a);
    }
  }

  /** The steps that change a record that is not closed yet. */
  predicate Rewrites(s: State, a: Action) {
    a.WriteByte? || (a.CommitStore? && !s.Actor(a.p).LapsedRead?) || a.DiscardStore?
  }

  /** The steps that change what a user of the queue can see. */
  predicate Visible(s: State, a: Action) {
    Rewrites(s, a) || a.StoreProducer? || a.ConsumeLoadHeader? || a.ConsumeSkip? || a.DropRecord?
  }

  lemma Invisible(s: State, a: Action)
    requires Sane(s) && Enabled(s, a) && !Visible(s, a)
    ensures var r := Apply(s, a);
      r.recs == s.recs && r.head == s.head && r.delivered == s.delivered && r.cons.Holding? == s.cons.Holding?
  {
  }

  lemma VisibleExtends(s: State, a: Action)
    requires Sane(s) && Inv(s) && Enabled(s, a) && Visible(s, a)
    ensures Extends(s.recs, Apply(s, a).recs)
    ensures s.delivered <= Apply(s, a).delivered && s.head <= Apply(s, a).head
  {
    hide Inv, Apply, Extends;
    if Rewrites(s, a) {
      OwnsIt(s, a.p);
      RewriteExtends(s, a);
    } else {
      MoveExtends(s, a);
    }
  }

  lemma MoveExtends(s: State, a: Action)
    requires Sane(s) && Enabled(s, a)
    requires a.StoreProducer? || a.ConsumeLoadHeader? || a.ConsumeSkip? || a.DropRecord?
    ensures Extends(s.recs, Apply(s, a).recs)
    ensures s.delivered <= Apply(s, a).delivered && s.head <= Apply(s, a).head
  {
  }

  lemma RewriteExtends(s: State, a: Action)
    requires Sane(s) && Enabled(s, a) && Rewrites(s, a)
    requires var idx := s.Actor(a.p).slot.idx; idx < |s.recs| && s.recs[idx].status == Busy
    ensures Extends(s.recs, Apply(s, a).recs)
    ensures s.delivered == Apply(s, a).delivered && s.head == Apply(s, a).head
  {
  }

  lemma OwnsIt(s: State, p: nat)
    requires Inv(s) && BusySlot(s.Actor(p)).Some?
    ensures OwnsBusy(RingOf(s), p, BusySlot(s.Actor(p)).value)
    ensures RecShape(s.recs[BusySlot(s.Actor(p)).value.idx])
  {
    assert ActorOk(RingOf(s), p, s.procs[p]);
  }

  lemma {:induction false} RunExtends(s: State, acts: seq<Action>)
    requires Inv(s) && Exec(s, acts).Some?
    ensures Extends(s.recs, Exec(s, acts).value.recs)
    ensures s.delivered <= Exec(s, acts).value.delivered && s.head <= Exec(s, acts).value.head
    decreases |acts|
  {
    if acts != [] {
      StepKeepsInv(s, acts[0]);
      StepExtends(s, acts[0]);
      RunExtends(Apply(s, acts[0]), acts[1..]);
    }
  }

  /** The bytes the consumer's slice shows. */
  function HeldBytes(s: State): seq<byte>
    requires Sane(s) && s.cons.Holding?
  {
    ReadBytes(s.mem, s.Offset(s.cons.pos) + HEADER_SIZE, s.cons.len)
  }

  /** However the producers run, the slice of a delivered record keeps showing
      the bytes its producer committed until the record is dropped. */
  lemma HeldRecordStable(s: State, acts: seq<Action>)
    requires Reachable(s) && s.cons.Holding? && Exec(s, acts).Some?
    requires Exec(s, acts).value.cons == s.cons
    ensures HeldBytes(Exec(s, acts).value) == HeldBytes(s)
    ensures s.head < |s.recs| && |s.delivered| > 0
    ensures HeldBytes(s) == s.delivered[|s.delivered| - 1] == s.recs[s.head].payload
  {
    var r := Exec(s, acts).value;
    ReachableInv(s);
    RunKeepsInv(s, acts);
    RunExtends(s, acts);
    HeldIsHead(s);
    HeldIsHead(r);
    SamePlace(RingOf(s), RingOf(r), s.head, r.head);
  }

  lemma HeldIsHead(s: State)
    requires Inv(s) && s.cons.Holding?
    ensures s.head < |s.recs| && HeldBytes(s) == s.recs[s.head].payload
    ensures |s.delivered| > 0 && s.delivered[|s.delivered| - 1] == s.recs[s.head].payload
  {
    hide Exclusive, BusyHeld, ActorOk, Follows, LoadHeader, ReadBytes;
    hide BitAnd, LenOf, FlagsOf, HasFlag, CommittedPayloads, RoundUp8;
    HeadHeader(s);
    LastDelivered(s.recs, s.head, s.delivered);
  }

  lemma LastDelivered(recs: seq<Rec>, head: nat, delivered: seq<seq<byte>>)
    requires head < |recs| && recs[head].status == Committed
    requires delivered == CommittedPayloads(recs[..head + 1])
    ensures |delivered| > 0 && delivered[|delivered| - 1] == recs[head].payload
  {
    PayloadsGrow(recs, head);
  }

  /** Two heads at the same position are the same log entry. */
  lemma SamePlace(g: Ring, h: Ring, i: nat, j: nat)
    requires Layout(g) && Layout(h) && Extends(g.recs, h.recs)
    requires i < |g.recs| && g.recs[i].status != Busy && i <= j < |h.recs| && g.recs[i].start == h.recs[j].start
    ensures i == j
  {
    assert h.recs[i] == g.recs[i];
    assert RecShape(h.recs[i]);
    assert i < j ==> Follows(i, j, h.recs[i], h.recs[j]);
  }

  // ---------------------------------------------------------------- wakeups

  /** The next step of `p` (after its second look at the header, if it
      discarded its record) makes the eventfd readable. */
  predicate WillWake(s: State, p: nat)
    requires Sane(s)
  {
    if s.Actor(p).Flagged? then
      Notifies(Apply(s, DropCheck(p)), p)
    else
      Notifies(s, p)
  }

  predicate Notifies(s: State, p: nat)
    requires Sane(s)
  {
    Enabled(s, Notify(p)) && Enabled(Apply(s, Notify(p)), Wait)
  }

  /** With forced wakeups, a consumer whose last `consume` returned None while
      the record at its position is available finds the eventfd readable, or
      some producer has closed that very record and will still notify; that
      notification is possible at once and makes the eventfd readable. */
  lemma NoLostWakeup(s: State)
    requires Reachable(s) && s.forced && s.cons.Empty? && HeadAvailable(s.recs, s.head)
    ensures Enabled(s, Wait)
      || exists p :: WillWake(s, p)
  {
    hide Inv;
    ReachableInv(s);
    WakeupHolds(s);
    if s.eventfd == 0 {
      var p :| p in s.procs && Ending(s.procs[p]) && s.procs[p].slot.idx == s.head;
      if s.procs[p].Flagged? {
        LiveKeepsFlag(s, p);
        FlaggedWakes(s, p);
      } else {
        FinishedWakes(s, p);
      }
    }
  }

  lemma WakeupHolds(s: State)
    requires Inv(s)
    ensures Sane(s) && Wakeup(s)
  {
  }

  lemma FinishedWakes(s: State, p: nat)
    requires Sane(s) && s.forced && s.cons.Empty? && s.Actor(p).Finished?
    ensures WillWake(s, p)
  {
  }

  lemma FlaggedWakes(s: State, p: nat)
    requires Sane(s) && s.forced && s.cons.Empty? && s.Actor(p).Flagged?
    requires HasFlag(FlagsOf(LoadHeader(s.mem, s.Offset(s.Actor(p).slot.pos))), DISCARD_FLAG)
    ensures WillWake(s, p)
  {
    FinishedWakes(Apply(s, DropCheck(p)), p);
  }

  /** When the record at the consumer's position is not available, some
      producer still holds it or there is no record at all. */
  lemma BlockedOnlyOnProducer(s: State)
    requires Reachable(s) && !HeadAvailable(s.recs, s.head)
    ensures s.consumer == s.producer
      || exists p :: p in s.procs && BusySlot(s.procs[p]).Some? && BusySlot(s.procs[p]).value.idx == s.head
  {
    ReachableInv(s);
    if s.head < |s.recs| {
      assert HeldBy(s.procs, s.recs[s.head].owner, s.head);
    }
  }

  // ------------------------------------------------------------- refinement

  /** The queue the ring buffer implements. */
  datatype Entry = Entry(owner: nat, size: nat, status: Status, payload: seq<byte>)

  datatype Fifo = Fifo(entries: seq<Entry>, retired: nat, handedOut: bool, out: seq<seq<byte>>)

  datatype FifoOp =
    | Stutter
    | Reserve(owner: nat, size: nat, initial: seq<byte>)
    | Put(i: nat, at: nat, v: byte)
    | Close(i: nat, status: Status)
    | HandOut
    | Retire

  predicate FifoEnabled(f: Fifo, op: FifoOp) {
    match op
    case Stutter => true
    case Reserve(owner, size, initial) => |initial| == size
    case Put(i, at, v) =>
      i < |f.entries| && f.entries[i].status == Busy && at < |f.entries[i].payload|
    case Close(i, status) => i < |f.entries| && f.entries[i].status == Busy && status != Busy
    case HandOut =>
      !f.handedOut && f.retired < |f.entries| && f.entries[f.retired].status == Committed
    case Retire =>
      f.retired < |f.entries| && (f.handedOut || f.entries[f.retired].status == Discarded)
  }

  function FifoStep(f: Fifo, op: FifoOp): Fifo
    requires FifoEnabled(f, op)
  {
    match op
    case Stutter => f
    case Reserve(owner, size, initial) =>
      f.(entries := f.entries + [Entry(owner, size, Busy, initial)])
    case Put(i, at, v) =>
      f.(entries := f.entries[i := f.entries[i].(payload := f.entries[i].payload[at := v])])
    case Close(i, status) => f.(entries := f.entries[i := f.entries[i].(status := status)])
    case HandOut => f.(handedOut := true, out := f.out + [f.entries[f.retired].payload])
    case Retire => f.(handedOut := false, retired := f.retired + 1)
  }

  function EntryOf(r: Rec): Entry {
    Entry(r.owner, r.size, r.status, r.payload)
  }

  function Abs(s: State): Fifo {
    Fifo(seq(|s.recs|, i requires 0 <= i < |s.recs| => EntryOf(s.recs[i])), s.head, s.cons.Holding?, s.delivered)
  }

  /** The queue operation one step of the ring buffer performs. */
  function OpOf(s: State, a: Action): FifoOp
    requires Sane(s) && Enabled(s, a)
  {
    match a
    case StoreProducer(p) =>
      Reserve(p, s.Actor(p).size, ReadBytes(s.mem, s.Offset(s.Actor(p).prod) + HEADER_SIZE, s.Actor(p).size))
    case WriteByte(p, i, v) => Put(s.Actor(p).slot.idx, i, v)
    case CommitStore(p) => if s.Actor(p).LapsedRead? then Stutter else Close(s.Actor(p).slot.idx, Committed)
    case DiscardStore(p) => Close(s.Actor(p).slot.idx, Discarded)
    case ConsumeLoadHeader =>
      if s.head < |s.recs| && s.recs[s.head].status == Committed then HandOut else Stutter
    case ConsumeSkip => Retire
    case DropRecord => Retire
    case _ => Stutter
  }

  /** Every step of the ring buffer is a step of the queue: nothing but
      reserving, filling, closing, handing out and retiring ever changes what a
      user can see, and each of those acts on the queue as it says. */
  lemma StepRefinesFifo(s: State, a: Action)
    requires Sane(s) && Inv(s) && Enabled(s, a)
    ensures FifoEnabled(Abs(s), OpOf(s, a))
    ensures Abs(Apply(s, a)) == FifoStep(Abs(s), OpOf(s, a))
  {
    hide Inv, Apply, FifoStep, FifoEnabled;
    match a {
      case StoreProducer(p) => RefinesReserve(s, p);
      case WriteByte(p, i, v) => RefinesRewrite(s, a);
      case CommitStore(p) => if s.Actor(p).LapsedRead? { RefinesNothing(s, a); } else { RefinesRewrite(s, a); }
      case DiscardStore(p) => RefinesRewrite(s, a);
      case ConsumeLoadHeader => RefinesInspect(s);
      case ConsumeSkip => RefinesRetire(s, a);
      case DropRecord => RefinesRetire(s, a);
      case _ => RefinesNothing(s, a);
    }
  }

  lemma RefinesNothing(s: State, a: Action)
    requires Sane(s) && Enabled(s, a) && !Visible(s, a)
    ensures FifoEnabled(Abs(s), OpOf(s, a))
    ensures Abs(Apply(s, a)) == FifoStep(Abs(s), OpOf(s, a))
  {
    hide Apply;
    Invisible(s, a);
  }

  lemma RefinesReserve(s: State, p: nat)
    requires Sane(s) && Enabled(s, StoreProducer(p))
    ensures FifoEnabled(Abs(s), OpOf(s, StoreProducer(p)))
    ensures Abs(Apply(s, StoreProducer(p))) == FifoStep(Abs(s), OpOf(s, StoreProducer(p)))
  {
    var r := Apply(s, StoreProducer(p));
    assert Abs(r).entries == Abs(s).entries + [EntryOf(r.recs[|s.recs|])];
  }

  lemma RefinesRewrite(s: State, a: Action)
    requires Sane(s) && Inv(s) && Enabled(s, a) && Rewrites(s, a)
    ensures FifoEnabled(Abs(s), OpOf(s, a))
    ensures Abs(Apply(s, a)) == FifoStep(Abs(s), OpOf(s, a))
  {
    hide Inv, Apply, FifoStep, FifoEnabled;
    OwnsIt(s, a.p);
    if a.WriteByte? {
      RefinesPut(s, a.p, a.i, a.v);
    } else {
      RefinesClose(s, a.p, a);
    }
  }

  lemma RefinesPut(s: State, p: nat, i: nat, v: byte)
    requires Sane(s) && Enabled(s, WriteByte(p, i, v))
    requires OwnsBusy(RingOf(s), p, s.Actor(p).slot) && RecShape(s.recs[s.Actor(p).slot.idx])
    ensures FifoEnabled(Abs(s), OpOf(s, WriteByte(p, i, v)))
    ensures Abs(Apply(s, WriteByte(p, i, v))) == FifoStep(Abs(s), OpOf(s, WriteByte(p, i, v)))
  {
  }

  lemma RefinesClose(s: State, p: nat, a: Action)
    requires Sane(s) && Enabled(s, a) && (a == CommitStore(p) || a == DiscardStore(p)) && Rewrites(s, a)
    requires OwnsBusy(RingOf(s), p, s.Actor(p).slot)
    ensures FifoEnabled(Abs(s), OpOf(s, a))
    ensures Abs(Apply(s, a)) == FifoStep(Abs(s), OpOf(s, a))
  {
  }

  lemma RefinesInspect(s: State)
    requires Inv(s) && Enabled(s, ConsumeLoadHeader)
    ensures FifoEnabled(Abs(s), OpOf(s, ConsumeLoadHeader))
    ensures Abs(Apply(s, ConsumeLoadHeader)) == FifoStep(Abs(s), OpOf(s, ConsumeLoadHeader))
  {
    HeadHeader(s);
    RefinesHandOut(s);
  }

  lemma RefinesHandOut(s: State)
    requires Sane(s) && Enabled(s, ConsumeLoadHeader) && s.cons.pos == s.consumer && s.head < |s.recs|
    requires var w := LoadHeader(s.mem, s.Offset(s.consumer));
      && LenOf(w) == s.recs[s.head].size
      && (HasFlag(FlagsOf(w), BUSY_FLAG) <==> s.recs[s.head].status == Busy)
      && (HasFlag(FlagsOf(w), DISCARD_FLAG) <==> s.recs[s.head].status == Discarded)
    requires ReadBytes(s.mem, s.Offset(s.consumer) + HEADER_SIZE, s.recs[s.head].size)
          == s.recs[s.head].payload
    ensures FifoEnabled(Abs(s), OpOf(s, ConsumeLoadHeader))
    ensures Abs(Apply(s, ConsumeLoadHeader)) == FifoStep(Abs(s), OpOf(s, ConsumeLoadHeader))
  {
  }

  lemma RefinesRetire(s: State, a: Action)
    requires Inv(s) && Enabled(s, a) && (a.ConsumeSkip? || a.DropRecord?)
    ensures FifoEnabled(Abs(s), OpOf(s, a))
    ensures Abs(Apply(s, a)) == FifoStep(Abs(s), OpOf(s, a))
  {
    hide Exclusive, BusyHeld, ActorOk, Layout, Stored, CommittedPayloads;
  }

  function Ops(s: State, acts: seq<Action>): seq<FifoOp>
    requires Sane(s) && Exec(s, acts).Some?
    decreases |acts|
  {
    if acts == [] then []
    else [OpOf(s, acts[0])] + Ops(Apply(s, acts[0]), acts[1..])
  }

  predicate FifoRun(f: Fifo, ops: seq<FifoOp>, g: Fifo)
    decreases |ops|
  {
    if ops == [] then f == g
    else FifoEnabled(f, ops[0]) && FifoRun(FifoStep(f, ops[0]), ops[1..], g)
  }

  /** Every interleaving is a run of the queue. */
  lemma {:induction false} RunRefinesFifo(s: State, acts: seq<Action>)
    requires Inv(s) && Exec(s, acts).Some?
    ensures FifoRun(Abs(s), Ops(s, acts), Abs(Exec(s, acts).value))
    decreases |acts|
  {
    if acts != [] {
      StepKeepsInv(s, acts[0]);
      StepRefinesFifo(s, acts[0]);
      RunRefinesFifo(Apply(s, acts[0]), acts[1..]);
      assert Ops(s, acts)[1..] == Ops(Apply(s, acts[0]), acts[1..]);
    }
  }
}
