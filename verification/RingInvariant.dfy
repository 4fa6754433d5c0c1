/** What every step of the ring buffer keeps, and why. */
module RingInvariant {
  import opened Wrappers
  import opened Words
  import opened RingMemory
  import opened RingMachine

  // ------------------------------------------------------------- invariant

  /** What the data area and the log look like to everybody. */
  datatype Ring = Ring(n: nat, mem: seq<byte>, producer: nat, consumer: nat,
                       recs: seq<Rec>, head: nat)
  {
    function StartOf(i: nat): nat {
      if i < |recs| then recs[i].start else producer
    }
  }

  function RingOf(s: State): Ring {
    Ring(s.N(), s.mem, s.producer, s.consumer, s.recs, s.head)
  }

  predicate Shape(g: Ring) {
    && 8 <= g.n <= WORD32
    && |g.mem| == g.n
    && g.consumer <= g.producer < g.consumer + g.n
  }

  function FlagOf(st: Status): nat {
    match st
    case Busy => BUSY_FLAG
    case Committed => 0
    case Discarded => DISCARD_FLAG
  }

  /** The bytes of one record in memory are the ones in the log. */
  predicate Stored(mem: seq<byte>, r: Rec)
    requires mem != []
  {
    && LoadHeader(mem, r.start) == Pack(r.size, FlagOf(r.status))
    && ReadBytes(mem, r.start + HEADER_SIZE, r.size) == r.payload
  }

  /** Records follow each other without gaps from 0 to the producer position,
      and the consumer position is the start of the first live one. */
  predicate Layout(g: Ring) {
    && g.head <= |g.recs|
    && g.consumer == g.StartOf(g.head)
    && g.StartOf(0) == 0
    && (|g.recs| > 0 ==> g.recs[|g.recs| - 1].end == g.producer)
    && (forall i | 0 <= i < |g.recs| :: g.recs[i].end <= g.producer && RecShape(g.recs[i]))
    && (forall i, j | 0 <= i < j < |g.recs| :: Follows(i, j, g.recs[i], g.recs[j]))
  }

  predicate RecShape(r: Rec) {
    r.end == r.start + TotalSize(r.size) && |r.payload| == r.size < WORD32
  }

  predicate Follows(i: nat, j: nat, a: Rec, b: Rec) {
    a.end <= b.start && (j == i + 1 ==> a.end == b.start)
  }

  predicate Contents(g: Ring)
    requires g.mem != []
  {
    && (forall i | g.head <= i < |g.recs| :: Stored(g.mem, g.recs[i]))
    && (forall i | 0 <= i < g.head && i < |g.recs| :: g.recs[i].status != Busy)
  }

  predicate RingOk(g: Ring) {
    Shape(g) && Layout(g) && Contents(g)
  }

  predicate Fits(g: Ring, size: nat, cons: nat, prod: nat) {
    cons <= g.consumer && prod == g.producer && prod + TotalSize(size) - cons <= g.n - 1
  }

  predicate OwnsRec(g: Ring, p: nat, slot: Slot) {
    && slot.idx < |g.recs|
    && g.recs[slot.idx].start == slot.pos
    && g.recs[slot.idx].size == slot.size
    && g.recs[slot.idx].owner == p
  }

  predicate OwnsBusy(g: Ring, p: nat, slot: Slot) {
    OwnsRec(g, p, slot) && g.recs[slot.idx].status == Busy
  }

  predicate ActorOk(g: Ring, p: nat, t: Prod)
    requires g.mem != []
  {
    match t
    case Idle => true
    case Rejected => true
    case Sized(size, cons, _) => cons <= g.consumer
    case InLock(size, cons) => cons <= g.consumer
    case Measured(size, cons, prod) => Fits(g, size, cons, prod)
    case Stamped(size, cons, prod) =>
      Fits(g, size, cons, prod) && LoadHeader(g.mem, prod) == Pack(size, BUSY_FLAG)
    case Published(slot) => OwnsBusy(g, p, slot)
    case Filling(slot) => OwnsBusy(g, p, slot)
    case Checked(slot) => OwnsBusy(g, p, slot)
    case HeaderRead(slot, len) => OwnsBusy(g, p, slot) && len == slot.size
    case DiscardRead(slot, len) => OwnsBusy(g, p, slot) && len == slot.size
    case Flagged(slot) => OwnsRec(g, p, slot) && g.recs[slot.idx].status == Discarded
    case Lapsed(slot) => OwnsRec(g, p, slot) && g.recs[slot.idx].status == Discarded && slot.idx < g.head
    case LapsedRead(slot, _) => OwnsRec(g, p, slot) && g.recs[slot.idx].status == Discarded && slot.idx < g.head
    case Finished(slot) => OwnsRec(g, p, slot) && g.recs[slot.idx].status != Busy
  }

  predicate ActorsOk(g: Ring, procs: map<nat, Prod>)
    requires g.mem != []
  {
    forall p | p in procs :: ActorOk(g, p, procs[p])
  }

  predicate InCritical(t: Prod) {
    t.InLock? || t.Measured? || t.Stamped? || t.Rejected? || t.Published?
  }

  /** The spinlock excludes: whoever is inside holds it, and alone. */
  predicate Exclusive(procs: map<nat, Prod>, locked: bool) {
    && (forall p | p in procs :: InCritical(procs[p]) ==> locked)
    && (forall p, q | p in procs && q in procs ::
          InCritical(procs[p]) && InCritical(procs[q]) ==> p == q)
  }

  /** The slot of a record the actor has not finished yet. */
  function BusySlot(t: Prod): Option<Slot> {
    match t
    case Published(slot) => Some(slot)
    case Filling(slot) => Some(slot)
    case Checked(slot) => Some(slot)
    case HeaderRead(slot, _) => Some(slot)
    case DiscardRead(slot, _) => Some(slot)
    case _ => None
  }

  predicate HeldBy(procs: map<nat, Prod>, p: nat, i: nat) {
    p in procs && BusySlot(procs[p]).Some? && BusySlot(procs[p]).value.idx == i
  }

  /** Every busy record still has a producer working on it. */
  predicate BusyHeld(recs: seq<Rec>, procs: map<nat, Prod>) {
    forall i | 0 <= i < |recs| && recs[i].status == Busy :: HeldBy(procs, recs[i].owner, i)
  }

  predicate ConsumerOk(g: Ring, c: Cons) {
    match c
    case Ready => true
    case Empty => true
    case GotCons(pos) => pos == g.consumer
    case GotProd(pos) => pos == g.consumer && g.head < |g.recs|
    case Skipping(next) =>
      g.head < |g.recs| && g.recs[g.head].status == Discarded && next == g.recs[g.head].end
    case Holding(pos, len, next) =>
      && g.head < |g.recs|
      && g.recs[g.head].status == Committed
      && pos == g.recs[g.head].start
      && len == g.recs[g.head].size
      && next == g.recs[g.head].end
  }

  function CommittedPayloads(recs: seq<Rec>): seq<seq<byte>> {
    if recs == [] then []
    else
      var r := recs[|recs| - 1];
      CommittedPayloads(recs[..|recs| - 1]) + (if r.status == Committed then [r.payload] else [])
  }

  /** How many log entries the consumer has dealt with, counting a record it
      still holds. */
  function Upto(head: nat, c: Cons): nat {
    if c.Holding? then head + 1 else head
  }

  predicate Delivery(recs: seq<Rec>, head: nat, c: Cons, delivered: seq<seq<byte>>) {
    Upto(head, c) <= |recs| && delivered == CommittedPayloads(recs[..Upto(head, c)])
  }

  /** The record is closed, its producer has yet to notify. */
  predicate Ending(t: Prod) {
    t.Flagged? || t.Finished?
  }

  /** Some producer has closed the record at `head` and is about to notify. */
  predicate NotifyPending(procs: map<nat, Prod>, head: nat) {
    exists p :: p in procs && Ending(procs[p]) && procs[p].slot.idx == head
  }

  predicate HeadAvailable(recs: seq<Rec>, head: nat) {
    head < |recs| && recs[head].status != Busy
  }

  predicate Wakeup(s: State) {
    s.forced && s.cons.Empty? && HeadAvailable(s.recs, s.head)
    ==> s.eventfd > 0 || NotifyPending(s.procs, s.head)
  }

  predicate Inv(s: State) {
    && 3 <= s.k <= 32
    && RingOk(RingOf(s))
    && ActorsOk(RingOf(s), s.procs)
    && Exclusive(s.procs, s.locked)
    && BusyHeld(s.recs, s.procs)
    && ConsumerOk(RingOf(s), s.cons)
    && Delivery(s.recs, s.head, s.cons, s.delivered)
    && Wakeup(s)
  }

  // ------------------------------------------------------------ small facts

  /** The masked offset of a position addresses the position's own cell. */
  lemma PhysicalCell(s: State, pos: nat, d: nat, bs: seq<byte>, len: nat)
    requires Sane(s)
    ensures s.Offset(pos) == pos % s.N()
    ensures WriteBytes(s.mem, s.Offset(pos) + d, bs) == WriteBytes(s.mem, pos + d, bs)
    ensures ReadBytes(s.mem, s.Offset(pos) + d, len) == ReadBytes(s.mem, pos + d, len)
  {
    var n := s.N();
    MaskIsRemainder(pos, s.k);
    RemainderUnique(pos % n, n, 0, pos % n);
    ShiftCongruent(pos % n, pos, d, n);
    SameCells(s.mem, s.Offset(pos) + d, pos + d, bs, len);
  }

  lemma PhysicalHeader(s: State, pos: nat, w: nat)
    requires Sane(s)
    ensures LoadHeader(s.mem, s.Offset(pos)) == LoadHeader(s.mem, pos)
    ensures StoreHeader(s.mem, s.Offset(pos), w) == StoreHeader(s.mem, pos, w)
  {
    PhysicalCell(s, pos, 0, LittleEndian(w, HEADER_SIZE), HEADER_SIZE);
  }

  lemma RingSize(k: nat)
    requires 3 <= k <= 32
    ensures 8 <= Pow2(k) <= WORD32 && Pow2(k) % 8 == 0
  {
    Pow2At32();
    Pow2Monotone(3, k);
    Pow2Monotone(k, 32);
  }

  /** What a reader of the header word learns. */
  lemma HeaderWord(len: nat, st: Status)
    requires len < WORD32
    ensures LenOf(Pack(len, FlagOf(st))) == len
    ensures HasFlag(FlagsOf(Pack(len, FlagOf(st))), BUSY_FLAG) <==> st == Busy
    ensures HasFlag(FlagsOf(Pack(len, FlagOf(st))), DISCARD_FLAG) <==> st == Discarded
  {
    RemainderUnique(Pack(len, FlagOf(st)), WORD32, FlagOf(st), len);
  }
}
