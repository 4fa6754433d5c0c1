/** The shared-memory ring buffer as a transition system: any number of
    reservations and one consumer, one atomic access per step.

    `recs`, `head` and `delivered` are history: the log of reservations in
    order, how many of them the consumer has retired, and the payloads it has
    handed out. No step reads them to decide what to do. */
module RingMachine {
  import opened Wrappers
  import opened Words
  import opened RingMemory

  /** How many failed looks at the spinlock make a reservation give up. */
  const SPIN_LIMIT: nat := 100_000

  datatype Status = Busy | Committed | Discarded

  /** A log entry: the positions `start` to `end` it occupies, the length of
      its slice, the reservation that made it, and its bytes so far. */
  datatype Rec = Rec(start: nat, end: nat, size: nat, owner: nat, status: Status, payload: seq<byte>)

  /** A reserved buffer: where its header is, how long its slice is, and its
      index in the log. */
  datatype Slot = Slot(pos: nat, size: nat, idx: nat)

  /** Where one reservation is inside `reserve`, filling, or `drop`. */
  datatype Prod =
    | Idle
    | Sized(size: nat, cons: nat, looks: nat)  // consumer position loaded, lock found taken `looks` times
    | InLock(size: nat, cons: nat)             // spinlock taken
    | Measured(size: nat, cons: nat, prod: nat) // producer loaded, space found
    | Rejected                                 // producer loaded, no space
    | Stamped(size: nat, cons: nat, prod: nat) // busy header written
    | Published(slot: Slot)                    // producer position stored
    | Filling(slot: Slot)                      // spinlock released
    | Checked(slot: Slot)                      // drop: not discarded
    | HeaderRead(slot: Slot, len: nat)         // commit: header loaded
    | DiscardRead(slot: Slot, len: nat)        // discard: header loaded
    | Flagged(slot: Slot)                      // discard: header stored, not re-checked
    | Lapsed(slot: Slot)                       // discard: the flag was gone at the re-check
    | LapsedRead(slot: Slot, len: nat)         // commit after that: header loaded
    | Finished(slot: Slot)                     // header stored, not notified

  datatype Cons =
    | Ready
    | Empty                                    // last consume returned None
    | GotCons(pos: nat)
    | GotProd(pos: nat)
    | Skipping(next: nat)                      // discarded record found
    | Holding(pos: nat, len: nat, next: nat)   // a Record is live

  datatype State = State(
    k: nat, forced: bool,
    mem: seq<byte>, producer: nat, consumer: nat, locked: bool, eventfd: nat,
    procs: map<nat, Prod>, cons: Cons,
    recs: seq<Rec>, head: nat, delivered: seq<seq<byte>>)
  {
    function N(): nat {
      Pow2(k)
    }

    function Offset(pos: nat): nat {
      BitAnd(pos, N() - 1)
    }

    function Actor(p: nat): Prod {
      if p in procs then procs[p] else Idle
    }

    function With(p: nat, a: Prod): State {
      this.(procs := procs[p := a])
    }
  }

  datatype Action =
    | LoadConsumer(p: nat, size: nat)
    | LookTaken(p: nat)                        // a look at the lock finds it taken
    | LookWeak(p: nat)                         // the weak compare-exchange fails on a free lock
    | LockTimeout(p: nat)
    | Acquire(p: nat)
    | LoadProducer(p: nat)
    | WriteHeader(p: nat)
    | StoreProducer(p: nat)
    | Release(p: nat)
    | WriteByte(p: nat, i: nat, v: byte)
    | DropCheck(p: nat)
    | CommitLoad(p: nat)
    | CommitStore(p: nat)
    | DiscardLoad(p: nat)
    | DiscardStore(p: nat)
    | Notify(p: nat)
    | ConsumeBegin
    | ConsumeLoadProducer
    | ConsumeLoadHeader
    | ConsumeSkip
    | DropRecord
    | Wait

  function Init(k: nat, forced: bool, mem: seq<byte>): State {
    State(k, forced, mem, 0, 0, false, 0, map[], Ready, [], 0, [])
  }

  predicate Spinning(t: Prod) {
    t.Sized? && t.looks < SPIN_LIMIT
  }

  predicate Enabled(s: State, a: Action) {
    match a
    case LoadConsumer(p, size) => s.Actor(p).Idle?
    case LookTaken(p) => Spinning(s.Actor(p)) && s.locked
    case LookWeak(p) => Spinning(s.Actor(p)) && !s.locked
    case LockTimeout(p) => s.Actor(p).Sized? && s.Actor(p).looks >= SPIN_LIMIT
    case Acquire(p) => Spinning(s.Actor(p)) && !s.locked
    case LoadProducer(p) => s.Actor(p).InLock?
    case WriteHeader(p) => s.Actor(p).Measured?
    case StoreProducer(p) => s.Actor(p).Stamped?
    case Release(p) => s.Actor(p).Rejected? || s.Actor(p).Published?
    case WriteByte(p, i, v) => s.Actor(p).Filling? && i < s.Actor(p).slot.size
    case DropCheck(p) => s.Actor(p).Filling? || s.Actor(p).Flagged?
    case CommitLoad(p) => s.Actor(p).Checked? || s.Actor(p).Lapsed?
    case CommitStore(p) => s.Actor(p).HeaderRead? || s.Actor(p).LapsedRead?
    case DiscardLoad(p) => s.Actor(p).Filling?
    case DiscardStore(p) => s.Actor(p).DiscardRead?
    case Notify(p) => s.Actor(p).Finished?
    case ConsumeBegin => s.cons.Ready? || s.cons.Empty?
    case ConsumeLoadProducer => s.cons.GotCons?
    case ConsumeLoadHeader => s.cons.GotProd?
    case ConsumeSkip => s.cons.Skipping?
    case DropRecord => s.cons.Holding?
    case Wait => (s.cons.Ready? || s.cons.Empty?) && s.eventfd > 0
  }

  function Mark(recs: seq<Rec>, idx: nat, status: Status): (r: seq<Rec>)
    ensures |r| == |recs|
  {
    if idx < |recs| then recs[idx := recs[idx].(status := status)] else recs
  }

  function Fill(recs: seq<Rec>, idx: nat, i: nat, v: byte): (r: seq<Rec>)
    ensures |r| == |recs|
  {
    if idx < |recs| && i < |recs[idx].payload|
    then recs[idx := recs[idx].(payload := recs[idx].payload[i := v])] else recs
  }

  predicate Sane(s: State) {
    |s.mem| == s.N()
  }

  function Apply(s: State, a: Action): (r: State)
    requires Sane(s) && Enabled(s, a)
    ensures Sane(r) && r.k == s.k && r.forced == s.forced
  {
    match a
    case LoadConsumer(p, size) => s.With(p, Sized(size, s.consumer, 0))
    case LookTaken(p) => s.With(p, s.Actor(p).(looks := s.Actor(p).looks + 1))
    case LookWeak(p) => s.With(p, s.Actor(p).(looks := s.Actor(p).looks + 1))
    case LockTimeout(p) => s.With(p, Idle)
    case Acquire(p) =>
      s.With(p, InLock(s.Actor(p).size, s.Actor(p).cons)).(locked := true)
    case LoadProducer(p) =>
      var t := s.Actor(p);
      if s.producer + TotalSize(t.size) - t.cons > s.N() - 1 then s.With(p, Rejected)
      else s.With(p, Measured(t.size, t.cons, s.producer))
    case WriteHeader(p) =>
      var t := s.Actor(p);
      s.With(p, Stamped(t.size, t.cons, t.prod))
       .(mem := StoreHeader(s.mem, s.Offset(t.prod), Pack(t.size % WORD32, BUSY_FLAG)))
    case StoreProducer(p) =>
      var t := s.Actor(p);
      s.With(p, Published(Slot(t.prod, t.size, |s.recs|)))
       .(producer := t.prod + TotalSize(t.size),
         recs := s.recs + [Rec(t.prod, t.prod + TotalSize(t.size), t.size, p, Busy,
                               ReadBytes(s.mem, s.Offset(t.prod) + HEADER_SIZE, t.size))])
    case Release(p) =>
      var t := s.Actor(p);
      s.With(p, if t.Rejected? then Idle else Filling(t.slot)).(locked := false)
    case WriteByte(p, i, v) =>
      var slot := s.Actor(p).slot;
      s.(mem := WriteBytes(s.mem, s.Offset(slot.pos) + HEADER_SIZE + i, [v]),
         recs := Fill(s.recs, slot.idx, i, v))
    case DropCheck(p) =>
      var slot := s.Actor(p).slot;
      var w := LoadHeader(s.mem, s.Offset(slot.pos));
      s.With(p, if HasFlag(FlagsOf(w), DISCARD_FLAG) then Finished(slot)
                else if s.Actor(p).Flagged? then Lapsed(slot) else Checked(slot))
    case CommitLoad(p) =>
      var slot := s.Actor(p).slot;
      var len := LenOf(LoadHeader(s.mem, s.Offset(slot.pos)));
      s.With(p, if s.Actor(p).Lapsed? then LapsedRead(slot, len) else HeaderRead(slot, len))
    case CommitStore(p) =>
      var t := s.Actor(p);
      s.With(p, Finished(t.slot))
       .(mem := StoreHeader(s.mem, s.Offset(t.slot.pos), Pack(t.len, 0)),
         recs := if t.LapsedRead? then s.recs else Mark(s.recs, t.slot.idx, Committed))
    case DiscardLoad(p) =>
      var slot := s.Actor(p).slot;
      s.With(p, DiscardRead(slot, LenOf(LoadHeader(s.mem, s.Offset(slot.pos)))))
    case DiscardStore(p) =>
      var t := s.Actor(p);
      s.With(p, Flagged(t.slot))
       .(mem := StoreHeader(s.mem, s.Offset(t.slot.pos), Pack(t.len, DISCARD_FLAG)),
         recs := Mark(s.recs, t.slot.idx, Discarded))
    case Notify(p) =>
      s.With(p, Idle).(eventfd := if s.forced then s.eventfd + 1 else s.eventfd)
    case ConsumeBegin => s.(cons := GotCons(s.consumer))
    case ConsumeLoadProducer =>
      s.(cons := if s.cons.pos >= s.producer then Empty else GotProd(s.cons.pos))
    case ConsumeLoadHeader =>
      var pos := s.cons.pos;
      var w := LoadHeader(s.mem, s.Offset(pos));
      var next := pos + RoundUp8(HEADER_SIZE + LenOf(w));
      if HasFlag(FlagsOf(w), BUSY_FLAG) then s.(cons := Empty)
      else if HasFlag(FlagsOf(w), DISCARD_FLAG) then s.(cons := Skipping(next))
      else s.(cons := Holding(pos, LenOf(w), next),
              delivered := s.delivered + [ReadBytes(s.mem, s.Offset(pos) + HEADER_SIZE, LenOf(w))])
    case ConsumeSkip =>
      s.(consumer := s.cons.next, head := s.head + 1, cons := Ready)
    case DropRecord =>
      s.(consumer := s.cons.next, head := s.head + 1, cons := Ready)
    case Wait => s.(eventfd := 0, cons := Ready)
  }

  // ---------------------------------------------------------- stray writes

  /** Header and payload of a record, without the padding. */
  predicate InRecord(r: Rec, x: nat) {
    r.start <= x < r.start + HEADER_SIZE + r.size
  }

  predicate Stamping(procs: map<nat, Prod>) {
    exists q :: q in procs && procs[q].Stamped?
  }

  /** A byte of a live record, or of a header written but not yet published. */
  ghost predicate InUse(s: State, x: nat) {
    || (exists i :: s.head <= i < |s.recs| && InRecord(s.recs[i], x))
    || (Stamping(s.procs) && s.producer <= x < s.producer + HEADER_SIZE)
  }

  /** The memory `m` has every byte in use as it is. */
  ghost predicate Spares(s: State, m: seq<byte>)
    requires s.mem != [] && |m| == |s.mem|
  {
    forall x | InUse(s, x) :: Cell(m, x) == Cell(s.mem, x)
  }

  /** A discarded buffer looks at its header once more when it is dropped. If the
      record has been consumed and its place taken by another, the flag may be
      gone, and the drop goes on to commit what it finds. That store is calm if
      it changes no byte in use; every other step is. */
  ghost predicate Calm(s: State, a: Action)
    requires Sane(s)
  {
    a.CommitStore? && s.Actor(a.p).LapsedRead? ==>
      var t := s.Actor(a.p);
      Spares(s, StoreHeader(s.mem, s.Offset(t.slot.pos), Pack(t.len, 0)))
  }

  /** The state after a whole calm interleaving, or None if some step was not
      possible, or not calm, where it stands. */
  ghost function Exec(s: State, acts: seq<Action>): (r: Option<State>)
    requires Sane(s)
    ensures r.Some? ==> Sane(r.value) && r.value.k == s.k && r.value.forced == s.forced
    decreases |acts|
  {
    if acts == [] then Some(s)
    else if !Enabled(s, acts[0]) || !Calm(s, acts[0]) then None
    else Exec(Apply(s, acts[0]), acts[1..])
  }

  /** The state after any interleaving, calm or not. */
  function Wild(s: State, acts: seq<Action>): (r: Option<State>)
    requires Sane(s)
    ensures r.Some? ==> Sane(r.value)
    decreases |acts|
  {
    if acts == [] then Some(s)
    else if !Enabled(s, acts[0]) then None
    else Wild(Apply(s, acts[0]), acts[1..])
  }
}
