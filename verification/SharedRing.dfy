/** The ring buffer's own code, run by one thread while every other thread may
    take any number of steps between two of its shared-memory accesses. */
module SharedRing {
  import opened Wrappers
  import opened Words
  import opened RingMemory
  import opened RingMachine
  import opened RingInvariant
  import opened RingSteps
  import opened RingTheorems

  datatype Reserved = Ok(slot: Slot) | LockTimeoutError | InsufficientSpace(newProducer: nat, consumer: nat, mask: nat)

  datatype Consumed = Nothing | Skipped(total: nat) | Delivered(data: seq<byte>, next: nat)

  /** The reservation that takes a step; None for the consumer. */
  function Who(a: Action): Option<nat> {
    match a
    case LoadConsumer(p, _) => Some(p)
    case LookTaken(p) => Some(p)
    case LookWeak(p) => Some(p)
    case LockTimeout(p) => Some(p)
    case Acquire(p) => Some(p)
    case LoadProducer(p) => Some(p)
    case WriteHeader(p) => Some(p)
    case StoreProducer(p) => Some(p)
    case Release(p) => Some(p)
    case WriteByte(p, _, _) => Some(p)
    case DropCheck(p) => Some(p)
    case CommitLoad(p) => Some(p)
    case CommitStore(p) => Some(p)
    case DiscardLoad(p) => Some(p)
    case DiscardStore(p) => Some(p)
    case Notify(p) => Some(p)
    case _ => None
  }

  /** `r` is `s` after the one step `a`. */
  predicate Did(s: State, a: Action, r: State) {
    Sane(s) && Enabled(s, a) && r == Apply(s, a)
  }

  /** The store `p` is about to make changes no byte in use. */
  ghost predicate Harmless(s: State, p: nat) {
    Sane(s) && Calm(s, CommitStore(p))
  }

  /** `r` is reached from `s` by steps of anybody but `me`. */
  ghost predicate Interfered(s: State, r: State, me: Option<nat>)
    requires Sane(s)
  {
    exists acts :: Exec(s, acts) == Some(r) && NotBy(acts, me)
  }

  predicate NotBy(acts: seq<Action>, me: Option<nat>) {
    forall i | 0 <= i < |acts| :: Who(acts[i]) != me
  }

  /** `acts` is a run from `s` to `r`. */
  ghost predicate Ran(s: State, acts: seq<Action>, r: State) {
    Sane(s) && Exec(s, acts) == Some(r)
  }

  /** The steps of one reservation, or of the consumer, in a run. */
  function By(acts: seq<Action>, me: Option<nat>): seq<Action> {
    if acts == [] then []
    else By(acts[..|acts| - 1], me) + (if Who(acts[|acts| - 1]) == me then [acts[|acts| - 1]] else [])
  }

  lemma {:induction false} ByConcat(a: seq<Action>, b: seq<Action>, me: Option<nat>)
    ensures By(a + b, me) == By(a, me) + By(b, me)
    decreases |b|
  {
    if b == [] {
      assert a + b == a;
    } else {
      ByConcat(a, b[..|b| - 1], me);
      assert (a + b)[..|a + b| - 1] == a + b[..|b| - 1];
    }
  }

  lemma {:induction false} ByOthers(acts: seq<Action>, me: Option<nat>)
    requires NotBy(acts, me)
    ensures By(acts, me) == []
    decreases |acts|
  {
    if acts != [] {
      ByOthers(acts[..|acts| - 1], me);
    }
  }

  lemma RanStep(s: State, acts: seq<Action>, m: State, a: Action, r: State)
    requires Ran(s, acts, m) && Did(m, a, r) && !a.CommitStore?
    ensures Ran(s, acts + [a], r)
    ensures By(acts + [a], Who(a)) == By(acts, Who(a)) + [a]
  {
    hide Apply, Enabled;
    ExecConcat(s, acts, [a]);
    assert [a][1..] == [] && Exec(r, []) == Some(r);
    assert (acts + [a])[..|acts|] == acts;
  }

  lemma RanOthers(s: State, acts: seq<Action>, m: State, r: State, me: Option<nat>) returns (more: seq<Action>)
    requires Ran(s, acts, m) && Sane(m) && Interfered(m, r, me)
    ensures acts <= more && Ran(s, more, r) && By(more, me) == By(acts, me)
  {
    hide By;
    var rest :| Exec(m, rest) == Some(r) && NotBy(rest, me);
    ExecConcat(s, acts, rest);
    ByConcat(acts, rest, me);
    ByOthers(rest, me);
    more := acts + rest;
  }

  lemma NotYet(s: State, me: Option<nat>)
    requires Sane(s)
    ensures Ran(s, [], s) && By([], me) == []
  {
  }

  // -------------------------------------------------------- why a reservation fails

  /** Looks at the lock that find it taken, or fail on a free lock because the
      hardware's weak compare-exchange may. */
  ghost predicate FailedLooks(looks: seq<Action>, p: nat, weak: nat -> bool) {
    forall i | 0 <= i < |looks| :: looks[i] == LookTaken(p) || (looks[i] == LookWeak(p) && MayFail(weak))
  }

  ghost predicate MayFail(weak: nat -> bool) {
    exists i: nat :: weak(i)
  }

  function LastSteps(p: nat, r: Reserved): seq<Action> {
    match r
    case LockTimeoutError => [LockTimeout(p)]
    case InsufficientSpace(_, _, _) => [Acquire(p), LoadProducer(p), Release(p)]
    case Ok(_) => [Acquire(p), LoadProducer(p), WriteHeader(p), StoreProducer(p), Release(p)]
  }

  /** The accesses of `reserve`: the consumer position, looks at the lock, and
      what follows from them. It gives up after SPIN_LIMIT looks, not before. */
  ghost predicate ReserveSteps(steps: seq<Action>, p: nat, size: nat, r: Reserved, weak: nat -> bool) {
    exists looks :: FailedLooks(looks, p, weak) && (r.LockTimeoutError? ==> |looks| == SPIN_LIMIT)
      && steps == [LoadConsumer(p, size)] + looks + LastSteps(p, r)
  }

  /** In the run the producer position was loaded, with the lock held, and left
      no room up to the consumer position loaded before. */
  ghost predicate NoRoomAt(s: State, acts: seq<Action>, m: State, p: nat, size: nat, r: Reserved)
    requires r.InsufficientSpace?
  {
    && Ran(s, acts, m) && m.Actor(p) == InLock(size, r.consumer)
    && r.newProducer == m.producer + TotalSize(size) && r.newProducer - r.consumer > r.mask == m.N() - 1
  }

  ghost predicate NoRoom(s: State, acts: seq<Action>, p: nat, size: nat, r: Reserved)
    requires r.InsufficientSpace?
  {
    exists n, m :: 0 <= n < |acts| && acts[n] == LoadProducer(p) && NoRoomAt(s, acts[..n], m, p, size, r)
  }

  lemma NoRoomHere(s: State, acts: seq<Action>, more: seq<Action>, m: State, p: nat, size: nat, r: Reserved)
    requires r.InsufficientSpace? && acts + [LoadProducer(p)] <= more && NoRoomAt(s, acts, m, p, size, r)
    ensures NoRoom(s, more, p, size, r)
  {
    var n := |acts|;
    assert more[..n] == acts && more[n] == (acts + [LoadProducer(p)])[n];
  }

  lemma ReservedSo(s: State, acts: seq<Action>, v: State, p: nat, size: nat, looks: seq<Action>, r: Reserved,
                   weak: nat -> bool)
    requires Ran(s, acts, v) && FailedLooks(looks, p, weak) && (r.LockTimeoutError? ==> |looks| == SPIN_LIMIT)
    requires By(acts, Some(p)) == [LoadConsumer(p, size)] + looks + LastSteps(p, r)
    requires r.InsufficientSpace? ==> NoRoom(s, acts, p, size, r)
    ensures Reserves(s, v, p, size, r, weak)
  {
    assert ReserveSteps(By(acts, Some(p)), p, size, r, weak);
  }

  /** Between `s` and `v` a reservation ran, together with anybody else, and
      ended with `r`. */
  ghost predicate Reserves(s: State, v: State, p: nat, size: nat, r: Reserved, weak: nat -> bool) {
    exists acts :: Ran(s, acts, v) && ReserveSteps(By(acts, Some(p)), p, size, r, weak)
      && (r.InsufficientSpace? ==> NoRoom(s, acts, p, size, r))
  }

  ghost predicate Refused(s: State, v: State, p: nat, size: nat, weak: nat -> bool) {
    exists r: Reserved :: !r.Ok? && Reserves(s, v, p, size, r, weak)
  }

  /** How many looks a reservation has to its name. */
  function Had(s: State, p: nat): nat {
    if s.Actor(p).Sized? then s.Actor(p).looks else 0
  }

  function LooksIn(acts: seq<Action>, p: nat): nat {
    if acts == [] then 0
    else LooksIn(acts[1..], p) + if acts[0] == LookTaken(p) || acts[0] == LookWeak(p) then 1 else 0
  }

  lemma LooksCount(s: State, a: Action, p: nat)
    requires Sane(s) && Enabled(s, a)
    ensures Had(Apply(s, a), p) <= Had(s, p) + if a == LookTaken(p) || a == LookWeak(p) then 1 else 0
    ensures a == LockTimeout(p) ==> Had(s, p) >= SPIN_LIMIT
  {
    hide StoreHeader, LoadHeader, WriteBytes, ReadBytes, BitAnd, Pack, TotalSize, LenOf, FlagsOf, HasFlag, Mark, Fill;
  }

  /** Whatever the others do, a reservation that times out has looked at the lock
      SPIN_LIMIT times in vain. */
  lemma {:induction false} TimeoutNeedsLooks(s: State, acts: seq<Action>, p: nat)
    requires Sane(s) && Exec(s, acts).Some? && LockTimeout(p) in acts
    ensures Had(s, p) + LooksIn(acts, p) >= SPIN_LIMIT
    decreases |acts|
  {
    hide Apply, Enabled, Had, Calm;
    LooksCount(s, acts[0], p);
    if acts[0] != LockTimeout(p) {
      TimeoutNeedsLooks(Apply(s, acts[0]), acts[1..], p);
    }
  }

  /** Nobody but the consumer and `p` moves, and no compare-exchange fails on a
      free lock. */
  predicate Alone(acts: seq<Action>, p: nat) {
    forall i | 0 <= i < |acts| :: (Who(acts[i]) == None || Who(acts[i]) == Some(p)) && acts[i] != LookWeak(p)
  }

  lemma AloneStep(s: State, a: Action, p: nat)
    requires Sane(s) && Enabled(s, a) && (s.locked ==> InCritical(s.Actor(p)))
    requires (Who(a) == None || Who(a) == Some(p)) && a != LookWeak(p)
    ensures a != LookTaken(p) && (Apply(s, a).locked ==> InCritical(Apply(s, a).Actor(p)))
  {
    hide StoreHeader, LoadHeader, WriteBytes, ReadBytes, BitAnd, Pack, TotalSize, LenOf, FlagsOf, HasFlag, Mark, Fill;
  }

  lemma {:induction false} AloneNoLooks(s: State, acts: seq<Action>, p: nat)
    requires Sane(s) && (s.locked ==> InCritical(s.Actor(p))) && Exec(s, acts).Some? && Alone(acts, p)
    ensures LooksIn(acts, p) == 0
    decreases |acts|
  {
    hide Apply, Enabled, Calm, Who, InCritical;
    if acts != [] {
      AloneStep(s, acts[0], p);
      AloneNoLooks(Apply(s, acts[0]), acts[1..], p);
    }
  }

  /** A reservation that no other competes with never times out. */
  lemma UncontendedNeverTimesOut(s: State, acts: seq<Action>, p: nat)
    requires Sane(s) && !s.locked && s.Actor(p).Idle? && Exec(s, acts).Some? && Alone(acts, p)
    ensures LockTimeout(p) !in acts
  {
    AloneNoLooks(s, acts, p);
    if LockTimeout(p) in acts {
      TimeoutNeedsLooks(s, acts, p);
    }
  }

  /** The entries of `p` in the longer log that the shorter one does not have. */
  function NewBy(a: seq<Rec>, b: seq<Rec>, p: nat): set<nat> {
    set i: nat | |a| <= i < |b| && b[i].owner == p
  }

  lemma NewByAdds(a: seq<Rec>, b: seq<Rec>, c: seq<Rec>, p: nat)
    requires Extends(a, b) && Extends(b, c)
    ensures Extends(a, c) && NewBy(a, c, p) == NewBy(a, b, p) + NewBy(b, c, p)
  {
    forall i: nat | |a| <= i < |c| ensures i < |b| ==> c[i].owner == b[i].owner {
      assert i < |b| ==> Continues(b[i], c[i]);
    }
  }

  /** `p`'s place in its code and the records it reserved. */
  predicate MineKept(s: State, r: State, p: nat) {
    && r.Actor(p) == s.Actor(p)
    && |s.recs| <= |r.recs|
    && (forall i | 0 <= i < |s.recs| && s.recs[i].owner == p :: r.recs[i] == s.recs[i])
    && NewBy(s.recs, r.recs, p) == {}
  }

  lemma StepLeavesMe(s: State, a: Action, p: nat)
    requires Sane(s) && Inv(s) && Enabled(s, a) && Who(a) != Some(p)
    ensures MineKept(s, Apply(s, a), p)
  {
    hide Inv, Apply, MineKept;
    if Rewrites(s, a) {
      OwnsIt(s, a.p);
      RewriteLeavesMe(s, a, p);
    } else {
      MoveLeavesMe(s, a, p);
    }
  }

  lemma RewriteLeavesMe(s: State, a: Action, p: nat)
    requires Sane(s) && Enabled(s, a) && Who(a) != Some(p)
    requires Rewrites(s, a)
    requires OwnsBusy(RingOf(s), a.p, s.Actor(a.p).slot)
    ensures MineKept(s, Apply(s, a), p)
  {
  }

  lemma MoveLeavesMe(s: State, a: Action, p: nat)
    requires Sane(s) && Enabled(s, a) && Who(a) != Some(p)
    requires !Rewrites(s, a)
    ensures MineKept(s, Apply(s, a), p)
  {
    hide StoreHeader, LoadHeader, WriteBytes, ReadBytes, BitAnd, Pack, TotalSize, LenOf, FlagsOf, HasFlag, Mark, Fill;
    assert !a.StoreProducer? ==> Apply(s, a).recs == s.recs;
  }

  lemma {:induction false} OthersLeaveMe(s: State, acts: seq<Action>, p: nat)
    requires Sane(s) && Inv(s) && Exec(s, acts).Some? && NotBy(acts, Some(p))
    ensures MineKept(s, Exec(s, acts).value, p)
    decreases |acts|
  {
    hide Inv, Apply, Enabled, Calm, NewBy, Extends, Who;
    if acts != [] {
      assert NotBy(acts[1..], Some(p));
      StepKeepsInv(s, acts[0]);
      StepLeavesMe(s, acts[0], p);
      StepExtends(s, acts[0]);
      RunExtends(Apply(s, acts[0]), acts[1..]);
      OthersLeaveMe(Apply(s, acts[0]), acts[1..], p);
      NewByAdds(s.recs, Apply(s, acts[0]).recs, Exec(s, acts).value.recs, p);
    } else {
      Unchanged(s.recs, p);
    }
  }

  lemma {:induction false} ProducersLeaveConsumer(s: State, acts: seq<Action>)
    requires Sane(s) && Exec(s, acts).Some? && NotBy(acts, None)
    ensures var r := Exec(s, acts).value;
      r.cons == s.cons && r.consumer == s.consumer && r.head == s.head && r.delivered == s.delivered
    decreases |acts|
  {
    if acts != [] {
      assert NotBy(acts[1..], None);
      ProducersLeaveConsumer(Apply(s, acts[0]), acts[1..]);
    }
  }

  /** After interference the invariant, the log's finished part, and everything
      that belongs to `me` are as before. */
  lemma AfterInterference(s: State, r: State, me: Option<nat>)
    requires Inv(s) && Interfered(s, r, me)
    ensures Inv(r) && Extends(s.recs, r.recs)
    ensures me.Some? ==> MineKept(s, r, me.value)
    ensures me.None? ==>
      r.cons == s.cons && r.consumer == s.consumer && r.head == s.head && r.delivered == s.delivered
  {
    var acts :| Exec(s, acts) == Some(r) && NotBy(acts, me);
    RunKeepsInv(s, acts);
    RunExtends(s, acts);
    if me.Some? {
      OthersLeaveMe(s, acts, me.value);
    } else {
      ProducersLeaveConsumer(s, acts);
    }
  }

  /** What the consumer's header load will tell it. */
  lemma HeadAt(s: State)
    requires Inv(s) && s.cons.GotProd?
    ensures s.head < |s.recs|
    ensures var w := LoadHeader(s.mem, s.Offset(s.cons.pos));
      && LenOf(w) == s.recs[s.head].size
      && (HasFlag(FlagsOf(w), BUSY_FLAG) <==> s.recs[s.head].status == Busy)
      && (HasFlag(FlagsOf(w), DISCARD_FLAG) <==> s.recs[s.head].status == Discarded)
    ensures ReadBytes(s.mem, s.Offset(s.cons.pos) + HEADER_SIZE, s.recs[s.head].size)
         == s.recs[s.head].payload
  {
    HeadHeader(s);
  }

  lemma Unchanged(a: seq<Rec>, p: nat)
    ensures Extends(a, a) && NewBy(a, a, p) == {}
  {
  }

  /** A step that only rewrites records adds none. */
  lemma NoneAdded(past: seq<Rec>, a: seq<Rec>, b: seq<Rec>, p: nat)
    requires Extends(past, a) && Extends(a, b) && |a| == |b|
    ensures Extends(past, b) && NewBy(past, b, p) == NewBy(past, a, p)
  {
    NewByAdds(past, a, b, p);
  }

  lemma Longer(a: seq<Rec>, b: seq<Rec>)
    requires Extends(a, b)
    ensures |a| <= |b|
  {
  }

  lemma DiscardedStay(a: seq<Rec>, b: seq<Rec>)
    requires Extends(a, b)
    ensures |a| <= |b| && forall i | 0 <= i < |a| && a[i].status == Discarded :: b[i].status == Discarded
  {
    forall i | 0 <= i < |a| && a[i].status == Discarded ensures b[i].status == Discarded {
      assert Continues(a[i], b[i]);
    }
  }

  /** No record of the log at or after `head` was ready to be consumed next. */
  predicate NoneReady(recs: seq<Rec>, head: nat) {
    head >= |recs| || recs[head].status == Busy
  }

  lemma NoneReadyBefore(a: seq<Rec>, b: seq<Rec>, head: nat)
    requires Extends(a, b)
    ensures NoneReady(b, head) ==> NoneReady(a, head)
  {
    assert head < |a| ==> Continues(a[head], b[head]);
  }

  /** The positions meet only when every record has been consumed. */
  lemma PositionsMeet(s: State)
    requires Inv(s) && s.cons.GotCons?
    ensures s.cons.pos >= s.producer ==> s.head == |s.recs|
  {
    hide Exclusive, BusyHeld, ActorOk, Stored, Follows, CommittedPayloads;
    if s.head < |s.recs| {
      assert RecShape(s.recs[s.head]);
    }
  }

  lemma HeadInLog(s: State)
    requires Inv(s)
    ensures s.head <= |s.recs|
  {
  }

  lemma LapsedRetired(s: State, p: nat)
    requires Inv(s) && s.Actor(p).LapsedRead?
    ensures s.Actor(p).slot.idx < s.head
  {
    assert ActorOk(RingOf(s), p, s.procs[p]);
  }

  function Spliced(s: seq<byte>, at: nat, data: seq<byte>): seq<byte>
    requires at + |data| <= |s|
  {
    s[..at] + data + s[at + |data|..]
  }

  lemma SpliceOne(s: seq<byte>, at: nat, data: seq<byte>, i: nat)
    requires i < |data| && at + |data| <= |s|
    ensures Spliced(s, at, data[..i + 1]) == Spliced(s, at, data[..i])[at + i := data[i]]
  {
  }

  lemma WriteOneMore(m: seq<byte>, a: nat, bs: seq<byte>, i: nat)
    requires m != [] && i < |bs| <= |m|
    ensures WriteBytes(m, a, bs[..i + 1]) == WriteBytes(m, a, bs[..i])[(a + i) % |m| := bs[i]]
  {
    var n := |m|;
    var l, r := WriteBytes(m, a, bs[..i + 1]), WriteBytes(m, a, bs[..i])[(a + i) % n := bs[i]];
    forall c | 0 <= c < n ensures l[c] == r[c] {
      RingDistance(a + i, a, n);
      RemainderUnique(i, n, 0, i);
      if (c - a) % n == i {
        ShiftCongruent(c - a, i, a, n);
        RemainderUnique(c, n, 0, c);
      }
    }
  }

  class Ring {
    const k: nat
    const forced: bool
    const mem: array<byte>
    var producer: nat
    var consumer: nat
    var locked: bool
    var eventfd: nat
    ghost var procs: map<nat, Prod>
    ghost var cons: Cons
    ghost var recs: seq<Rec>
    ghost var head: nat
    ghost var delivered: seq<seq<byte>>

    ghost function View(): State
      reads this, mem
    {
      State(k, forced, mem[..], producer, consumer, locked, eventfd, procs, cons, recs, head, delivered)
    }

    ghost predicate Valid()
      reads this, mem
    {
      mem.Length == Pow2(k) >= HEADER_SIZE && Inv(View())
    }

    constructor (k: nat, forced: bool)
      requires 3 <= k <= 32
      ensures Valid() && Start(View()) && fresh(mem) && this.k == k && this.forced == forced
    {
      this.k, this.forced := k, forced;
      mem := new byte[Pow2(k)](i => 0);
      producer, consumer, locked, eventfd := 0, 0, false, 0;
      procs, cons, recs, head, delivered := map[], Ready, [], 0, [];
      new;
      RingSize(k);
      InitInv(View());
    }

    /** Every other thread runs for as long as it likes. */
    method Others(ghost me: Option<nat>)
      requires Valid()
      modifies this, mem
      ensures Interfered(old(View()), View(), me)
      ensures Valid() && Extends(old(recs), recs)
      ensures me.Some? ==> MineKept(old(View()), View(), me.value)
      ensures me.None? ==> cons == old(cons) && consumer == old(consumer) && head == old(head)
                           && delivered == old(delivered)
    {
      assert Exec(View(), []) == Some(View()) && NotBy([], me);
      AfterInterference(View(), View(), me);
    }

    /** Every producer runs, within a bound on the reservations made in all. */
    method Producers(ghost limit: nat)
      requires Valid() && |recs| <= limit
      modifies this, mem
      ensures Interfered(old(View()), View(), None) && |recs| <= limit
      ensures Valid() && Extends(old(recs), recs)
      ensures cons == old(cons) && consumer == old(consumer) && head == old(head) && delivered == old(delivered)
    {
      assert Exec(View(), []) == Some(View()) && NotBy([], None);
      AfterInterference(View(), View(), None);
    }

    method Store(a: nat, bs: seq<byte>)
      requires 0 < |bs| <= mem.Length
      modifies mem
      ensures mem[..] == WriteBytes(old(mem[..]), a, bs)
    {
      ghost var m := mem[..];
      var i := 0;
      assert bs[..0] == [];
      while i < |bs|
        invariant 0 <= i <= |bs|
        invariant mem[..] == WriteBytes(m, a, bs[..i])
      {
        WriteOneMore(m, a, bs, i);
        mem[(a + i) % mem.Length] := bs[i];
        i := i + 1;
      }
      assert bs[..i] == bs;
    }

    method Fetch(a: nat, len: nat) returns (bs: seq<byte>)
      requires mem.Length > 0
      ensures bs == ReadBytes(mem[..], a, len)
    {
      bs := [];
      var i := 0;
      while i < len
        invariant 0 <= i <= len
        invariant bs == ReadBytes(mem[..], a, i)
      {
        bs := bs + [mem[(a + i) % mem.Length]];
        i := i + 1;
      }
    }

    // ----------------------------------------- one shared access each

    method LoadConsumerPos(ghost p: nat, ghost size: nat) returns (c: nat)
      requires Valid() && Enabled(View(), LoadConsumer(p, size))
      modifies this
      ensures Did(old(View()), LoadConsumer(p, size), View()) && Valid() && c == old(consumer)
      ensures View().Actor(p) == Sized(size, c, 0) && recs == old(recs)
    {
      StepKeepsInv(View(), LoadConsumer(p, size));
      c := consumer;
      procs := procs[p := Sized(size, c, 0)];
    }

    method GiveUp(ghost p: nat)
      requires Valid() && Enabled(View(), LockTimeout(p))
      modifies this
      ensures Did(old(View()), LockTimeout(p), View()) && Valid()
      ensures View().Actor(p).Idle? && recs == old(recs)
    {
      StepKeepsInv(View(), LockTimeout(p));
      procs := procs[p := Idle];
    }

    /** A weak compare-and-swap of the lock flag; `spurious` says whether the
        hardware makes it fail on a free lock. */
    method CompareExchange(ghost p: nat, spurious: bool) returns (ok: bool)
      requires Valid() && Spinning(View().Actor(p))
      modifies this
      ensures ok == (!old(locked) && !spurious)
      ensures Did(old(View()), if ok then Acquire(p) else if old(locked) then LookTaken(p) else LookWeak(p), View())
      ensures Valid() && recs == old(recs)
      ensures var t := old(View()).Actor(p);
        View().Actor(p) == if ok then InLock(t.size, t.cons) else Sized(t.size, t.cons, t.looks + 1)
    {
      hide Inv;
      ok := !locked && !spurious;
      ghost var t := procs[p];
      StepKeepsInv(View(), if ok then Acquire(p) else if locked then LookTaken(p) else LookWeak(p));
      procs := procs[p := if ok then InLock(t.size, t.cons) else Sized(t.size, t.cons, t.looks + 1)];
      if ok {
        locked := true;
      }
    }

    /** A plain load of the lock flag. */
    method LoadLock(ghost p: nat) returns (taken: bool)
      requires Valid() && Spinning(View().Actor(p))
      modifies this
      ensures taken == old(locked) && Valid() && recs == old(recs)
      ensures if taken then Did(old(View()), LookTaken(p), View()) else View() == old(View())
      ensures var t := old(View()).Actor(p);
        View().Actor(p) == if taken then Sized(t.size, t.cons, t.looks + 1) else t
    {
      hide Inv;
      taken := locked;
      if taken {
        StepKeepsInv(View(), LookTaken(p));
        procs := procs[p := Sized(procs[p].size, procs[p].cons, procs[p].looks + 1)];
      }
    }

    /** Loads the producer position and decides whether the record fits. */
    method LoadProducerPos(ghost p: nat, size: nat, c: nat) returns (prod: nat, fits: bool)
      requires Valid() && View().Actor(p) == InLock(size, c)
      modifies this
      ensures Did(old(View()), LoadProducer(p), View()) && Valid() && prod == old(producer)
      ensures View().Actor(p) == if fits then Measured(size, c, prod) else Rejected
      ensures recs == old(recs) && fits == (prod + TotalSize(size) - c <= mem.Length - 1)
    {
      hide Inv;
      StepKeepsInv(View(), LoadProducer(p));
      prod := producer;
      fits := !(prod + TotalSize(size) - c > mem.Length - 1);
      procs := procs[p := if fits then Measured(size, c, prod) else Rejected];
    }

    method StampHeader(ghost p: nat, size: nat, prod: nat)
      requires Valid() && View().Actor(p).Measured? && View().Actor(p).size == size && View().Actor(p).prod == prod
      modifies this, mem
      ensures Did(old(View()), WriteHeader(p), View()) && Valid()
      ensures View().Actor(p) == Stamped(size, old(View()).Actor(p).cons, prod) && recs == old(recs)
    {
      hide Inv;
      StepKeepsInv(View(), WriteHeader(p));
      Store(BitAnd(prod, mem.Length - 1), LittleEndian(Pack(size % WORD32, BUSY_FLAG), HEADER_SIZE));
      procs := procs[p := Stamped(size, procs[p].cons, prod)];
    }

    method AdvanceProducer(ghost p: nat, size: nat, prod: nat) returns (ghost slot: Slot)
      requires Valid() && View().Actor(p).Stamped? && View().Actor(p).size == size && View().Actor(p).prod == prod
      modifies this
      ensures Did(old(View()), StoreProducer(p), View()) && Valid()
      ensures slot == Slot(prod, size, old(|recs|)) && View().Actor(p) == Published(slot)
      ensures Extends(old(recs), recs) && NewBy(old(recs), recs, p) == {slot.idx}
      ensures |recs| == old(|recs|) + 1 && OwnsBusy(RingOf(View()), p, slot)
    {
      hide Inv;
      StepKeepsInv(View(), StoreProducer(p));
      StepExtends(View(), StoreProducer(p));
      slot := Slot(prod, size, |recs|);
      recs := recs + [Rec(prod, prod + TotalSize(size), size, p, Busy,
                          ReadBytes(mem[..], BitAnd(prod, mem.Length - 1) + HEADER_SIZE, size))];
      procs := procs[p := Published(slot)];
      producer := prod + TotalSize(size);
    }

    method Unlock(ghost p: nat)
      requires Valid() && Enabled(View(), Release(p))
      modifies this
      ensures Did(old(View()), Release(p), View()) && Valid()
      ensures recs == old(recs)
      ensures View().Actor(p) == if old(View().Actor(p)).Rejected? then Idle else Filling(old(View().Actor(p)).slot)
    {
      hide Inv;
      StepKeepsInv(View(), Release(p));
      locked := false;
      procs := procs[p := if procs[p].Rejected? then Idle else Filling(procs[p].slot)];
    }

    method PutByte(ghost p: nat, ghost slot: Slot, pos: nat, i: nat, v: byte)
      requires Valid() && View().Actor(p) == Filling(slot) && slot.pos == pos && i < slot.size
      modifies this, mem
      ensures Did(old(View()), WriteByte(p, i, v), View()) && Valid() && Extends(old(recs), recs)
      ensures View().Actor(p) == Filling(slot) && recs == Fill(old(recs), slot.idx, i, v)
    {
      hide Inv, WriteBytes, BitAnd, Extends;
      StepKeepsInv(View(), WriteByte(p, i, v));
      StepExtends(View(), WriteByte(p, i, v));
      Store(BitAnd(pos, mem.Length - 1) + HEADER_SIZE + i, [v]);
      recs := Fill(recs, slot.idx, i, v);
    }

    method HeaderAt(pos: nat) returns (w: nat)
      requires mem.Length == Pow2(k) > 0
      ensures w == LoadHeader(mem[..], BitAnd(pos, Pow2(k) - 1))
    {
      var bs := Fetch(BitAnd(pos, mem.Length - 1), HEADER_SIZE);
      w := FromLittleEndian(bs);
    }

    /** Replaces the header of an own busy record by its final word. */
    method CloseHeader(ghost p: nat, ghost slot: Slot, pos: nat, len: nat, discard: bool)
      requires Valid() && slot.pos == pos
      requires View().Actor(p) == if discard then DiscardRead(slot, len) else HeaderRead(slot, len)
      modifies this, mem
      ensures Did(old(View()), if discard then DiscardStore(p) else CommitStore(p), View())
      ensures Valid() && Extends(old(recs), recs)
      ensures View().Actor(p) == if discard then Flagged(slot) else Finished(slot)
      ensures recs == Mark(old(recs), slot.idx, if discard then Discarded else Committed)
    {
      hide Inv, WriteBytes, LittleEndian, Pack, BitAnd, Extends;
      ghost var a := if discard then DiscardStore(p) else CommitStore(p);
      StepKeepsInv(View(), a);
      StepExtends(View(), a);
      Store(BitAnd(pos, mem.Length - 1),
            LittleEndian(Pack(len, if discard then DISCARD_FLAG else 0), HEADER_SIZE));
      recs := Mark(recs, slot.idx, if discard then Discarded else Committed);
      procs := procs[p := if discard then Flagged(slot) else Finished(slot)];
    }

    method NotifyConsumer(ghost p: nat)
      requires Valid() && Enabled(View(), Notify(p))
      modifies this
      ensures Did(old(View()), Notify(p), View()) && Valid()
      ensures View().Actor(p).Idle? && recs == old(recs)
    {
      hide Inv;
      StepKeepsInv(View(), Notify(p));
      if forced {
        eventfd := eventfd + 1;
      }
      procs := procs[p := Idle];
    }

    // ------------------------------------------------------ the operations

    /** The bounded spin: looks at the lock until one takes it or SPIN_LIMIT have
        failed. `acts` is the run so far since `s`. */
    method TryLock(ghost p: nat, ghost size: nat, ghost c: nat, weak: nat -> bool,
                   ghost s: State, ghost acts: seq<Action>)
      returns (ok: bool, ghost acts': seq<Action>, ghost looks: seq<Action>)
      requires Valid() && View().Actor(p) == Sized(size, c, 0) && Ran(s, acts, View())
      modifies this, mem
      ensures Valid() && Extends(old(recs), recs) && NewBy(old(recs), recs, p) == {}
      ensures View().Actor(p) == if ok then InLock(size, c) else Sized(size, c, SPIN_LIMIT)
      ensures Ran(s, acts', View()) && FailedLooks(looks, p, weak) && (!ok ==> |looks| == SPIN_LIMIT)
      ensures By(acts', Some(p)) == By(acts, Some(p)) + looks + (if ok then [Acquire(p)] else [])
    {
      hide Inv, Apply, Interfered, Extends, NewBy, Did, Ran, By;
      Unchanged(recs, p);
      var iterations := 0;
      acts', looks := acts, [];
      while true
        invariant Valid() && View().Actor(p) == Sized(size, c, iterations)
        invariant Extends(old(recs), recs) && NewBy(old(recs), recs, p) == {}
        invariant Ran(s, acts', View()) && FailedLooks(looks, p, weak) && |looks| == iterations
        invariant By(acts', Some(p)) == By(acts, Some(p)) + looks
        invariant 0 <= iterations < SPIN_LIMIT
        decreases SPIN_LIMIT - iterations
      {
        acts' := Meanwhile(p, old(recs), s, acts');
        ghost var m := View();
        var spurious := weak(iterations);
        ok := CompareExchange(p, spurious);
        ghost var a := if ok then Acquire(p) else if m.locked then LookTaken(p) else LookWeak(p);
        RanStep(s, acts', m, a, View());
        acts' := acts' + [a];
        if ok {
          return;
        }
        looks := looks + [a];
        iterations := iterations + 1;
        if iterations >= SPIN_LIMIT {
          return;
        }
        acts', looks, iterations := WaitFree(p, size, c, weak, iterations, s, acts, acts', looks, old(recs));
        if iterations >= SPIN_LIMIT {
          return;
        }
      }
    }

    /** The inner loop of the spin: loads while the lock is taken. */
    method WaitFree(ghost p: nat, ghost size: nat, ghost c: nat, ghost weak: nat -> bool, i: nat, ghost s: State,
                    ghost first: seq<Action>, ghost acts: seq<Action>, ghost tried: seq<Action>, ghost past: seq<Rec>)
      returns (ghost acts': seq<Action>, ghost looks: seq<Action>, iterations: nat)
      requires Valid() && View().Actor(p) == Sized(size, c, i) && Ran(s, acts, View()) && 0 < i < SPIN_LIMIT
      requires Extends(past, recs) && NewBy(past, recs, p) == {}
      requires FailedLooks(tried, p, weak) && |tried| == i && By(acts, Some(p)) == By(first, Some(p)) + tried
      modifies this, mem
      ensures Valid() && View().Actor(p) == Sized(size, c, iterations) && i <= iterations <= SPIN_LIMIT
      ensures Extends(past, recs) && NewBy(past, recs, p) == {}
      ensures Ran(s, acts', View()) && FailedLooks(looks, p, weak) && |looks| == iterations
      ensures By(acts', Some(p)) == By(first, Some(p)) + looks
    {
      hide Inv, Apply, Interfered, Extends, NewBy, Did, Ran, By;
      iterations := i;
      acts', looks := acts, tried;
      while true
        invariant Valid() && View().Actor(p) == Sized(size, c, iterations) && i <= iterations < SPIN_LIMIT
        invariant Extends(past, recs) && NewBy(past, recs, p) == {}
        invariant Ran(s, acts', View()) && FailedLooks(looks, p, weak) && |looks| == iterations
        invariant By(acts', Some(p)) == By(first, Some(p)) + looks
        decreases SPIN_LIMIT - iterations
      {
        acts' := Meanwhile(p, past, s, acts');
        ghost var m := View();
        var taken := LoadLock(p);
        if !taken {
          return;
        }
        RanStep(s, acts', m, LookTaken(p), View());
        acts', looks := acts' + [LookTaken(p)], looks + [LookTaken(p)];
        iterations := iterations + 1;
        if iterations >= SPIN_LIMIT {
          return;
        }
      }
    }

    /** The others run, and the run since `s` is extended accordingly. */
    method Meanwhile(ghost p: nat, ghost past: seq<Rec>, ghost s: State, ghost acts: seq<Action>)
      returns (ghost acts': seq<Action>)
      requires Valid() && Extends(past, recs) && Ran(s, acts, View())
      modifies this, mem
      ensures Valid() && MineKept(old(View()), View(), p) && Extends(old(recs), recs)
      ensures Extends(past, recs) && NewBy(past, recs, p) == NewBy(past, old(recs), p)
      ensures acts <= acts' && Ran(s, acts', View()) && By(acts', Some(p)) == By(acts, Some(p))
    {
      hide Inv, Interfered, Extends, NewBy, Ran, By;
      ghost var now, m := recs, View();
      Others(Some(p));
      NewByAdds(past, now, recs, p);
      acts' := RanOthers(s, acts, m, View(), Some(p));
    }

    /** The others run; `p` has reserved since `past` what it had before. */
    method Bystanders(ghost p: nat, ghost past: seq<Rec>)
      requires Valid() && Extends(past, recs)
      modifies this, mem
      ensures Valid() && MineKept(old(View()), View(), p) && Extends(old(recs), recs)
      ensures Extends(past, recs) && NewBy(past, recs, p) == NewBy(past, old(recs), p)
    {
      hide Inv, Interfered, Extends, NewBy;
      ghost var now := recs;
      Others(Some(p));
      NewByAdds(past, now, recs, p);
    }

    /** On success the caller alone owns a new busy record of the requested
        size; on failure it owns nothing new, and there is a reason: SPIN_LIMIT
        looks at the lock that failed, or two positions loaded with too little
        room between them. Whatever happens, entries of the log that were finished
        before the call are untouched. */
    method Reserve(ghost p: nat, size: nat, weak: nat -> bool) returns (r: Reserved, ghost slot: Slot)
      requires Valid() && View().Actor(p).Idle?
      modifies this, mem
      ensures Valid() && Extends(old(recs), recs)
      ensures Reserves(old(View()), View(), p, size, r, weak)
      ensures NewBy(old(recs), recs, p) == if r.Ok? then {slot.idx} else {}
      ensures r.Ok? ==> r.slot.pos == slot.pos && r.slot.size == slot.size == size
      ensures r.Ok? ==> View().Actor(p) == Filling(slot) && OwnsBusy(RingOf(View()), p, slot)
      ensures r.Ok? ==> slot.idx >= old(|recs|)
      ensures !r.Ok? ==> View().Actor(p).Idle?
      ensures r.InsufficientSpace? ==> r.consumer == old(consumer) && r.mask == mem.Length - 1
    {
      hide Inv, Apply, Interfered, OwnsBusy, RingOf, TotalSize, Extends, NewBy, Ran, Did, By, FailedLooks;
      hide ReserveSteps, Reserves, NoRoom;
      ghost var s := View();
      slot := Slot(0, 0, 0);
      var c, ok, acts, looks := Enter(p, size, weak);
      if !ok {
        ReservedSo(s, acts, View(), p, size, looks, LockTimeoutError, weak);
        return LockTimeoutError, slot;
      }
      ghost var at, loaded := View(), acts;
      var prod, fits := LoadProducerPos(p, size, c);
      RanStep(s, acts, at, LoadProducer(p), View());
      acts := Meanwhile(p, old(recs), s, acts + [LoadProducer(p)]);
      if !fits {
        r := InsufficientSpace(prod + TotalSize(size), c, mem.Length - 1);
        assert NoRoomAt(s, loaded, at, p, size, r);
        acts := Leave(p, s, acts);
        NoRoomHere(s, loaded, acts, at, p, size, r);
        ReservedSo(s, acts, View(), p, size, looks, r, weak);
        return;
      }
      ghost var now := recs;
      r, slot, acts := Claim(p, size, prod, s, acts);
      ReservedSo(s, acts, View(), p, size, looks, r, weak);
      NewByAdds(old(recs), now, recs, p);
      Longer(old(recs), now);
    }

    /** The consumer position is read first, the lock is taken after. */
    method Enter(ghost p: nat, size: nat, weak: nat -> bool)
      returns (c: nat, ok: bool, ghost acts: seq<Action>, ghost looks: seq<Action>)
      requires Valid() && View().Actor(p).Idle?
      modifies this, mem
      ensures Valid() && Extends(old(recs), recs) && NewBy(old(recs), recs, p) == {}
      ensures View().Actor(p) == (if ok then InLock(size, c) else Idle) && c == old(consumer)
      ensures Ran(old(View()), acts, View()) && FailedLooks(looks, p, weak) && (!ok ==> |looks| == SPIN_LIMIT)
      ensures By(acts, Some(p))
           == [LoadConsumer(p, size)] + looks + (if ok then [Acquire(p)] else [LockTimeout(p)])
    {
      hide Inv, Apply, Interfered, Extends, NewBy, Ran, Did, By, FailedLooks;
      ghost var s := View();
      NotYet(s, Some(p));
      c := LoadConsumerPos(p, size);
      RanStep(s, [], s, LoadConsumer(p, size), View());
      ok, acts, looks := TryLock(p, size, c, weak, s, [] + [LoadConsumer(p, size)]);
      ghost var m := View();
      if !ok {
        GiveUp(p);
        RanStep(s, acts, m, LockTimeout(p), View());
        acts := acts + [LockTimeout(p)];
      } else {
        acts := Meanwhile(p, old(recs), s, acts);
      }
    }

    /** The lock is released without a record. */
    method Leave(ghost p: nat, ghost s: State, ghost acts: seq<Action>) returns (ghost acts': seq<Action>)
      requires Valid() && View().Actor(p).Rejected? && Ran(s, acts, View())
      modifies this
      ensures Valid() && recs == old(recs) && View().Actor(p).Idle? && acts' == acts + [Release(p)]
      ensures Ran(s, acts', View()) && By(acts', Some(p)) == By(acts, Some(p)) + [Release(p)]
    {
      hide Inv, Apply, Ran, Did, By;
      ghost var m := View();
      Unlock(p);
      RanStep(s, acts, m, Release(p), View());
      acts' := acts + [Release(p)];
    }

    method Claim(ghost p: nat, size: nat, prod: nat, ghost s: State, ghost acts: seq<Action>)
      returns (r: Reserved, ghost slot: Slot, ghost acts': seq<Action>)
      requires Valid() && View().Actor(p).Measured? && View().Actor(p).size == size && View().Actor(p).prod == prod
      requires Ran(s, acts, View())
      modifies this, mem
      ensures Valid() && Extends(old(recs), recs) && NewBy(old(recs), recs, p) == {slot.idx}
      ensures r.Ok? && r.slot.pos == slot.pos && r.slot.size == slot.size == size
      ensures View().Actor(p) == Filling(slot) && OwnsBusy(RingOf(View()), p, slot)
      ensures slot.idx >= old(|recs|)
      ensures Ran(s, acts', View())
      ensures By(acts', Some(p)) == By(acts, Some(p)) + [WriteHeader(p), StoreProducer(p), Release(p)]
    {
      hide Inv, Apply, Interfered, Extends, NewBy, Ran, Did, By, OwnsBusy, RingOf;
      Unchanged(recs, p);
      ghost var m := View();
      StampHeader(p, size, prod);
      RanStep(s, acts, m, WriteHeader(p), View());
      acts' := Meanwhile(p, old(recs), s, acts + [WriteHeader(p)]);
      ghost var now := recs;
      slot, acts' := Extend(p, size, prod, s, acts');
      NewByAdds(old(recs), now, recs, p);
      Longer(old(recs), now);
      OwnsIt(View(), p);
      r := Reserved.Ok(Slot(prod, size, 0));
    }

    /** The producer position is stored and the lock released. */
    method Extend(ghost p: nat, size: nat, prod: nat, ghost s: State, ghost acts: seq<Action>)
      returns (ghost slot: Slot, ghost acts': seq<Action>)
      requires Valid() && View().Actor(p).Stamped? && View().Actor(p).size == size && View().Actor(p).prod == prod
      requires Ran(s, acts, View())
      modifies this, mem
      ensures Valid() && Extends(old(recs), recs) && NewBy(old(recs), recs, p) == {slot.idx}
      ensures slot.pos == prod && slot.size == size && slot.idx >= old(|recs|) && View().Actor(p) == Filling(slot)
      ensures Ran(s, acts', View()) && By(acts', Some(p)) == By(acts, Some(p)) + [StoreProducer(p), Release(p)]
    {
      hide Inv, Apply, Interfered, Extends, NewBy, Ran, Did, By, OwnsBusy, RingOf;
      ghost var m := View();
      slot := AdvanceProducer(p, size, prod);
      RanStep(s, acts, m, StoreProducer(p), View());
      acts' := Meanwhile(p, old(recs), s, acts + [StoreProducer(p)]);
      m := View();
      Unlock(p);
      RanStep(s, acts', m, Release(p), View());
      acts' := acts' + [Release(p)];
    }

    /** Copies bytes into an owned slice, from offset `at` on. */
    method FillAt(ghost p: nat, ghost slot: Slot, pos: nat, at: nat, data: seq<byte>)
      requires Valid() && View().Actor(p) == Filling(slot) && slot.pos == pos && at + |data| <= slot.size
      modifies this, mem
      ensures Valid() && Extends(old(recs), recs) && View().Actor(p) == Filling(slot)
      ensures NewBy(old(recs), recs, p) == {}
      ensures OwnsBusy(RingOf(View()), p, slot) && |recs[slot.idx].payload| == slot.size
      ensures slot.idx < |old(recs)| && |old(recs)[slot.idx].payload| == slot.size
      ensures recs[slot.idx].payload == Spliced(old(recs)[slot.idx].payload, at, data)
    {
      hide Inv, Apply, Interfered, NewBy;
      OwnsIt(View(), p);
      Unchanged(recs, p);
      ghost var before := recs[slot.idx].payload;
      var i := 0;
      while i < |data|
        invariant 0 <= i <= |data|
        invariant Valid() && Extends(old(recs), recs) && View().Actor(p) == Filling(slot)
        invariant NewBy(old(recs), recs, p) == {}
        invariant OwnsBusy(RingOf(View()), p, slot) && |recs[slot.idx].payload| == slot.size
        invariant recs[slot.idx].payload == Spliced(before, at, data[..i])
      {
        ghost var now := recs;
        PutByte(p, slot, pos, at + i, data[i]);
        NoneAdded(old(recs), now, recs, p);
        Bystanders(p, old(recs));
        SpliceOne(before, at, data, i);
        i := i + 1;
      }
      assert data[..i] == data;
    }

    /** Dropping the reserved buffer: commit it and wake the consumer. */
    method DropBuffer(ghost p: nat, ghost slot: Slot, pos: nat)
      requires Valid() && View().Actor(p) == Filling(slot) && slot.pos == pos
      modifies this, mem
      ensures Valid() && Extends(old(recs), recs) && View().Actor(p).Idle? && NewBy(old(recs), recs, p) == {}
      ensures slot.idx < |recs| && recs[slot.idx] == old(recs[slot.idx]).(status := Committed)
    {
      hide Inv, Apply, Interfered, RecShape, NewBy;
      OwnsIt(View(), p);
      Unchanged(recs, p);
      var discarded := CheckDiscarded(p, slot, pos);
      if !discarded {
        Bystanders(p, old(recs));
        ghost var now := recs;
        Commit(p, slot, pos);
        NewByAdds(old(recs), now, recs, p);
      }
      NotifyConsumer(p);
    }

    method Commit(ghost p: nat, ghost slot: Slot, pos: nat)
      requires Valid() && View().Actor(p) == Checked(slot) && slot.pos == pos
      modifies this, mem
      ensures Valid() && Extends(old(recs), recs) && View().Actor(p) == Finished(slot)
      ensures NewBy(old(recs), recs, p) == {}
      ensures slot.idx < |old(recs)| && recs[slot.idx] == old(recs)[slot.idx].(status := Committed)
    {
      hide Inv, Apply, Interfered, RecShape, NewBy;
      OwnsIt(View(), p);
      Unchanged(recs, p);
      var len := ReadForCommit(p, slot, pos);
      Bystanders(p, old(recs));
      ghost var now := recs;
      CloseHeader(p, slot, pos, len, false);
      NoneAdded(old(recs), now, recs, p);
      Bystanders(p, old(recs));
    }

    /** The look at the discard flag when the buffer is dropped: the record is
        still busy, so the flag is never found here. */
    method CheckDiscarded(ghost p: nat, ghost slot: Slot, pos: nat) returns (discarded: bool)
      requires Valid() && View().Actor(p) == Filling(slot) && slot.pos == pos
      modifies this
      ensures Valid() && recs == old(recs) && View().Actor(p) == Checked(slot) && !discarded
    {
      hide Inv;
      OwnsIt(View(), p);
      var w := HeaderAt(pos);
      discarded := HasFlag(FlagsOf(w), DISCARD_FLAG);
      OwnHeader(View(), p, slot);
      StepKeepsInv(View(), DropCheck(p));
      procs := procs[p := Checked(slot)];
    }

    /** The header load of `commit`. */
    method ReadForCommit(ghost p: nat, ghost slot: Slot, pos: nat) returns (len: nat)
      requires Valid() && View().Actor(p) == Checked(slot) && slot.pos == pos
      modifies this
      ensures Valid() && recs == old(recs) && View().Actor(p) == HeaderRead(slot, len)
    {
      hide Inv;
      var w := HeaderAt(pos);
      StepKeepsInv(View(), CommitLoad(p));
      len := LenOf(w);
      procs := procs[p := HeaderRead(slot, len)];
    }

    /** The header load of `discard`. */
    method ReadForDiscard(ghost p: nat, ghost slot: Slot, pos: nat) returns (len: nat)
      requires Valid() && View().Actor(p) == Filling(slot) && slot.pos == pos
      modifies this
      ensures Valid() && recs == old(recs) && View().Actor(p) == DiscardRead(slot, len)
    {
      hide Inv;
      var w := HeaderAt(pos);
      StepKeepsInv(View(), DiscardLoad(p));
      len := LenOf(w);
      procs := procs[p := DiscardRead(slot, len)];
    }

    /** Discarding instead: the record will never be delivered. Dropping the
        buffer then looks for the flag a second time. It is still there unless
        the record was consumed in between; if it is not, the drop commits
        whatever header is there now. The ring stays sound unless that store
        changes a byte in use; `lapse` is the state it is made in. */
    method Discard(ghost p: nat, ghost slot: Slot, pos: nat) returns (found: bool, ghost lapse: State)
      requires Valid() && View().Actor(p) == Filling(slot) && slot.pos == pos
      modifies this, mem
      ensures Extends(old(recs), recs) && View().Actor(p).Idle?
      ensures slot.idx < old(|recs|) <= |recs| && recs[slot.idx] == old(recs[slot.idx]).(status := Discarded)
      ensures found || Harmless(lapse, p) ==> Valid()
      ensures !found ==> Inv(lapse) && lapse.Actor(p).LapsedRead? && slot.idx < lapse.head == head
    {
      hide Inv, Apply, Interfered, Extends, NewBy, Did, Harmless;
      SetFlag(p, slot, pos);
      found := CheckAgain(p, slot, pos);
      Bystanders(p, old(recs));
      lapse := View();
      if !found {
        lapse := CommitAnyway(p, slot, pos, old(recs));
      }
      Longer(old(recs), recs);
      NotifyAfter(p);
    }

    /** The look at the discard flag after `discard`. */
    method CheckAgain(ghost p: nat, ghost slot: Slot, pos: nat) returns (found: bool)
      requires Valid() && View().Actor(p) == Flagged(slot) && slot.pos == pos
      modifies `procs
      ensures Did(old(View()), DropCheck(p), View()) && Valid()
      ensures View().Actor(p) == if found then Finished(slot) else Lapsed(slot)
    {
      hide Inv, LoadHeader, FlagsOf, HasFlag, BitAnd;
      var w := HeaderAt(pos);
      found := HasFlag(FlagsOf(w), DISCARD_FLAG);
      RecheckStep(View(), p);
      procs := procs[p := if found then Finished(slot) else Lapsed(slot)];
    }

    /** `commit` on a header that may be anybody's. */
    method CommitAnyway(ghost p: nat, ghost slot: Slot, pos: nat, ghost past: seq<Rec>) returns (ghost lapse: State)
      requires Valid() && View().Actor(p) == Lapsed(slot) && slot.pos == pos && Extends(past, recs)
      requires slot.idx < |recs| && recs[slot.idx].owner == p
      modifies this, mem
      ensures Inv(lapse) && Sane(lapse) && lapse.Actor(p).LapsedRead? && slot.idx < lapse.head == head
      ensures Did(lapse, CommitStore(p), View()) && View().Actor(p) == Finished(slot)
      ensures mem.Length == Pow2(k) && (Valid() <==> Harmless(lapse, p))
      ensures Extends(past, recs) && slot.idx < |recs| && recs[slot.idx] == old(recs[slot.idx])
    {
      hide Inv, Apply, Interfered, Extends, NewBy, Did, Harmless;
      var len := ReadLapsed(p, slot, pos);
      Bystanders(p, past);
      lapse := View();
      LapsedRetired(lapse, p);
      StoreLapsed(p, slot, pos, len);
    }

    method ReadLapsed(ghost p: nat, ghost slot: Slot, pos: nat) returns (len: nat)
      requires Valid() && View().Actor(p) == Lapsed(slot) && slot.pos == pos
      modifies `procs
      ensures Valid() && recs == old(recs) && View().Actor(p) == LapsedRead(slot, len)
    {
      hide Inv;
      var w := HeaderAt(pos);
      LapsedLoad(View(), p);
      len := LenOf(w);
      procs := procs[p := LapsedRead(slot, len)];
    }

    method StoreLapsed(ghost p: nat, ghost slot: Slot, pos: nat, len: nat)
      requires Valid() && View().Actor(p) == LapsedRead(slot, len) && slot.pos == pos
      modifies `procs, mem
      ensures Did(old(View()), CommitStore(p), View()) && mem.Length == Pow2(k)
      ensures View().Actor(p) == Finished(slot)
      ensures Valid() <==> Harmless(old(View()), p)
    {
      hide Inv, WriteBytes, LittleEndian, Pack, BitAnd, Spares;
      LapsedStore(View(), p);
      Store(BitAnd(pos, mem.Length - 1), LittleEndian(Pack(len, 0), HEADER_SIZE));
      procs := procs[p := Finished(slot)];
    }

    /** The notification, which makes nothing worse. */
    method NotifyAfter(ghost p: nat)
      requires mem.Length == Pow2(k) >= HEADER_SIZE && View().Actor(p).Finished?
      modifies `procs, `eventfd
      ensures Did(old(View()), Notify(p), View()) && View().Actor(p).Idle?
      ensures old(Valid()) ==> Valid()
    {
      hide Inv;
      if Inv(View()) {
        NotifyStep(View(), p);
      }
      if forced {
        eventfd := eventfd + 1;
      }
      procs := procs[p := Idle];
    }

    /** The first half: `discard` itself. */
    method SetFlag(ghost p: nat, ghost slot: Slot, pos: nat)
      requires Valid() && View().Actor(p) == Filling(slot) && slot.pos == pos
      modifies this, mem
      ensures Valid() && Extends(old(recs), recs) && View().Actor(p) == Flagged(slot)
      ensures slot.idx < old(|recs|) <= |recs| && recs[slot.idx] == old(recs[slot.idx]).(status := Discarded)
      ensures recs[slot.idx].owner == p
    {
      hide Inv, Apply, Interfered, RecShape;
      OwnsIt(View(), p);
      var len := ReadForDiscard(p, slot, pos);
      Others(Some(p));
      CloseHeader(p, slot, pos, len, true);
      Others(Some(p));
    }

    /** A whole submission: reserve, copy, commit. The log then holds the data
        as one committed record, or the reservation failed and left nothing. */
    method Publish(ghost p: nat, data: seq<byte>, weak: nat -> bool) returns (ok: bool, ghost idx: nat)
      requires Valid() && View().Actor(p).Idle?
      modifies this, mem
      ensures Valid() && Extends(old(recs), recs) && View().Actor(p).Idle?
      ensures NewBy(old(recs), recs, p) == if ok then {idx} else {}
      ensures ok ==> old(|recs|) <= idx < |recs| && recs[idx].owner == p
      ensures ok ==> recs[idx].status == Committed && recs[idx].payload == data
      ensures !ok ==> Refused(old(View()), View(), p, |data|, weak)
    {
      hide Inv, Apply, Interfered, NewBy, Reserves;
      idx := 0;
      var r, slot := Reserve(p, |data|, weak);
      ok := r.Ok?;
      if ok {
        Bystanders(p, old(recs));
        ghost var now := recs;
        FillAt(p, slot, r.slot.pos, 0, data);
        NewByAdds(old(recs), now, recs, p);
        Bystanders(p, old(recs));
        idx, now := slot.idx, recs;
        DropBuffer(p, slot, r.slot.pos);
        NewByAdds(old(recs), now, recs, p);
      }
    }

    /** The whole loop of `consume`: skips discarded records until it delivers
        the first committed one or finds nothing to deliver. It ends if the
        producers do not reserve for ever; `limit` is any bound on how many
        reservations there will be. */
    method Consume(ghost limit: nat) returns (r: Consumed)
      requires Valid() && (cons.Ready? || cons.Empty?) && |recs| <= limit
      modifies this, mem
      ensures Valid() && Extends(old(recs), recs) && !r.Skipped?
      ensures old(head) <= head <= |recs| && forall i | old(head) <= i < head :: recs[i].status == Discarded
      ensures r.Nothing? ==> cons.Empty? && delivered == old(delivered) && NoneReady(old(recs), head)
      ensures r.Delivered? ==> cons.Holding? && cons.next == r.next && delivered == old(delivered) + [r.data]
                               && head < |recs| && recs[head].status == Committed && r.data == recs[head].payload
    {
      hide Inv, Apply, Interfered, Extends;
      HeadInLog(View());
      Unchanged(recs, 0);
      r := Skipped(0);
      while r.Skipped?
        invariant Valid() && Extends(old(recs), recs) && |recs| <= limit
        invariant old(head) <= head <= |recs| && forall i | old(head) <= i < head :: recs[i].status == Discarded
        invariant r.Skipped? ==> (cons.Ready? || cons.Empty?) && delivered == old(delivered)
        invariant r.Nothing? ==> cons.Empty? && delivered == old(delivered) && NoneReady(old(recs), head)
        invariant r.Delivered? ==> cons.Holding? && cons.next == r.next && delivered == old(delivered) + [r.data]
                                   && head < |recs| && recs[head].status == Committed && r.data == recs[head].payload
        decreases limit - head, r.Skipped?
      {
        ghost var before := recs;
        r := ConsumeOnce(limit);
        NewByAdds(old(recs), before, recs, 0);
        DiscardedStay(before, recs);
        NoneReadyBefore(old(recs), before, head);
        HeadInLog(View());
      }
    }

    /** One trip round that loop. */
    method ConsumeOnce(ghost limit: nat) returns (r: Consumed)
      requires Valid() && (cons.Ready? || cons.Empty?) && |recs| <= limit
      modifies this, mem
      ensures Valid() && Extends(old(recs), recs) && |recs| <= limit
      ensures r.Nothing? ==> cons.Empty? && delivered == old(delivered) && head == old(head)
                             && NoneReady(old(recs), head)
      ensures r.Skipped? ==> cons.Ready? && delivered == old(delivered) && head == old(head) + 1
                             && head <= |recs| && recs[head - 1].status == Discarded
      ensures r.Delivered? ==> cons.Holding? && cons.next == r.next && head == old(head)
                               && delivered == old(delivered) + [r.data]
                               && head < |recs| && recs[head].status == Committed && r.data == recs[head].payload
    {
      hide Inv, Apply, Interfered, Extends, NewBy, Continues;
      ghost var first := recs;
      var pos, available := LookForRecord(limit);
      if !available {
        NoneReadyBefore(first, recs, head);
        return Nothing;
      }
      ghost var now := recs;
      Producers(limit);
      NewByAdds(first, now, recs, 0);
      r := TakeRecord(pos);
      NoneReadyBefore(first, recs, head);
      if r.Skipped? {
        now := recs;
        Producers(limit);
        NewByAdds(first, now, recs, 0);
        DiscardedStay(now, recs);
        AdvanceConsumer(pos + r.total, true);
      }
    }

    /** Loads both positions; a record is there unless they meet. */
    method LookForRecord(ghost limit: nat) returns (pos: nat, available: bool)
      requires Valid() && (cons.Ready? || cons.Empty?) && |recs| <= limit
      modifies this, mem
      ensures Valid() && Extends(old(recs), recs) && delivered == old(delivered) && head == old(head)
      ensures |recs| <= limit && (!available ==> head == |recs|)
      ensures cons == if available then GotProd(pos) else Empty
    {
      hide Inv;
      StepKeepsInv(View(), ConsumeBegin);
      pos := consumer;
      cons := GotCons(pos);
      Producers(limit);
      StepKeepsInv(View(), ConsumeLoadProducer);
      available := !(pos >= producer);
      PositionsMeet(View());
      cons := if available then GotProd(pos) else Empty;
    }

    /** Decides by the header what to do with the record at `pos`. */
    method TakeRecord(pos: nat) returns (r: Consumed)
      requires Valid() && cons == GotProd(pos)
      modifies this
      ensures Valid() && recs == old(recs) && head == old(head) < |recs|
      ensures r.Nothing? ==> cons.Empty? && delivered == old(delivered) && recs[head].status == Busy
      ensures r.Skipped? ==> cons == Skipping(pos + r.total) && delivered == old(delivered)
                             && recs[head].status == Discarded
      ensures r.Delivered? ==> cons.Holding? && cons.next == r.next
                               && delivered == old(delivered) + [r.data]
                               && recs[head].status == Committed && r.data == recs[head].payload
    {
      hide Inv, ReadBytes, LoadHeader, LenOf, FlagsOf, BitAnd, RoundUp8;
      HeadAt(View());
      var w := InspectHeader(pos);
      var total := RoundUp8(HEADER_SIZE + LenOf(w));
      if HasFlag(FlagsOf(w), BUSY_FLAG) {
        return Nothing;
      }
      if HasFlag(FlagsOf(w), DISCARD_FLAG) {
        return Skipped(total);
      }
      var data := Fetch(BitAnd(pos, mem.Length - 1) + HEADER_SIZE, LenOf(w));
      return Delivered(data, pos + total);
    }

    /** Loads the header at the consumer position. */
    method InspectHeader(pos: nat) returns (w: nat)
      requires Valid() && cons == GotProd(pos)
      modifies this
      ensures Did(old(View()), ConsumeLoadHeader, View()) && Valid()
      ensures w == LoadHeader(mem[..], BitAnd(pos, Pow2(k) - 1))
    {
      hide Inv;
      w := HeaderAt(pos);
      StepKeepsInv(View(), ConsumeLoadHeader);
      ghost var r := Apply(View(), ConsumeLoadHeader);
      cons, delivered := r.cons, r.delivered;
    }

    /** Stores the consumer position, for a skipped or a dropped record. */
    method AdvanceConsumer(next: nat, skip: bool)
      requires Valid() && (if skip then cons == Skipping(next) else cons.Holding? && cons.next == next)
      modifies this
      ensures Did(old(View()), if skip then ConsumeSkip else DropRecord, View()) && Valid()
      ensures cons.Ready? && head == old(head) + 1 && recs == old(recs) && delivered == old(delivered)
    {
      hide Inv;
      StepKeepsInv(View(), if skip then ConsumeSkip else DropRecord);
      consumer := next;
      head := head + 1;
      cons := Ready;
    }

    /** Blocks until the eventfd is readable; here: when it is. */
    method WaitReady()
      requires Valid() && Enabled(View(), Wait)
      modifies this
      ensures Did(old(View()), Wait, View()) && Valid()
    {
      hide Inv;
      StepKeepsInv(View(), Wait);
      eventfd := 0;
      cons := Ready;
    }
  }
}
