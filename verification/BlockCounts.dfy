/** Depth counters against the requests they count, and the time integrals they
    accumulate, over every run of the kernel program. */
module BlockCounts {
  import opened Naturals
  import opened BlockDepth
  import opened BlockRequests

  // ------------------------------------------------------- counting requests

  function InFlight(m: map<nat, Request>, dev: nat): set<nat> {
    set id | id in m && m[id].issued && m[id].dev == dev
  }

  function InQueue(m: map<nat, Request>, dev: nat): set<nat> {
    set id | id in m && m[id].inserted && m[id].dev == dev
  }

  function Bit(b: bool): nat {
    if b then 1 else 0
  }

  predicate Flies(m: map<nat, Request>, id: nat, dev: nat) {
    id in m && m[id].issued && m[id].dev == dev
  }

  predicate Waits(m: map<nat, Request>, id: nat, dev: nat) {
    id in m && m[id].inserted && m[id].dev == dev
  }

  /** Changing the entry of one request changes the counts by its share. */
  lemma CountChange(m: map<nat, Request>, m': map<nat, Request>, id: nat, dev: nat)
    requires forall j | j != id :: (j in m <==> j in m') && (j in m ==> m[j] == m'[j])
    ensures |InFlight(m', dev)| + Bit(Flies(m, id, dev)) == |InFlight(m, dev)| + Bit(Flies(m', id, dev))
    ensures |InQueue(m', dev)| + Bit(Waits(m, id, dev)) == |InQueue(m, dev)| + Bit(Waits(m', id, dev))
  {
    var f, f', q, q' := InFlight(m, dev), InFlight(m', dev), InQueue(m, dev), InQueue(m', dev);
    OneChange(f, f', id);
    OneChange(q, q', id);
  }

  lemma OneChange(a: set<nat>, b: set<nat>, id: nat)
    requires forall j | j != id :: j in a <==> j in b
    ensures |b| + Bit(id in a) == |a| + Bit(id in b)
  {
    assert a - {id} == b - {id};
    Without(a, id);
    Without(b, id);
  }

  lemma Without(s: set<nat>, x: nat)
    ensures |s| == |s - {x}| + Bit(x in s)
  {
    if x in s {
      assert s == (s - {x}) + {x};
    } else {
      assert s == s - {x};
    }
  }

  /** Every registered device's counters are the numbers of its requests. */
  predicate Counts(s: State) {
    forall dev | dev in s.depths ::
      s.depths[dev].inflight == |InFlight(s.requests, dev)| && s.depths[dev].queued == |InQueue(s.requests, dev)|
  }

  /** A request keeps the device and operation it was first seen with. */
  predicate Steady(s: State, e: Event) {
    !e.Merge? && e.id in s.requests ==> s.requests[e.id].dev == e.dev && s.requests[e.id].op == e.op
  }

  /** The one way to lose count: a final completion in the same nanosecond as
      (or before) the last issue, which the guard on the decrement skips. */
  predicate Leaks(c: Config, s: State, e: Event) {
    && e.Complete? && c.tracking && ShouldTrack(c, e.dev, e.op)
    && e.id in s.requests && Finishes(s.requests[e.id], e)
    && s.requests[e.id].issued && e.now <= s.requests[e.id].issueNs
    && s.requests[e.id].dev in s.depths
  }

  predicate LeaksOf(c: Config, s: State, e: Event, dev: nat) {
    Leaks(c, s, e) && s.requests[e.id].dev == dev
  }

  /** How one event moves the levels of one device: as its requests, but a leak
      leaves the in-flight level one higher. */
  predicate LevelsFollow(s: State, r: State, dev: nat, leak: bool)
    requires dev in s.depths && dev in r.depths
  {
    && r.depths[dev].inflight - s.depths[dev].inflight
       == |InFlight(r.requests, dev)| - |InFlight(s.requests, dev)| + Bit(leak)
    && r.depths[dev].queued - s.depths[dev].queued == |InQueue(r.requests, dev)| - |InQueue(s.requests, dev)|
  }

  /** No counter is below the number of requests it counts. */
  predicate Covers(s: State, dev: nat) {
    dev in s.depths ==>
      s.depths[dev].inflight >= |InFlight(s.requests, dev)| && s.depths[dev].queued >= |InQueue(s.requests, dev)|
  }

  lemma Present(s: State, id: nat, dev: nat)
    requires Covers(s, dev) && dev in s.depths
    ensures Flies(s.requests, id, dev) ==> s.depths[dev].inflight >= 1
    ensures Waits(s.requests, id, dev) ==> s.depths[dev].queued >= 1
  {
    if Flies(s.requests, id, dev) {
      assert {id} <= InFlight(s.requests, dev);
      Within({id}, InFlight(s.requests, dev));
    }
    if Waits(s.requests, id, dev) {
      assert {id} <= InQueue(s.requests, dev);
      Within({id}, InQueue(s.requests, dev));
    }
  }

  lemma Within(a: set<nat>, b: set<nat>)
    requires a <= b
    ensures |a| <= |b|
  {
    assert b == a + (b - a);
  }

  /** The moves one event makes at one device. */
  datatype Moves = Stay | One(dq: int, di: int) | Two(dq1: int, di1: int, dq2: int, di2: int)

  function Moved(d: Depth, m: Moves, t: nat): Depth {
    match m
    case Stay => d
    case One(dq, di) => Adjust(d, dq, di, t)
    case Two(dq1, di1, dq2, di2) => Adjust(Adjust(d, dq1, di1, t), dq2, di2, t)
  }

  function Join(dq: int, di: int, dq': int, di': int): Moves {
    if dq == 0 && di == 0 then (if dq' == 0 && di' == 0 then Stay else One(dq', di'))
    else if dq' == 0 && di' == 0 then One(dq, di)
    else Two(dq, di, dq', di')
  }

  /** Which counters of `dev` an event changes, and in which order. */
  function MovesAt(c: Config, s: State, e: Event, dev: nat): Moves {
    if !c.tracking || !c.saturation || e.Merge? || !ShouldTrack(c, e.dev, e.op) then Stay
    else if e.id !in s.requests then
      if (e.Insert? || e.Issue?) && !e.full && dev == e.dev
      then (if e.Insert? then One(1, 0) else One(0, 1)) else Stay
    else
      var r := s.requests[e.id];
      match e
      case Insert(_, _, _, _, _, _, _) =>
        if dev == e.dev && !r.inserted && !r.issued then One(1, 0) else Stay
      case Issue(_, _, _, _, _, _, _) =>
        if dev != e.dev then Stay else Join(if r.inserted then -1 else 0, 0, 0, if r.issued then 0 else 1)
      case Requeue(_, _, _, _, _) =>
        if dev == r.dev && r.issued && e.now > r.issueNs then One(0, -1) else Stay
      case Complete(_, _, _, _, _, _, _) =>
        if dev != r.dev || !Finishes(r, e) then Stay
        else Join(0, if r.issued && e.now > r.issueNs then -1 else 0, if r.inserted then -1 else 0, 0)
  }

  lemma StepMoves(c: Config, s: State, e: Event, dev: nat)
    requires dev in s.depths
    ensures Step(c, s, e).depths.Keys == s.depths.Keys
    ensures Step(c, s, e).depths[dev] == Moved(s.depths[dev], MovesAt(c, s, e, dev), e.now)
  {
    hide RecordBytes, RecordCompletion, RecordLost, RecordRequeue, Adjust;
  }

  function MoveBy(level: nat, a: int, b: int): nat {
    Move(Move(level, a), b)
  }

  lemma MovedLevels(d: Depth, m: Moves, t: nat)
    ensures Moved(d, m, t).inflight == match m
      case Stay => d.inflight
      case One(_, di) => Move(d.inflight, di)
      case Two(_, a, _, b) => MoveBy(d.inflight, a, b)
    ensures Moved(d, m, t).queued == match m
      case Stay => d.queued
      case One(dq, _) => Move(d.queued, dq)
      case Two(a, _, b, _) => MoveBy(d.queued, a, b)
  {
  }

  /** How an event changes the standing of the request it names. */
  lemma StepRequest(c: Config, s: State, e: Event, dev: nat)
    requires Steady(s, e)
    ensures var m, m' := s.requests, Step(c, s, e).requests;
      && (forall j | j != e.id :: (j in m <==> j in m') && (j in m ==> m[j] == m'[j]))
      && Standing(c, s, e, dev, Flies(m', e.id, dev), Waits(m', e.id, dev))
  {
    hide RecordBytes, RecordCompletion, RecordLost, RecordRequeue, AdjustDepth;
  }

  /** Whether the named request is in flight and whether it is queued after the
      event, given where it stood before. */
  predicate Standing(c: Config, s: State, e: Event, dev: nat, flies: bool, waits: bool) {
    var f, w := Flies(s.requests, e.id, dev), Waits(s.requests, e.id, dev);
    if !c.tracking || e.Merge? || !ShouldTrack(c, e.dev, e.op) then flies == f && waits == w
    else
      match e
      case Insert(_, _, _, _, _, full, _) =>
        flies == f && waits == (dev == e.dev && (if e.id !in s.requests then !full
                                                else s.requests[e.id].inserted || !s.requests[e.id].issued))
      case Issue(_, _, _, _, _, full, _) =>
        if e.id !in s.requests && full then flies == f && waits == w
        else flies == (dev == e.dev) && !waits
      case Requeue(_, _, _, _, _) =>
        waits == w && flies == (f && !(e.now > s.requests[e.id].issueNs))
      case Complete(_, _, _, _, _, _, _) =>
        if e.id in s.requests && Finishes(s.requests[e.id], e) then !flies && !waits
        else flies == f && waits == w
  }

  lemma StepLevels(c: Config, s: State, e: Event, dev: nat)
    requires c.saturation && Covers(s, dev) && Steady(s, e) && dev in s.depths
    ensures dev in Step(c, s, e).depths && LevelsFollow(s, Step(c, s, e), dev, LeaksOf(c, s, e, dev))
  {
    hide Step, Adjust, Covers, Moved, InFlight, InQueue;
    var r := Step(c, s, e);
    StepMoves(c, s, e, dev);
    MovedLevels(s.depths[dev], MovesAt(c, s, e, dev), e.now);
    StepRequest(c, s, e, dev);
    CountChange(s.requests, r.requests, e.id, dev);
    Present(s, e.id, dev);
  }

  lemma StepKeys(c: Config, s: State, e: Event)
    ensures Step(c, s, e).depths.Keys == s.depths.Keys
  {
    hide RecordBytes, RecordCompletion, RecordLost, RecordRequeue, Adjust;
  }

  /** One event keeps every counter exact, unless it leaks; and if it leaks,
      the counter of that device is no longer exact. */
  lemma StepCountsIff(c: Config, s: State, e: Event)
    requires c.saturation && Counts(s) && Steady(s, e)
    ensures Counts(Step(c, s, e)) <==> !Leaks(c, s, e)
  {
    hide Step, InFlight, InQueue;
    var r := Step(c, s, e);
    StepKeys(c, s, e);
    forall dev | dev in s.depths ensures LevelsFollow(s, r, dev, LeaksOf(c, s, e, dev)) {
      StepLevels(c, s, e, dev);
    }
    if Leaks(c, s, e) {
      assert LevelsFollow(s, r, s.requests[e.id].dev, true);
    }
  }

  // ------------------------------------------------------------- whole runs

  predicate SteadyRun(c: Config, s: State, es: seq<Event>) {
    es == [] || (SteadyRun(c, s, es[..|es| - 1]) && Steady(Run(c, s, es[..|es| - 1]), es[|es| - 1]))
  }

  predicate LeakFree(c: Config, s: State, es: seq<Event>) {
    es == [] || (LeakFree(c, s, es[..|es| - 1]) && !Leaks(c, Run(c, s, es[..|es| - 1]), es[|es| - 1]))
  }

  /** How many requests of `dev` a run has leaked. */
  function LeakCount(c: Config, s: State, es: seq<Event>, dev: nat): nat {
    if es == [] then 0
    else
      LeakCount(c, s, es[..|es| - 1], dev) + Bit(LeaksOf(c, Run(c, s, es[..|es| - 1]), es[|es| - 1], dev))
  }

  /** The requests of `dev` in flight, with the leaked ones counted as in flight
      for ever. */
  function Flying(c: Config, s: State, es: seq<Event>, dev: nat): nat {
    |InFlight(Run(c, s, es).requests, dev)| + LeakCount(c, s, es, dev)
  }

  predicate CountsLeaks(c: Config, s: State, es: seq<Event>, dev: nat) {
    var r := Run(c, s, es);
    && dev in r.depths
    && r.depths[dev].inflight == Flying(c, s, es, dev)
    && r.depths[dev].queued == |InQueue(r.requests, dev)|
  }

  /** Over every run the queue counter is exact, and the in-flight counter is too
      high by exactly the number of leaks so far, whatever the order of events and
      whether or not the kernel had room for every request. */
  lemma {:induction false} RunLeaks(c: Config, devices: set<nat>, at: nat, es: seq<Event>, dev: nat)
    requires c.saturation && SteadyRun(c, Boot(devices, at), es) && dev in devices
    ensures CountsLeaks(c, Boot(devices, at), es, dev)
    decreases |es|
  {
    hide Step, InFlight, InQueue, Leaks, Steady;
    if es == [] {
      NothingFlies(dev);
    } else {
      var init := es[..|es| - 1];
      RunLeaks(c, devices, at, init, dev);
      StepLevels(c, Run(c, Boot(devices, at), init), es[|es| - 1], dev);
    }
  }

  /** The most requests of `dev` that were ever in flight, and ever queued. */
  datatype Peak = Peak(flying: nat, queued: nat)

  function PeakOf(c: Config, s: State, es: seq<Event>, dev: nat): Peak {
    var now := Peak(Flying(c, s, es, dev), |InQueue(Run(c, s, es).requests, dev)|);
    if es == [] then now
    else
      var before := PeakOf(c, s, es[..|es| - 1], dev);
      Peak(Max(before.flying, now.flying), Max(before.queued, now.queued))
  }

  lemma MovesPeak(c: Config, s: State, e: Event, d: Depth, dev: nat)
    requires d.inflight <= d.maxInflight && d.queued <= d.maxQueued
    ensures var a := Moved(d, MovesAt(c, s, e, dev), e.now);
      a.maxInflight == Max(d.maxInflight, a.inflight) && a.maxQueued == Max(d.maxQueued, a.queued)
  {
  }

  /** Over every run the maxima are the highest levels there were. */
  lemma {:induction false} RunPeaks(c: Config, devices: set<nat>, at: nat, es: seq<Event>, dev: nat)
    requires c.saturation && SteadyRun(c, Boot(devices, at), es) && dev in devices
    ensures var r := Run(c, Boot(devices, at), es);
      && dev in r.depths
      && Peak(r.depths[dev].maxInflight, r.depths[dev].maxQueued) == PeakOf(c, Boot(devices, at), es, dev)
    decreases |es|
  {
    hide Step, InFlight, InQueue, Leaks, Steady, LeakCount, Moved, MovesAt;
    RunLeaks(c, devices, at, es, dev);
    if es != [] {
      var init := es[..|es| - 1];
      var s := Run(c, Boot(devices, at), init);
      RunPeaks(c, devices, at, init, dev);
      RunLeaks(c, devices, at, init, dev);
      StepMoves(c, s, es[|es| - 1], dev);
      MovesPeak(c, s, es[|es| - 1], s.depths[dev], dev);
    }
  }

  lemma NothingFlies(dev: nat)
    ensures InFlight(map[], dev) == {} && InQueue(map[], dev) == {}
  {
  }

  lemma {:induction false} LeakFreeIff(c: Config, devices: set<nat>, at: nat, es: seq<Event>)
    ensures LeakFree(c, Boot(devices, at), es)
       <==> forall dev | dev in devices :: LeakCount(c, Boot(devices, at), es, dev) == 0
    decreases |es|
  {
    hide Step, Run;
    if es != [] {
      var init, e := es[..|es| - 1], es[|es| - 1];
      LeakFreeIff(c, devices, at, init);
      var s := Run(c, Boot(devices, at), init);
      RunKeys(c, Boot(devices, at), init);
      if Leaks(c, s, e) {
        assert s.requests[e.id].dev in devices;
        assert LeakCount(c, Boot(devices, at), es, s.requests[e.id].dev) > 0;
      }
      forall dev | dev in devices
        ensures LeakCount(c, Boot(devices, at), init, dev) <= LeakCount(c, Boot(devices, at), es, dev)
      {
      }
    }
  }

  /** So after any run every counter equals the number of requests it counts if
      and only if no final completion of the run came at its issue time. */
  lemma RunCounts(c: Config, devices: set<nat>, at: nat, es: seq<Event>)
    requires c.saturation && SteadyRun(c, Boot(devices, at), es)
    ensures Counts(Run(c, Boot(devices, at), es)) <==> LeakFree(c, Boot(devices, at), es)
  {
    hide Run, LeakCount, InFlight, InQueue, LeakFree, SteadyRun;
    forall dev | dev in devices ensures CountsLeaks(c, Boot(devices, at), es, dev) {
      RunLeaks(c, devices, at, es, dev);
    }
    RunKeys(c, Boot(devices, at), es);
    LeakFreeIff(c, devices, at, es);
  }

  /** What the moves of an event ask for, before any guard. */
  function Asked(m: Moves): (int, int) {
    match m
    case Stay => (0, 0)
    case One(dq, di) => (dq, di)
    case Two(dq1, di1, dq2, di2) => (dq1 + dq2, di1 + di2)
  }

  /** After any run, leaks or not, the next event moves every counter by exactly
      what it asks for: the guards against going below zero never fire. */
  lemma GuardsNeverFire(c: Config, devices: set<nat>, at: nat, es: seq<Event>, e: Event, dev: nat)
    requires c.saturation && SteadyRun(c, Boot(devices, at), es)
    requires Steady(Run(c, Boot(devices, at), es), e) && dev in devices
    ensures var s := Run(c, Boot(devices, at), es);
      var r, m := Step(c, s, e), MovesAt(c, s, e, dev);
      && dev in s.depths && dev in r.depths
      && r.depths[dev].queued == s.depths[dev].queued + Asked(m).0
      && r.depths[dev].inflight == s.depths[dev].inflight + Asked(m).1
  {
    var s := Run(c, Boot(devices, at), es);
    RunLeaks(c, devices, at, es, dev);
    hide Run, Step, Adjust, Moved;
    StepMoves(c, s, e, dev);
    MovedLevels(s.depths[dev], MovesAt(c, s, e, dev), e.now);
    Present(s, e.id, dev);
  }

  lemma {:induction false} RunKeys(c: Config, s: State, es: seq<Event>)
    ensures Run(c, s, es).depths.Keys == s.depths.Keys
    decreases |es|
  {
    hide Step;
    if es != [] {
      RunKeys(c, s, es[..|es| - 1]);
      StepKeys(c, Run(c, s, es[..|es| - 1]), es[|es| - 1]);
    }
  }

  /** A run that leaks once, and the counter it leaves behind. */
  lemma LeakExample()
    ensures var c := Config(true, true, true, true, true, true, {Read}, false, {});
      var es := [Issue(100, 1, 8, Read, 4096, false, false), Complete(100, 1, 8, Read, false, 4096, false)];
      var s := Run(c, Boot({8}, 1), es);
      SteadyRun(c, Boot({8}, 1), es) && Orderly(es, 1)
      && 8 in s.depths && s.requests == map[] && s.depths[8].inflight == 1
  {
    var c := Config(true, true, true, true, true, true, {Read}, false, {});
    hide RecordBytes, RecordCompletion, RecordLost, RecordRequeue;
    var e1, e2 := Issue(100, 1, 8, Read, 4096, false, false), Complete(100, 1, 8, Read, false, 4096, false);
    var es := [e1, e2];
    var s0 := Boot({8}, 1);
    assert es[..1] == [e1] && [e1][..0] == [];
    var s1 := Step(c, s0, e1);
    assert Run(c, s0, [e1]) == s1;
    assert Run(c, s0, es) == Step(c, s1, e2);
    assert Step(c, s1, e2).requests == map[];
  }

  // ---------------------------------------------------------- time integrals

  /** How many events have happened by time `t`. */
  function Happened(es: seq<Event>, t: nat): (u: nat)
    ensures u <= |es|
  {
    if es == [] then 0
    else if es[|es| - 1].now <= t then |es|
    else Happened(es[..|es| - 1], t)
  }

  /** One nanosecond spent with the requests there are after `es`. */
  function Moment(c: Config, s: State, es: seq<Event>, dev: nat): Times {
    Spent(1, Flying(c, s, es, dev), |InQueue(Run(c, s, es).requests, dev)|)
  }

  /** Time from `lo` to `hi`, nanosecond by nanosecond: how long at least one
      request of `dev` was in flight, how long at least one was queued, and the
      sums over time of how many were. A leaked request stays in flight. */
  function Integral(c: Config, s: State, es: seq<Event>, dev: nat, lo: nat, hi: nat): Times
    decreases hi
  {
    if hi <= lo then Times(0, 0, 0, 0)
    else Plus(Integral(c, s, es, dev, lo, hi - 1), Moment(c, s, es[..Happened(es, hi - 1)], dev))
  }

  /** Events later than `hi` do not matter. */
  lemma {:induction false} IntegralFrame(c: Config, s: State, es: seq<Event>, dev: nat, lo: nat, hi: nat)
    requires es != [] && hi <= es[|es| - 1].now
    ensures Integral(c, s, es, dev, lo, hi) == Integral(c, s, es[..|es| - 1], dev, lo, hi)
    decreases hi
  {
    hide Moment, Plus, Happened;
    if lo < hi {
      IntegralFrame(c, s, es, dev, lo, hi - 1);
      NotYet(es, hi - 1);
    }
  }

  lemma NotYet(es: seq<Event>, t: nat)
    requires es != [] && t < es[|es| - 1].now
    ensures var init := es[..|es| - 1]; init[..Happened(init, t)] == es[..Happened(es, t)]
  {
  }

  /** After the last event the levels stay what they are. */
  lemma {:induction false} IntegralTail(c: Config, s: State, es: seq<Event>, dev: nat, lo: nat, t: nat, now: nat)
    requires lo <= t <= now && (es != [] ==> es[|es| - 1].now <= t)
    ensures Integral(c, s, es, dev, lo, now)
      == Plus(Integral(c, s, es, dev, lo, t),
              Spent(now - t, Flying(c, s, es, dev), |InQueue(Run(c, s, es).requests, dev)|))
    decreases now
  {
    hide Spent, Plus, Run, Flying;
    var i, q := Flying(c, s, es, dev), |InQueue(Run(c, s, es).requests, dev)|;
    if t < now {
      IntegralTail(c, s, es, dev, lo, t, now - 1);
      assert es[..|es|] == es;
      SpentAdds(now - 1 - t, 1, i, q);
      PlusAssociates(Integral(c, s, es, dev, lo, t), Spent(now - 1 - t, i, q), Spent(1, i, q));
    } else {
      NothingSpent(Integral(c, s, es, dev, lo, t), i, q);
    }
  }

  /** One event, whatever it does to a device's entry, loses no time. */
  lemma StepSnapshot(c: Config, s: State, e: Event, dev: nat, now: nat)
    requires dev in s.depths && Current(s.depths[dev], e.now) && e.now <= now
    ensures var r := Step(c, s, e);
      && r.depths.Keys == s.depths.Keys
      && Current(r.depths[dev], now) && Current(r.depths[dev], e.now)
      && TimesOf(TakeSnapshot(r.depths[dev], now))
         == Plus(TimesOf(TakeSnapshot(s.depths[dev], e.now)),
                 Spent(now - e.now, r.depths[dev].inflight, r.depths[dev].queued))
  {
    StepMoves(c, s, e, dev);
    MovesKeepTimes(s.depths[dev], MovesAt(c, s, e, dev), e.now, now);
  }

  lemma MovesKeepTimes(d: Depth, m: Moves, t: nat, now: nat)
    requires Current(d, t) && t <= now
    ensures var a := Moved(d, m, t);
      && Current(a, now) && Current(a, t) && a.firstSeen == d.firstSeen
      && TimesOf(TakeSnapshot(a, now)) == Plus(TimesOf(TakeSnapshot(d, t)), Spent(now - t, a.inflight, a.queued))
  {
    match m {
      case Stay => SnapshotGrows(d, t, now);
      case One(dq, di) => AdjustKeepsTimes(d, dq, di, t, now);
      case Two(dq1, di1, dq2, di2) =>
        AdjustKeepsTimes(d, dq1, di1, t, t);
        AdjustKeepsTimes(Adjust(d, dq1, di1, t), dq2, di2, t, now);
    }
  }

  lemma BootTimes(at: nat)
    ensures TimesOf(TakeSnapshot(Registered(at), at)) == Times(0, 0, 0, 0)
  {
  }

  /** What userspace reads is the exact integral over the event history: for
      every run and every later moment, the snapshot's busy, saturated,
      in-flight and queued times are those of the requests themselves. */
  lemma {:induction false} SnapshotIsIntegral(c: Config, devices: set<nat>, at: nat, es: seq<Event>, dev: nat, now: nat)
    requires c.saturation && 0 < at <= now && dev in devices
    requires Orderly(es, at) && (es != [] ==> es[|es| - 1].now <= now)
    requires SteadyRun(c, Boot(devices, at), es)
    ensures var s := Run(c, Boot(devices, at), es);
      && dev in s.depths && Current(s.depths[dev], now)
      && TimesOf(TakeSnapshot(s.depths[dev], now)) == Integral(c, Boot(devices, at), es, dev, at, now)
    decreases |es|
  {
    var s0 := Boot(devices, at);
    hide Plus, Spent, Step, TakeSnapshot, Flying, InQueue, Integral;
    RunLeaks(c, devices, at, es, dev);
    if es == [] {
      NoTime(c, s0, es, dev, at);
      IntegralTail(c, s0, es, dev, at, at, now);
      SnapshotGrows(s0.depths[dev], at, now);
      BootTimes(at);
    } else {
      var init, e := es[..|es| - 1], es[|es| - 1];
      assert Orderly(init, at);
      SnapshotIsIntegral(c, devices, at, init, dev, e.now);
      StepSnapshot(c, Run(c, s0, init), e, dev, now);
      IntegralFrame(c, s0, es, dev, at, e.now);
      IntegralTail(c, s0, es, dev, at, e.now, now);
    }
  }

  lemma NoTime(c: Config, s: State, es: seq<Event>, dev: nat, t: nat)
    ensures Integral(c, s, es, dev, t, t) == Times(0, 0, 0, 0)
  {
  }

  /** In a run without leaks those are the integrals of the requests alone. */
  lemma FlyingIsInFlight(c: Config, devices: set<nat>, at: nat, es: seq<Event>, dev: nat)
    requires LeakFree(c, Boot(devices, at), es) && dev in devices
    ensures Flying(c, Boot(devices, at), es, dev) == |InFlight(Run(c, Boot(devices, at), es).requests, dev)|
  {
    LeakFreeIff(c, devices, at, es);
  }
}
