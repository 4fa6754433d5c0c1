/** Userspace sampling of the depth counters: what the windows add up to, what
    each one measures and how large it can be, over every run of the kernel
    program and every schedule of samples. A sample reads the clock first and the
    maps after, while the kernel program goes on, so an entry can be newer than
    the clock reading it is sampled with. */
module BlockSampling {
  import opened Naturals
  import opened Wrappers
  import opened BlockDepth
  import opened BlockRequests
  import opened BlockCounts
  import opened BlockService

  /** One sample: the clock reading, and how many events have happened when the
      statistics and the depth entry of a device are read. */
  datatype Cut = Cut(m: nat, n: nat, now: nat)

  /** What one sample has read. */
  datatype Maps = Maps(stats: map<nat, DevStats>, depths: map<nat, Depth>)

  datatype Window = Window(delta: Snapshot, elapsed: nat)

  /** The devices visited by one sample: those with statistics and those whose
      depth entry shows any sign of use. */
  function Visited(s: Maps): set<nat> {
    s.stats.Keys + set d | d in s.depths && !NeverUsed(s.depths[d])
  }

  /** The devices a sample reports a depth window for. */
  function Sampled(s: Maps): set<nat> {
    set d | d in s.depths && d in Visited(s)
  }

  function Get<T>(m: map<nat, T>, d: nat): Option<T> {
    if d in m then Some(m[d]) else None
  }

  function WindowOf(s: Maps, previous: map<nat, Snapshot>, last: nat, now: nat, d: nat): Window
    requires d in s.depths
  {
    Window(DepthDelta(TakeSnapshot(s.depths[d], now), Get(previous, d)), Max(SatSub(now, last), 1))
  }

  function Snapshots(s: Maps, now: nat, ds: set<nat>): map<nat, Snapshot> {
    map d | d in ds && d in s.depths :: TakeSnapshot(s.depths[d], now)
  }

  function Remember(s: Maps, previous: map<nat, Snapshot>, now: nat): map<nat, Snapshot> {
    previous + Snapshots(s, now, Visited(s))
  }

  /** The change of a device's statistics since they were last read, or all of
      them when the entry is a different registration. */
  function StatsDelta(cur: DevStats, previous: Option<DevStats>): DevStats {
    if previous.None? || previous.value.firstSeen != cur.firstSeen then cur
    else
      var prev := previous.value;
      DevStats(map op | op in cur.ops :: OpDelta(cur.ops[op], OpOf(prev, op)),
               SatSub(cur.requeues, prev.requeues), SatSub(cur.lost, prev.lost), cur.firstSeen, cur.lastSeen)
  }

  /** What a sample reports and remembers about the devices in `ds`. */
  function Deltas(s: Maps, previous: map<nat, DevStats>, ds: set<nat>): map<nat, DevStats> {
    map d | d in ds && d in s.stats :: StatsDelta(s.stats[d], Get(previous, d))
  }

  function Windows(s: Maps, previous: map<nat, Snapshot>, last: nat, now: nat, ds: set<nat>): map<nat, Window> {
    map d | d in ds && d in s.depths :: WindowOf(s, previous, last, now, d)
  }

  function Readings(s: Maps, ds: set<nat>): map<nat, DevStats> {
    map d | d in ds && d in s.stats :: s.stats[d]
  }

  lemma VisitStats(s: Maps, previous: map<nat, DevStats>, ds: set<nat>, dev: nat)
    requires dev !in ds
    ensures dev in s.stats ==>
      && Deltas(s, previous, ds + {dev}) == Deltas(s, previous, ds)[dev := StatsDelta(s.stats[dev], Get(previous, dev))]
      && previous + Readings(s, ds + {dev}) == (previous + Readings(s, ds))[dev := s.stats[dev]]
      && Get(previous + Readings(s, ds), dev) == Get(previous, dev)
    ensures dev !in s.stats ==>
      Deltas(s, previous, ds + {dev}) == Deltas(s, previous, ds) && Readings(s, ds + {dev}) == Readings(s, ds)
  {
    hide StatsDelta;
  }

  lemma VisitDepth(s: Maps, previous: map<nat, Snapshot>, last: nat, now: nat, ds: set<nat>, dev: nat)
    requires dev !in ds
    ensures dev in s.depths ==>
      && Windows(s, previous, last, now, ds + {dev})
         == Windows(s, previous, last, now, ds)[dev := WindowOf(s, previous, last, now, dev)]
      && previous + Snapshots(s, now, ds + {dev})
         == (previous + Snapshots(s, now, ds))[dev := TakeSnapshot(s.depths[dev], now)]
      && Get(previous + Snapshots(s, now, ds), dev) == Get(previous, dev)
    ensures dev !in s.depths ==>
      Windows(s, previous, last, now, ds + {dev}) == Windows(s, previous, last, now, ds)
      && Snapshots(s, now, ds + {dev}) == Snapshots(s, now, ds)
  {
    hide WindowOf, TakeSnapshot;
  }

  /** The sampler's fields and its loop over the devices of one sample. */
  class Sampler {
    var previousStats: map<nat, DevStats>
    var previousDepth: map<nat, Snapshot>
    var lastSampleNs: nat

    constructor (now: nat)
      ensures previousStats == map[] && previousDepth == map[] && lastSampleNs == now
    {
      previousStats, previousDepth, lastSampleNs := map[], map[], now;
    }

    /** After the devices in `done`, what has been reported and remembered. */
    ghost predicate Progress(s: Maps, now: nat, stats: map<nat, DevStats>, depth: map<nat, Snapshot>, last: nat,
                             done: set<nat>, deltas: map<nat, DevStats>, windows: map<nat, Window>)
      reads this
    {
      && deltas == Deltas(s, stats, done) && windows == Windows(s, depth, last, now, done)
      && previousStats == stats + Readings(s, done) && previousDepth == depth + Snapshots(s, now, done)
      && lastSampleNs == last
    }

    /** One device of one sample. */
    method Report(s: Maps, now: nat, dev: nat, deltas: map<nat, DevStats>, windows: map<nat, Window>,
                  ghost stats: map<nat, DevStats>, ghost depth: map<nat, Snapshot>, ghost done: set<nat>)
      returns (deltas': map<nat, DevStats>, windows': map<nat, Window>)
      requires dev !in done && Progress(s, now, stats, depth, lastSampleNs, done, deltas, windows)
      modifies this
      ensures Progress(s, now, stats, depth, old(lastSampleNs), done + {dev}, deltas', windows')
    {
      hide StatsDelta, DepthDelta, TakeSnapshot, Get, Max, SatSub, Deltas, Windows, Snapshots, Readings;
      VisitStats(s, stats, done, dev);
      VisitDepth(s, depth, lastSampleNs, now, done, dev);
      deltas', windows' := deltas, windows;
      if dev in s.stats {
        deltas' := deltas[dev := StatsDelta(s.stats[dev], Get(previousStats, dev))];
        previousStats := previousStats[dev := s.stats[dev]];
      }
      if dev in s.depths {
        var snapshot := TakeSnapshot(s.depths[dev], now);
        var elapsed := Max(SatSub(now, lastSampleNs), 1);
        windows' := windows[dev := Window(DepthDelta(snapshot, Get(previousDepth, dev)), elapsed)];
        previousDepth := previousDepth[dev := snapshot];
      }
    }

    method Sample(s: Maps, now: nat) returns (deltas: map<nat, DevStats>, windows: map<nat, Window>)
      modifies this
      ensures deltas == Deltas(s, old(previousStats), Visited(s))
      ensures windows == Windows(s, old(previousDepth), old(lastSampleNs), now, Visited(s))
      ensures previousStats == old(previousStats) + Readings(s, Visited(s))
      ensures previousDepth == Remember(s, old(previousDepth), now)
      ensures lastSampleNs == now
    {
      hide Visited, Deltas, Windows, Snapshots, Readings;
      ghost var depth, stats := previousDepth, previousStats;
      var todo := Visited(s);
      ghost var done: set<nat> := {};
      deltas, windows := map[], map[];
      NothingVisited(s, stats, depth, lastSampleNs, now);
      while todo != {}
        invariant done + todo == Visited(s) && done !! todo
        invariant Progress(s, now, stats, depth, old(lastSampleNs), done, deltas, windows)
        decreases todo
      {
        var dev :| dev in todo;
        deltas, windows := Report(s, now, dev, deltas, windows, stats, depth, done);
        MoveOne(done, todo, dev);
        todo, done := todo - {dev}, done + {dev};
      }
      assert done == Visited(s) by { assert done == done + todo; }
      lastSampleNs := now;
    }
  }

  lemma MoveOne(done: set<nat>, todo: set<nat>, dev: nat)
    requires done !! todo && dev in todo
    ensures (done + {dev}) + (todo - {dev}) == done + todo && (done + {dev}) !! (todo - {dev})
    ensures todo - {dev} < todo
  {
  }

  lemma NothingVisited(s: Maps, stats: map<nat, DevStats>, depth: map<nat, Snapshot>, last: nat, now: nat)
    ensures Deltas(s, stats, {}) == map[] && Windows(s, depth, last, now, {}) == map[]
    ensures stats + Readings(s, {}) == stats && depth + Snapshots(s, now, {}) == depth
  {
  }

  // -------------------------------------------------------- schedules of samples

  /** No event that the sample does not see yet is older than its clock. */
  predicate Between(es: seq<Event>, at: nat, k: Cut) {
    k.m <= |es| && k.n <= |es| && at <= k.now && (k.n < |es| ==> k.now <= es[k.n].now)
  }

  predicate Schedule(es: seq<Event>, at: nat, cuts: seq<Cut>) {
    && (forall i | 0 <= i < |cuts| :: Between(es, at, cuts[i]))
    && (forall i, j | 0 <= i < j < |cuts| ::
          cuts[i].m <= cuts[j].m && cuts[i].n <= cuts[j].n && cuts[i].now <= cuts[j].now)
  }

  predicate Within(es: seq<Event>, cuts: seq<Cut>) {
    forall i | 0 <= i < |cuts| :: cuts[i].m <= |es| && cuts[i].n <= |es|
  }

  function MapsAt(c: Config, s0: State, es: seq<Event>, k: Cut): Maps
    requires k.m <= |es| && k.n <= |es|
  {
    Maps(Run(c, s0, es[..k.m]).stats, Run(c, s0, es[..k.n]).depths)
  }

  /** What the sampler remembers after all the samples of `cuts`. */
  function Memory(c: Config, s0: State, es: seq<Event>, cuts: seq<Cut>): map<nat, Snapshot>
    requires Within(es, cuts)
  {
    if cuts == [] then map[]
    else
      var k := cuts[|cuts| - 1];
      Remember(MapsAt(c, s0, es, k), Memory(c, s0, es, cuts[..|cuts| - 1]), k.now)
  }

  /** The sum of the windows reported for one device. */
  function Reported(c: Config, s0: State, es: seq<Event>, cuts: seq<Cut>, dev: nat): Times
    requires Within(es, cuts)
  {
    if cuts == [] then Times(0, 0, 0, 0)
    else
      var k, init := cuts[|cuts| - 1], cuts[..|cuts| - 1];
      var s := MapsAt(c, s0, es, k);
      var before := Reported(c, s0, es, init, dev);
      if dev in Sampled(s)
      then Plus(before, TimesOf(WindowOf(s, Memory(c, s0, es, init), 0, k.now, dev).delta))
      else before
  }

  /** The times of `dev` as one sample sees them. */
  function TimesAt(c: Config, s0: State, es: seq<Event>, k: Cut, dev: nat): Times
    requires k.n <= |es|
  {
    var s := Run(c, s0, es[..k.n]);
    if dev in s.depths then TimesOf(TakeSnapshot(s.depths[dev], k.now)) else Times(0, 0, 0, 0)
  }

  /** The moment up to which a sample measures a device: its clock reading, or
      the last change of the entry if that is newer. */
  function Reach(c: Config, s0: State, es: seq<Event>, k: Cut, dev: nat): nat
    requires k.n <= |es|
  {
    var s := Run(c, s0, es[..k.n]);
    if dev in s.depths then Max(k.now, s.depths[dev].lastUpdate) else k.now
  }

  /** Time that passed from `a` to `b` is at most `t`, and so are the levels. */
  predicate WindowFits(a: Times, b: Times, t: nat, inflight: nat, queued: nat) {
    && AtMost(a, b) && b.busy <= a.busy + t && b.saturated <= a.saturated + t
    && b.inflight <= a.inflight + t * inflight && b.queued <= a.queued + t * queued
  }

  // -------------------------------------------------- one device over a run

  /** An event that does not touch a device's entry leaves it alone; one that
      does stamps it. */
  lemma TouchedOrSame(c: Config, s: State, e: Event, dev: nat)
    requires dev in s.depths && Sound(s.depths[dev])
    ensures dev in Step(c, s, e).depths
    ensures var d, d' := s.depths[dev], Step(c, s, e).depths[dev];
      && (d' == d || d'.lastUpdate == e.now) && Sound(d')
      && d.maxInflight <= d'.maxInflight && d.maxQueued <= d'.maxQueued
  {
    hide Step, Sound, NeverUsed;
    StepMoves(c, s, e, dev);
    MovesUse(s.depths[dev], MovesAt(c, s, e, dev), e.now);
    MovesStamp(s.depths[dev], MovesAt(c, s, e, dev), e.now);
  }

  lemma MovesStamp(d: Depth, m: Moves, t: nat)
    ensures var a := Moved(d, m, t);
      (a == d || a.lastUpdate == t) && d.maxInflight <= a.maxInflight && d.maxQueued <= a.maxQueued
  {
  }

  /** The stamp of an entry is the time of some event so far, or of its
      registration. */
  lemma {:induction false} StampedInTime(c: Config, devices: set<nat>, at: nat, es: seq<Event>, dev: nat)
    requires 0 < at && Orderly(es, at) && dev in devices
    ensures var s := Run(c, Boot(devices, at), es);
      dev in s.depths && Sound(s.depths[dev]) && 0 < at <= s.depths[dev].lastUpdate <= LastTime(es, at)
    decreases |es|
  {
    hide Step, Sound;
    if es == [] {
      BootSound(at);
    } else {
      var init := es[..|es| - 1];
      assert Orderly(init, at);
      StampedInTime(c, devices, at, init, dev);
      TouchedOrSame(c, Run(c, Boot(devices, at), init), es[|es| - 1], dev);
    }
  }

  /** From a moment `a` no older than an entry and no newer than any later event,
      the entry's times grow no faster than the clock. */
  lemma {:induction false} TimesFrom(c: Config, devices: set<nat>, at: nat, es: seq<Event>, n: nat, dev: nat,
                                     a: nat, t: nat)
    requires 0 < at && Orderly(es, at) && dev in devices && n <= |es| && a <= t
    requires forall i | n <= i < |es| :: a <= es[i].now
    requires var p, s := Run(c, Boot(devices, at), es[..n]), Run(c, Boot(devices, at), es);
      && dev in p.depths && Current(p.depths[dev], a)
      && dev in s.depths && s.depths[dev].lastUpdate <= t
    ensures var p, s := Run(c, Boot(devices, at), es[..n]), Run(c, Boot(devices, at), es);
      && p.depths[dev].lastUpdate <= s.depths[dev].lastUpdate
      && WindowFits(TimesOf(TakeSnapshot(p.depths[dev], a)), TimesOf(TakeSnapshot(s.depths[dev], t)), t - a,
                    s.depths[dev].maxInflight, s.depths[dev].maxQueued)
    decreases |es|
  {
    hide Step, Sound, TakeSnapshot, WindowFits;
    var s0 := Boot(devices, at);
    var p, s := Run(c, s0, es[..n]), Run(c, s0, es);
    StampedInTime(c, devices, at, es, dev);
    if n == |es| {
      assert es[..n] == es;
      StandsStill(s.depths[dev], a, t);
    } else {
      var init, e := es[..|es| - 1], es[|es| - 1];
      assert Orderly(init, at) && init[..n] == es[..n];
      var q := Run(c, s0, init);
      StampedInTime(c, devices, at, init, dev);
      TouchedOrSame(c, q, e, dev);
      if s.depths[dev] == q.depths[dev] {
        TimesFrom(c, devices, at, init, n, dev, a, t);
      } else {
        TimesFrom(c, devices, at, init, n, dev, a, e.now);
        StepSnapshot(c, q, e, dev, t);
        FitsOn(p.depths[dev], q.depths[dev], s.depths[dev], a, e.now, t);
      }
    }
  }

  lemma StandsStill(d: Depth, a: nat, t: nat)
    requires Sound(d) && Current(d, a) && a <= t
    ensures WindowFits(TimesOf(TakeSnapshot(d, a)), TimesOf(TakeSnapshot(d, t)), t - a, d.maxInflight, d.maxQueued)
  {
    hide TakeSnapshot;
    SnapshotGrows(d, a, t);
    SpentFits(TimesOf(TakeSnapshot(d, a)), t - a, d);
  }

  lemma SpentFits(x: Times, t: nat, d: Depth)
    requires Sound(d)
    ensures WindowFits(x, Plus(x, Spent(t, d.inflight, d.queued)), t, d.maxInflight, d.maxQueued)
  {
    Grows(t, d.inflight, d.maxInflight);
    Grows(t, d.queued, d.maxQueued);
  }

  lemma Grows(t: nat, x: nat, y: nat)
    requires x <= y
    ensures t * x <= t * y
  {
  }

  lemma FitsOn(p: Depth, q: Depth, s: Depth, a: nat, now: nat, t: nat)
    requires Sound(s) && a <= now <= t && q.maxInflight <= s.maxInflight && q.maxQueued <= s.maxQueued
    requires WindowFits(TimesOf(TakeSnapshot(p, a)), TimesOf(TakeSnapshot(q, now)), now - a, q.maxInflight, q.maxQueued)
    requires TimesOf(TakeSnapshot(s, t)) == Plus(TimesOf(TakeSnapshot(q, now)), Spent(t - now, s.inflight, s.queued))
    ensures WindowFits(TimesOf(TakeSnapshot(p, a)), TimesOf(TakeSnapshot(s, t)), t - a, s.maxInflight, s.maxQueued)
  {
    hide TakeSnapshot, Plus, Spent, Sound;
    SpentFits(TimesOf(TakeSnapshot(q, now)), t - now, s);
    FitsThrough(TimesOf(TakeSnapshot(p, a)), TimesOf(TakeSnapshot(q, now)), TimesOf(TakeSnapshot(s, t)),
                now - a, t - now, q.maxInflight, q.maxQueued, s.maxInflight, s.maxQueued);
  }

  lemma FitsThrough(x: Times, y: Times, z: Times, t: nat, u: nat, i: nat, q: nat, i': nat, q': nat)
    requires WindowFits(x, y, t, i, q) && WindowFits(y, z, u, i', q') && i <= i' && q <= q'
    ensures WindowFits(x, z, t + u, i', q')
  {
    Grows(t, i, i');
    Grows(t, q, q');
    assert (t + u) * i' == t * i' + u * i' && (t + u) * q' == t * q' + u * q';
  }

  /** A sample of an entry newer than the clock is the same as one taken at the
      entry's own stamp. */
  lemma ReachTimes(c: Config, devices: set<nat>, at: nat, es: seq<Event>, k: Cut, dev: nat)
    requires 0 < at && Orderly(es, at) && Between(es, at, k) && dev in devices
    ensures var s0 := Boot(devices, at);
      var s, b := Run(c, s0, es[..k.n]), Reach(c, s0, es, k, dev);
      && dev in s.depths && Current(s.depths[dev], b) && k.now <= b
      && TimesAt(c, s0, es, k, dev) == TimesOf(TakeSnapshot(s.depths[dev], b))
      && (forall i | k.n <= i < |es| :: b <= es[i].now)
  {
    hide Step, Sound, Run;
    StampedInTime(c, devices, at, es[..k.n], dev);
    forall i | k.n <= i < |es| ensures Reach(c, Boot(devices, at), es, k, dev) <= es[i].now {
      assert k.n < i ==> es[k.n].now <= es[i].now;
      assert k.n > 0 ==> es[k.n - 1].now <= es[i].now;
    }
  }

  /** Between two samples no time runs faster than from one reach to the next. */
  lemma TimesAdvance(c: Config, devices: set<nat>, at: nat, es: seq<Event>, j: Cut, k: Cut, dev: nat)
    requires 0 < at && Orderly(es, at) && Between(es, at, j) && Between(es, at, k) && dev in devices
    requires j.n <= k.n && j.now <= k.now
    ensures var s0 := Boot(devices, at);
      var a, b, s := Reach(c, s0, es, j, dev), Reach(c, s0, es, k, dev), Run(c, s0, es[..k.n]);
      && dev in s.depths && a <= b
      && WindowFits(TimesAt(c, s0, es, j, dev), TimesAt(c, s0, es, k, dev), b - a,
                    s.depths[dev].maxInflight, s.depths[dev].maxQueued)
  {
    hide Run, TimesAt, WindowFits, Step;
    var s0, ek := Boot(devices, at), es[..k.n];
    ReachTimes(c, devices, at, es, j, dev);
    ReachTimes(c, devices, at, es, k, dev);
    assert ek[..j.n] == es[..j.n] && Orderly(ek, at);
    var a, b := Reach(c, s0, es, j, dev), Reach(c, s0, es, k, dev);
    TimesFrom(c, devices, at, ek, j.n, dev, a, Max(a, b));
  }

  // ------------------------------------------------------------ device in use

  /** Registration time is kept, entries stay sound, and a device that was in
      use stays in use. */
  predicate Used(a: Depth, b: Depth) {
    b.firstSeen == a.firstSeen && Sound(b) && (NeverUsed(b) ==> NeverUsed(a))
  }

  lemma {:induction false} RunUses(c: Config, devices: set<nat>, at: nat, es: seq<Event>, n: nat, dev: nat)
    requires n <= |es| && dev in devices
    ensures var a, b := Run(c, Boot(devices, at), es[..n]).depths, Run(c, Boot(devices, at), es).depths;
      dev in a && dev in b && Used(a[dev], b[dev]) && b[dev].firstSeen == at
    decreases |es|
  {
    hide Step, NeverUsed, Sound;
    var s0 := Boot(devices, at);
    RunKeys(c, s0, es);
    RunKeys(c, s0, es[..n]);
    if es == [] {
      BootSound(at);
    } else {
      var init, e := es[..|es| - 1], es[|es| - 1];
      RunKeys(c, s0, init);
      RunUses(c, devices, at, init, if n < |es| then n else |es| - 1, dev);
      StepMoves(c, Run(c, s0, init), e, dev);
      MovesUse(Run(c, s0, init).depths[dev], MovesAt(c, Run(c, s0, init), e, dev), e.now);
      if n < |es| {
        assert init[..n] == es[..n];
      } else {
        assert es[..n] == es;
      }
    }
  }

  lemma BootSound(at: nat)
    ensures Sound(Registered(at))
  {
  }

  lemma MovesUse(d: Depth, m: Moves, t: nat)
    requires Sound(d)
    ensures Sound(Moved(d, m, t)) && (NeverUsed(Moved(d, m, t)) ==> NeverUsed(d))
    ensures Moved(d, m, t).firstSeen == d.firstSeen
  {
    hide Adjust, NeverUsed, Sound;
    match m {
      case Stay =>
      case One(dq, di) => AdjustSound(d, dq, di, t); AdjustFirst(d, dq, di, t);
      case Two(dq1, di1, dq2, di2) =>
        AdjustSound(d, dq1, di1, t);
        AdjustFirst(d, dq1, di1, t);
        AdjustSound(Adjust(d, dq1, di1, t), dq2, di2, t);
        AdjustFirst(Adjust(d, dq1, di1, t), dq2, di2, t);
    }
  }

  lemma AdjustFirst(d: Depth, dq: int, di: int, t: nat)
    ensures Adjust(d, dq, di, t).firstSeen == d.firstSeen
  {
  }

  lemma NeverUsedTimes(d: Depth, now: nat)
    requires Sound(d) && NeverUsed(d)
    ensures TimesOf(TakeSnapshot(d, now)) == Times(0, 0, 0, 0)
  {
  }

  // ------------------------------------------------------------------- theorems

  /** The sampler remembers the snapshot of the last sample for every device it
      ever reported, and has reported every device that was ever in use. */
  predicate Remembers(c: Config, devices: set<nat>, at: nat, es: seq<Event>, cuts: seq<Cut>, dev: nat)
    requires cuts != [] && Within(es, cuts)
  {
    var k := cuts[|cuts| - 1];
    var s := MapsAt(c, Boot(devices, at), es, k);
    var m := Memory(c, Boot(devices, at), es, cuts);
    && dev in s.depths
    && (if dev in m then dev in Sampled(s) && m[dev] == TakeSnapshot(s.depths[dev], k.now)
        else dev !in Sampled(s))
  }

  lemma {:induction false} SamplerRemembers(c: Config, devices: set<nat>, at: nat, es: seq<Event>,
                                            cuts: seq<Cut>, dev: nat)
    requires 0 < at && Orderly(es, at) && Schedule(es, at, cuts) && cuts != [] && dev in devices
    ensures Remembers(c, devices, at, es, cuts, dev)
    decreases |cuts|
  {
    hide Run, Sampled, TakeSnapshot, Remember;
    var s0, init, k := Boot(devices, at), cuts[..|cuts| - 1], cuts[|cuts| - 1];
    var m := Memory(c, s0, es, init);
    RunKeys(c, s0, es[..k.n]);
    RemembersSampled(MapsAt(c, s0, es, k), m, k.now, dev);
    if init != [] {
      assert Schedule(es, at, init);
      SamplerRemembers(c, devices, at, es, init, dev);
      if dev in m {
        StaysSampled(c, devices, at, es, init[|init| - 1], k, dev);
      }
    }
  }

  lemma RemembersSampled(s: Maps, m: map<nat, Snapshot>, now: nat, dev: nat)
    requires dev in s.depths
    ensures var r := Remember(s, m, now);
      if dev in Sampled(s) then dev in r && r[dev] == TakeSnapshot(s.depths[dev], now)
      else (dev in r <==> dev in m)
  {
    hide NeverUsed, TakeSnapshot;
  }

  lemma StaysSampled(c: Config, devices: set<nat>, at: nat, es: seq<Event>, j: Cut, k: Cut, dev: nat)
    requires 0 < at && Orderly(es, at) && j.m <= k.m <= |es| && j.n <= k.n <= |es| && dev in devices
    requires dev in Sampled(MapsAt(c, Boot(devices, at), es, j))
    ensures dev in Sampled(MapsAt(c, Boot(devices, at), es, k))
  {
    hide NeverUsed, Step, Sound;
    var s0, em, en := Boot(devices, at), es[..k.m], es[..k.n];
    assert em[..j.m] == es[..j.m] && en[..j.n] == es[..j.n];
    assert Orderly(em, at);
    RunUses(c, devices, at, en, j.n, dev);
    RunGrows(c, devices, at, em, j.m);
  }

  /** The windows reported for a device, over any run and any schedule of
      samples, add up to its snapshot at the last sample: nothing is reported
      twice and nothing is lost, even while a device is skipped as unused. */
  lemma {:induction false} WindowsAddUp(c: Config, devices: set<nat>, at: nat, es: seq<Event>, cuts: seq<Cut>, dev: nat)
    requires 0 < at && Orderly(es, at) && Schedule(es, at, cuts) && cuts != [] && dev in devices
    ensures Reported(c, Boot(devices, at), es, cuts, dev) == TimesAt(c, Boot(devices, at), es, cuts[|cuts| - 1], dev)
    decreases |cuts|
  {
    hide NeverUsed, Step, Sound, Sampled, TakeSnapshot;
    var init, k := cuts[..|cuts| - 1], cuts[|cuts| - 1];
    SamplerRemembers(c, devices, at, es, cuts, dev);
    if init != [] {
      assert Schedule(es, at, init);
      WindowsAddUp(c, devices, at, es, init, dev);
      WindowIsDifference(c, devices, at, es, cuts, dev);
    } else {
      FirstWindow(c, devices, at, es, k, dev);
    }
  }

  lemma FirstWindow(c: Config, devices: set<nat>, at: nat, es: seq<Event>, k: Cut, dev: nat)
    requires k.m <= |es| && k.n <= |es| && dev in devices
    ensures Reported(c, Boot(devices, at), es, [k], dev) == TimesAt(c, Boot(devices, at), es, k, dev)
  {
    hide Step;
    var s0 := Boot(devices, at);
    assert [k][..0] == [];
    RunUses(c, devices, at, es[..k.n], 0, dev);
    var s := MapsAt(c, s0, es, k);
    if dev !in Sampled(s) {
      NeverUsedTimes(s.depths[dev], k.now);
    }
  }

  /** The window of `dev` in the last of at least two samples. */
  function LastWindow(c: Config, s0: State, es: seq<Event>, cuts: seq<Cut>, dev: nat): Window
    requires Within(es, cuts) && |cuts| >= 2 && dev in MapsAt(c, s0, es, cuts[|cuts| - 1]).depths
  {
    var j, k := cuts[|cuts| - 2], cuts[|cuts| - 1];
    WindowOf(MapsAt(c, s0, es, k), Memory(c, s0, es, cuts[..|cuts| - 1]), j.now, k.now, dev)
  }

  /** The times of a window are at most `t`, at levels at most the highest seen. */
  predicate Bounded(w: Window, t: nat) {
    && w.delta.busy <= t && w.delta.saturated <= t
    && w.delta.inflightNs <= t * w.delta.maxInflight && w.delta.queuedNs <= t * w.delta.maxQueued
  }

  /** A window carries the levels of the entry and the highest there were. */
  predicate LevelsOf(w: Snapshot, d: Depth) {
    w.inflight == d.inflight && w.queued == d.queued && w.maxInflight == d.maxInflight && w.maxQueued == d.maxQueued
  }

  /** One window after the first is the growth since the sample before, and stays
      within the time from one reach to the next. That is the elapsed time the
      sample reports, or less, unless the entry is newer than the clock. */
  lemma WindowIsDifference(c: Config, devices: set<nat>, at: nat, es: seq<Event>, cuts: seq<Cut>, dev: nat)
    requires 0 < at && Orderly(es, at) && Schedule(es, at, cuts) && |cuts| >= 2 && dev in devices
    ensures var s0 := Boot(devices, at);
      var j, k := cuts[|cuts| - 2], cuts[|cuts| - 1];
      var s, a, b := MapsAt(c, s0, es, k), Reach(c, s0, es, j, dev), Reach(c, s0, es, k, dev);
      && dev in s.depths && a <= b
      && (dev in Sampled(s) ==>
            var w := LastWindow(c, s0, es, cuts, dev);
            && Plus(TimesAt(c, s0, es, j, dev), TimesOf(w.delta)) == TimesAt(c, s0, es, k, dev)
            && Bounded(w, b - a) && LevelsOf(w.delta, s.depths[dev])
            && w.elapsed == (if j.now < k.now then k.now - j.now else 1)
            && (s.depths[dev].lastUpdate <= k.now ==> Bounded(w, w.elapsed)))
      && (dev !in Sampled(s) ==> TimesAt(c, s0, es, j, dev) == TimesAt(c, s0, es, k, dev) == Times(0, 0, 0, 0))
  {
    hide Step, NeverUsed, Sound, TakeSnapshot, Sampled, WindowOf, Run, Memory, Orderly, WindowFits, Bounded;
    var s0 := Boot(devices, at);
    var j, k, init := cuts[|cuts| - 2], cuts[|cuts| - 1], cuts[..|cuts| - 1];
    var s, p, m := MapsAt(c, s0, es, k), MapsAt(c, s0, es, j), Memory(c, s0, es, init);
    var a, b := Reach(c, s0, es, j, dev), Reach(c, s0, es, k, dev);
    assert Schedule(es, at, init) && init[|init| - 1] == j;
    SamplerRemembers(c, devices, at, es, init, dev);
    TimesAdvance(c, devices, at, es, j, k, dev);
    SameRegistration(c, devices, at, es, j, k, dev);
    UnusedAtSample(p, j.now, dev);
    UnusedAtSample(s, k.now, dev);
    WindowGrowth(p, s, m, j.now, k.now, dev, b - a);
    if dev in Sampled(p) {
      StaysSampled(c, devices, at, es, j, k, dev);
    }
    if s.depths[dev].lastUpdate <= k.now {
      BoundedMore(LastWindow(c, s0, es, cuts, dev), b - a, Max(SatSub(k.now, j.now), 1));
    }
  }

  lemma BoundedMore(w: Window, t: nat, u: nat)
    requires Bounded(w, t) && t <= u
    ensures Bounded(w, u)
  {
    Scales(t, u, w.delta.maxInflight);
    Scales(t, u, w.delta.maxQueued);
  }

  lemma Scales(t: nat, u: nat, x: nat)
    requires t <= u
    ensures t * x <= u * x
  {
  }

  /** The window between a remembered reading and the next one. */
  lemma WindowGrowth(p: Maps, s: Maps, m: map<nat, Snapshot>, last: nat, now: nat, dev: nat, t: nat)
    requires dev in p.depths && dev in s.depths && p.depths[dev].firstSeen == s.depths[dev].firstSeen
    requires var a := TakeSnapshot(p.depths[dev], last);
      && WindowFits(TimesOf(a), TimesOf(TakeSnapshot(s.depths[dev], now)), t,
                    s.depths[dev].maxInflight, s.depths[dev].maxQueued)
      && (if dev in m then m[dev] == a else TimesOf(a) == Times(0, 0, 0, 0))
    ensures var w := WindowOf(s, m, last, now, dev);
      && Plus(TimesOf(TakeSnapshot(p.depths[dev], last)), TimesOf(w.delta)) == TimesOf(TakeSnapshot(s.depths[dev], now))
      && Bounded(w, t) && LevelsOf(w.delta, s.depths[dev]) && w.elapsed == Max(SatSub(now, last), 1)
  {
    SnapshotFirst(p.depths[dev], last);
    SnapshotFirst(s.depths[dev], now);
    hide TakeSnapshot;
  }

  lemma SnapshotFirst(d: Depth, now: nat)
    ensures var s := TakeSnapshot(d, now);
      s.firstSeen == d.firstSeen && LevelsOf(s, d)
  {
  }

  lemma SameRegistration(c: Config, devices: set<nat>, at: nat, es: seq<Event>, j: Cut, k: Cut, dev: nat)
    requires j.n <= k.n <= |es| && dev in devices
    ensures var p, s := Run(c, Boot(devices, at), es[..j.n]), Run(c, Boot(devices, at), es[..k.n]);
      && dev in p.depths && dev in s.depths && p.depths[dev].firstSeen == s.depths[dev].firstSeen
      && Sound(p.depths[dev]) && Sound(s.depths[dev])
  {
    hide Step, NeverUsed, Sound, Run;
    var ek := es[..k.n];
    assert ek[..j.n] == es[..j.n];
    RunUses(c, devices, at, ek, j.n, dev);
    RunUses(c, devices, at, es[..j.n], 0, dev);
  }

  lemma UnusedAtSample(s: Maps, now: nat, dev: nat)
    requires dev in s.depths && Sound(s.depths[dev])
    ensures dev !in Sampled(s) ==> TimesOf(TakeSnapshot(s.depths[dev], now)) == Times(0, 0, 0, 0)
  {
    if dev !in Sampled(s) {
      NeverUsedTimes(s.depths[dev], now);
    }
  }

  // ----------------------------------------------------- what a window measures

  predicate GoodRun(c: Config, devices: set<nat>, at: nat, es: seq<Event>) {
    && c.saturation && 0 < at && Orderly(es, at)
    && SteadyRun(c, Boot(devices, at), es)
  }

  lemma {:induction false} GoodPrefix(c: Config, devices: set<nat>, at: nat, es: seq<Event>, n: nat)
    requires GoodRun(c, devices, at, es) && n <= |es|
    ensures GoodRun(c, devices, at, es[..n])
    decreases |es|
  {
    if n == |es| {
      assert es[..n] == es;
    } else {
      assert Orderly(es[..|es| - 1], at);
      GoodPrefix(c, devices, at, es[..|es| - 1], n);
      assert es[..|es| - 1][..n] == es[..n];
    }
  }

  lemma {:induction false} IntegralPrefix(c: Config, s: State, es: seq<Event>, n: nat, dev: nat, lo: nat, hi: nat)
    requires n <= |es| && forall i | n <= i < |es| :: hi <= es[i].now
    ensures Integral(c, s, es, dev, lo, hi) == Integral(c, s, es[..n], dev, lo, hi)
    decreases |es|
  {
    if n == |es| {
      assert es[..n] == es;
    } else {
      IntegralFrame(c, s, es, dev, lo, hi);
      IntegralPrefix(c, s, es[..|es| - 1], n, dev, lo, hi);
      assert es[..|es| - 1][..n] == es[..n];
    }
  }

  lemma {:induction false} IntegralSplit(c: Config, s: State, es: seq<Event>, dev: nat, lo: nat, mid: nat, hi: nat)
    requires lo <= mid <= hi
    ensures Integral(c, s, es, dev, lo, hi)
         == Plus(Integral(c, s, es, dev, lo, mid), Integral(c, s, es, dev, mid, hi))
    decreases hi
  {
    hide Moment, Plus, Happened;
    if mid < hi {
      IntegralSplit(c, s, es, dev, lo, mid, hi - 1);
      PlusAssociates(Integral(c, s, es, dev, lo, mid), Integral(c, s, es, dev, mid, hi - 1),
                     Moment(c, s, es[..Happened(es, hi - 1)], dev));
    } else {
      NothingAdded(Integral(c, s, es, dev, lo, hi));
    }
  }

  lemma NothingAdded(a: Times)
    ensures Plus(a, Times(0, 0, 0, 0)) == a
  {
  }

  /** An entry's times at any moment no older than its stamp are the integrals up
      to that moment, whatever other devices have been up to since. */
  lemma {:induction false} EntryIsIntegral(c: Config, devices: set<nat>, at: nat, es: seq<Event>, dev: nat, t: nat)
    requires GoodRun(c, devices, at, es) && dev in devices
    requires var s := Run(c, Boot(devices, at), es); dev in s.depths && s.depths[dev].lastUpdate <= t
    ensures TimesOf(TakeSnapshot(Run(c, Boot(devices, at), es).depths[dev], t))
         == Integral(c, Boot(devices, at), es, dev, at, t)
    decreases |es|
  {
    hide Step, Sound, TakeSnapshot, Integral;
    var s0 := Boot(devices, at);
    StampedInTime(c, devices, at, es, dev);
    if es == [] || es[|es| - 1].now <= t {
      SnapshotIsIntegral(c, devices, at, es, dev, t);
    } else {
      var init := es[..|es| - 1];
      GoodPrefix(c, devices, at, es, |es| - 1);
      StampedInTime(c, devices, at, init, dev);
      TouchedOrSame(c, Run(c, s0, init), es[|es| - 1], dev);
      EntryIsIntegral(c, devices, at, init, dev, t);
      IntegralFrame(c, s0, es, dev, at, t);
    }
  }

  /** What a sample sees of a device is the integral up to its reach. */
  lemma SampleIsIntegral(c: Config, devices: set<nat>, at: nat, es: seq<Event>, k: Cut, dev: nat)
    requires GoodRun(c, devices, at, es) && Between(es, at, k) && dev in devices
    ensures var s0 := Boot(devices, at);
      TimesAt(c, s0, es, k, dev) == Integral(c, s0, es, dev, at, Reach(c, s0, es, k, dev))
  {
    hide TakeSnapshot, Run, Integral, SteadyRun;
    var s0 := Boot(devices, at);
    ReachTimes(c, devices, at, es, k, dev);
    GoodPrefix(c, devices, at, es, k.n);
    var b := Reach(c, s0, es, k, dev);
    EntryIsIntegral(c, devices, at, es[..k.n], dev, b);
    IntegralPrefix(c, s0, es, k.n, dev, at, b);
  }

  /** So a window is exactly what happened from one reach to the next: no moment
      is reported in two windows and none is left out. */
  lemma WindowIsIntegral(c: Config, devices: set<nat>, at: nat, es: seq<Event>, cuts: seq<Cut>, dev: nat)
    requires GoodRun(c, devices, at, es) && Schedule(es, at, cuts) && |cuts| >= 2 && dev in devices
    requires dev in Sampled(MapsAt(c, Boot(devices, at), es, cuts[|cuts| - 1]))
    ensures var s0 := Boot(devices, at);
      var a, b := Reach(c, s0, es, cuts[|cuts| - 2], dev), Reach(c, s0, es, cuts[|cuts| - 1], dev);
      TimesOf(LastWindow(c, s0, es, cuts, dev).delta) == Integral(c, s0, es, dev, a, b)
  {
    hide Run, Memory, WindowOf, TakeSnapshot, Integral, TimesAt, SteadyRun, Bounded, Sampled, MapsAt;
    var s0, j, k := Boot(devices, at), cuts[|cuts| - 2], cuts[|cuts| - 1];
    WindowIsDifference(c, devices, at, es, cuts, dev);
    ReachTimes(c, devices, at, es, j, dev);
    SampleIsIntegral(c, devices, at, es, j, dev);
    SampleIsIntegral(c, devices, at, es, k, dev);
    IntegralSplit(c, s0, es, dev, at, Reach(c, s0, es, j, dev), Reach(c, s0, es, k, dev));
  }

  /** The device has a request in flight at every moment from `a` up to `b`. */
  predicate FlyingThroughout(c: Config, s: State, es: seq<Event>, dev: nat, a: nat, b: nat) {
    forall t | a <= t < b :: Flying(c, s, es[..Happened(es, t)], dev) > 0
  }

  lemma {:induction false} BusyIff(c: Config, s: State, es: seq<Event>, dev: nat, a: nat, b: nat)
    requires a <= b
    ensures Integral(c, s, es, dev, a, b).busy <= b - a
    ensures Integral(c, s, es, dev, a, b).busy == b - a <==> FlyingThroughout(c, s, es, dev, a, b)
    decreases b
  {
    hide Flying, Happened, Run;
    if a < b {
      BusyIff(c, s, es, dev, a, b - 1);
    }
  }

  /** A window's busy time is the whole time from one reach to the next if and
      only if the device had a request in flight throughout; so with an entry
      newer than the clock it can exceed the elapsed time. */
  lemma WindowBusyIff(c: Config, devices: set<nat>, at: nat, es: seq<Event>, cuts: seq<Cut>, dev: nat)
    requires GoodRun(c, devices, at, es) && Schedule(es, at, cuts) && |cuts| >= 2 && dev in devices
    requires dev in Sampled(MapsAt(c, Boot(devices, at), es, cuts[|cuts| - 1]))
    ensures var s0 := Boot(devices, at);
      var a, b := Reach(c, s0, es, cuts[|cuts| - 2], dev), Reach(c, s0, es, cuts[|cuts| - 1], dev);
      LastWindow(c, s0, es, cuts, dev).delta.busy == b - a <==> FlyingThroughout(c, s0, es, dev, a, b)
  {
    hide Run, LastWindow, Integral, SteadyRun, Sampled, MapsAt, FlyingThroughout, Reach, Bounded, TimesAt;
    var s0, j, k := Boot(devices, at), cuts[|cuts| - 2], cuts[|cuts| - 1];
    WindowIsIntegral(c, devices, at, es, cuts, dev);
    WindowIsDifference(c, devices, at, es, cuts, dev);
    BusyIff(c, s0, es, dev, Reach(c, s0, es, j, dev), Reach(c, s0, es, k, dev));
  }

  // -------------------------------------------------- an entry newer than the clock

  const ALL: Config := Config(true, true, true, true, true, true, {Read}, false, {})

  /** One read of device 8, from 50 to 205. */
  function OneRead(): seq<Event> {
    [Issue(50, 1, 8, Read, 4096, false, false), Complete(205, 1, 8, Read, false, 4096, false)]
  }

  lemma OneReadEntries(s0: State)
    requires s0 == Boot({8}, 1)
    ensures var p, s := Run(ALL, s0, OneRead()[..1]), Run(ALL, s0, OneRead());
      && 8 in p.depths && p.depths[8] == Depth(1, 50, 0, 0, 0, 0, 1, 0, 1, 0)
      && 8 in s.depths && s.depths[8] == Depth(1, 205, 155, 0, 155, 0, 0, 0, 1, 0)
  {
    hide RecordBytes, RecordCompletion, RecordLost, RecordRequeue;
    var e1, e2 := OneRead()[0], OneRead()[1];
    var s1 := Step(ALL, s0, e1);
    assert OneRead()[..1] == [e1] && [e1][..0] == [];
    assert Run(ALL, s0, [e1]) == s1;
    assert Run(ALL, s0, OneRead()) == Step(ALL, s1, e2);
  }

  lemma OneReadSamples(cuts: seq<Cut>)
    requires cuts == [Cut(1, 1, 100), Cut(1, 2, 200)]
    ensures Orderly(OneRead(), 1) && Schedule(OneRead(), 1, cuts)
  {
  }

  /** The second sample reads its clock at 200 and the map after the completion at
      205: in a window of 100 it reports 105 of busy time, and 105 of time in
      flight with never more than one request in flight. */
  lemma NewerEntryExample()
    ensures var s0, cuts := Boot({8}, 1), [Cut(1, 1, 100), Cut(1, 2, 200)];
      && Orderly(OneRead(), 1) && Schedule(OneRead(), 1, cuts)
      && 8 in Sampled(MapsAt(ALL, s0, OneRead(), cuts[1]))
      && var w := LastWindow(ALL, s0, OneRead(), cuts, 8);
         w.elapsed == 100 && w.delta.busy == w.delta.inflightNs == 105 && w.delta.maxInflight == 1
  {
    var s0, cuts := Boot({8}, 1), [Cut(1, 1, 100), Cut(1, 2, 200)];
    OneReadSamples(cuts);
    OneReadTimes(s0);
    hide Run, Boot, OneRead, LastWindow, Sampled, TimesAt;
    SecondWindow(ALL, {8}, 1, OneRead(), cuts[0], cuts[1], 8);
    assert cuts == [cuts[0], cuts[1]];
  }

  /** The second window, from what the two samples see. */
  lemma SecondWindow(c: Config, devices: set<nat>, at: nat, es: seq<Event>, j: Cut, k: Cut, dev: nat)
    requires 0 < at && Orderly(es, at) && Schedule(es, at, [j, k]) && Between(es, at, k) && dev in devices
    requires dev in Sampled(MapsAt(c, Boot(devices, at), es, k))
    ensures var s0 := Boot(devices, at);
      var w, s := LastWindow(c, s0, es, [j, k], dev), Run(c, s0, es[..k.n]);
      && w.elapsed == Max(SatSub(k.now, j.now), 1)
      && Plus(TimesAt(c, s0, es, j, dev), TimesOf(w.delta)) == TimesAt(c, s0, es, k, dev)
      && dev in s.depths && w.delta.maxInflight == s.depths[dev].maxInflight
  {
    hide Run, Memory, Boot, Bounded, Reach, Orderly, TakeSnapshot, Sampled, TimesAt;
    var s0 := Boot(devices, at);
    WindowIsDifference(c, devices, at, es, [j, k], dev);
    SnapshotFirst(Run(c, s0, es[..k.n]).depths[dev], k.now);
  }

  lemma OneReadTimes(s0: State)
    requires s0 == Boot({8}, 1)
    ensures |OneRead()| == 2 && 8 in Sampled(MapsAt(ALL, s0, OneRead(), Cut(1, 2, 200)))
    ensures 8 in Run(ALL, s0, OneRead()[..2]).depths && Run(ALL, s0, OneRead()[..2]).depths[8].maxInflight == 1
    ensures TimesAt(ALL, s0, OneRead(), Cut(1, 1, 100), 8) == Times(50, 0, 50, 0)
    ensures TimesAt(ALL, s0, OneRead(), Cut(1, 2, 200), 8) == Times(155, 0, 155, 0)
  {
    hide Run;
    OneReadEntries(s0);
    assert OneRead()[..2] == OneRead();
  }
}
