/** The statistics userspace samples: what every sample reports of a device is
    exactly what happened since the sample before, and all reports add up to the
    last reading. */
module BlockReports {
  import opened Naturals
  import opened Wrappers
  import opened BlockRequests
  import opened BlockHistory
  import opened BlockService
  import opened BlockSampling

  /** What the sampler remembers of the statistics after all samples of `cuts`. */
  function StatsMemory(c: Config, s0: State, es: seq<Event>, cuts: seq<Cut>): map<nat, DevStats>
    requires Within(es, cuts)
  {
    if cuts == [] then map[]
    else
      var s := MapsAt(c, s0, es, cuts[|cuts| - 1]);
      StatsMemory(c, s0, es, cuts[..|cuts| - 1]) + Readings(s, Visited(s))
  }

  /** What the last sample of `cuts` reports. */
  function LastReport(c: Config, s0: State, es: seq<Event>, cuts: seq<Cut>): map<nat, DevStats>
    requires Within(es, cuts) && cuts != []
  {
    var s := MapsAt(c, s0, es, cuts[|cuts| - 1]);
    Deltas(s, StatsMemory(c, s0, es, cuts[..|cuts| - 1]), Visited(s))
  }

  // ------------------------------------------------------------ adding reports

  function PlusHist(a: seq<nat>, b: seq<nat>): seq<nat> {
    seq(|b|, i requires 0 <= i < |b| => b[i] + if i < |a| then a[i] else 0)
  }

  function PlusOp(a: OpStats, b: OpStats): OpStats {
    OpStats(a.bytes + b.bytes, a.operations + b.operations, a.errors + b.errors,
            a.queueNs + b.queueNs, a.serviceNs + b.serviceNs, a.totalNs + b.totalNs,
            PlusHist(a.serviceHist, b.serviceHist), PlusHist(a.totalHist, b.totalHist), a.finished + b.finished)
  }

  /** Everything reported for one operation of a device, and for the device. */
  datatype Total = Total(op: OpStats, requeues: nat, lost: nat)

  function TotalOf(stats: map<nat, DevStats>, dev: nat, op: Op): Total {
    if dev in stats then Total(OpOf(stats[dev], op), stats[dev].requeues, stats[dev].lost) else Total(NoOps(), 0, 0)
  }

  function PlusTotal(a: Total, b: Total): Total {
    Total(PlusOp(a.op, b.op), a.requeues + b.requeues, a.lost + b.lost)
  }

  function ReportedTotal(c: Config, s0: State, es: seq<Event>, cuts: seq<Cut>, dev: nat, op: Op): Total
    requires Within(es, cuts)
  {
    if cuts == [] then Total(NoOps(), 0, 0)
    else PlusTotal(ReportedTotal(c, s0, es, cuts[..|cuts| - 1], dev, op), TotalOf(LastReport(c, s0, es, cuts), dev, op))
  }

  lemma HistAddsBack(cur: seq<nat>, prev: seq<nat>)
    requires HistGrown(prev, cur)
    ensures PlusHist(prev, HistDelta(cur, prev)) == cur
  {
  }

  /** A reading plus the difference to the next is the next. */
  lemma OpAddsBack(cur: OpStats, prev: OpStats)
    requires OpGrown(prev, cur)
    ensures PlusOp(prev, OpDelta(cur, prev)) == cur
  {
    hide PlusHist, HistDelta, HistGrown;
    HistAddsBack(cur.serviceHist, prev.serviceHist);
    HistAddsBack(cur.totalHist, prev.totalHist);
  }

  lemma EmptyHist(h: seq<nat>)
    ensures PlusHist(NoHistogram(), h) == h
  {
  }

  lemma NothingPlus(o: OpStats)
    ensures PlusOp(NoOps(), o) == o
  {
    hide PlusHist, NoHistogram;
    EmptyHist(o.serviceHist);
    EmptyHist(o.totalHist);
    assert [] + o.finished == o.finished;
  }

  /** Without completions nothing is there to subtract. */
  lemma FirstDelta(o: OpStats)
    ensures PlusOp(NoOps(), OpDelta(o, NoOps())) == o && OpDelta(o, NoOps()) == o
  {
    hide PlusHist, NoHistogram, HistDelta;
    NoHistDelta(o.serviceHist);
    NoHistDelta(o.totalHist);
    NothingPlus(o);
  }

  lemma NoHistDelta(h: seq<nat>)
    ensures HistDelta(h, NoHistogram()) == h
  {
  }

  // --------------------------------------------------------- one report

  /** The report of a device seen before is the difference to what is remembered. */
  lemma DeltaAddsBack(cur: DevStats, prev: DevStats, op: Op)
    requires DevGrown(prev, cur)
    ensures var d := StatsDelta(cur, Some(prev));
      && PlusOp(OpOf(prev, op), OpOf(d, op)) == OpOf(cur, op)
      && prev.requeues + d.requeues == cur.requeues && prev.lost + d.lost == cur.lost
      && (op in cur.ops ==> OpOf(d, op) == OpDelta(OpOf(cur, op), OpOf(prev, op)))
  {
    hide PlusOp, OpDelta, OpGrown, NoOps;
    if op in prev.ops {
      OpAddsBack(cur.ops[op], prev.ops[op]);
    } else if op in cur.ops {
      FirstDelta(cur.ops[op]);
    } else {
      NothingPlus(NoOps());
    }
  }

  /** What the sampler remembers of the statistics is the last reading. */
  lemma {:induction false} RemembersStats(c: Config, devices: set<nat>, at: nat, es: seq<Event>,
                                          cuts: seq<Cut>, dev: nat)
    requires 0 < at && Orderly(es, at) && Schedule(es, at, cuts) && cuts != []
    ensures Get(StatsMemory(c, Boot(devices, at), es, cuts), dev)
         == Get(MapsAt(c, Boot(devices, at), es, cuts[|cuts| - 1]).stats, dev)
    decreases |cuts|
  {
    hide Run, DevGrown, Stamped;
    var s0, init, k := Boot(devices, at), cuts[..|cuts| - 1], cuts[|cuts| - 1];
    if init != [] {
      var j, ek := init[|init| - 1], es[..k.m];
      assert Schedule(es, at, init);
      RemembersStats(c, devices, at, es, init, dev);
      assert ek[..j.m] == es[..j.m] && Orderly(ek, at);
      RunGrows(c, devices, at, ek, j.m);
    }
  }

  /** The reading a sample compares with: that of the sample before, or nothing. */
  function Before(c: Config, s0: State, es: seq<Event>, cuts: seq<Cut>): map<nat, DevStats>
    requires Within(es, cuts) && cuts != []
  {
    if |cuts| == 1 then map[] else MapsAt(c, s0, es, cuts[|cuts| - 2]).stats
  }

  lemma ReportIsDelta(c: Config, devices: set<nat>, at: nat, es: seq<Event>, cuts: seq<Cut>, dev: nat)
    requires 0 < at && Orderly(es, at) && Schedule(es, at, cuts) && cuts != []
    ensures var s0 := Boot(devices, at);
      var cur, prev := MapsAt(c, s0, es, cuts[|cuts| - 1]).stats, Before(c, s0, es, cuts);
      && Grown(prev, cur)
      && (dev in LastReport(c, s0, es, cuts) <==> dev in cur)
      && (dev in cur ==> LastReport(c, s0, es, cuts)[dev] == StatsDelta(cur[dev], Get(prev, dev)))
  {
    hide Run, DevGrown, StatsDelta, Stamped;
    var s0, init, k := Boot(devices, at), cuts[..|cuts| - 1], cuts[|cuts| - 1];
    if init != [] {
      var j, ek := init[|init| - 1], es[..k.m];
      assert Schedule(es, at, init) && j == cuts[|cuts| - 2];
      RemembersStats(c, devices, at, es, init, dev);
      assert ek[..j.m] == es[..j.m] && Orderly(ek, at);
      RunGrows(c, devices, at, ek, j.m);
    }
  }

  /** A reading plus the report of the next sample is the next reading. */
  lemma ReportAddsBack(c: Config, devices: set<nat>, at: nat, es: seq<Event>, cuts: seq<Cut>, dev: nat, op: Op)
    requires 0 < at && Orderly(es, at) && Schedule(es, at, cuts) && cuts != []
    ensures var s0 := Boot(devices, at);
      PlusTotal(TotalOf(Before(c, s0, es, cuts), dev, op), TotalOf(LastReport(c, s0, es, cuts), dev, op))
        == TotalOf(MapsAt(c, s0, es, cuts[|cuts| - 1]).stats, dev, op)
  {
    hide Run, LastReport, PlusTotal, TotalOf, StatsDelta, Grown, Orderly;
    var s0 := Boot(devices, at);
    ReportIsDelta(c, devices, at, es, cuts, dev);
    TotalsAdd(Before(c, s0, es, cuts), MapsAt(c, s0, es, cuts[|cuts| - 1]).stats, LastReport(c, s0, es, cuts), dev, op);
  }

  /** One device in two readings and the report between them. */
  lemma TotalsAdd(prev: map<nat, DevStats>, cur: map<nat, DevStats>, report: map<nat, DevStats>, dev: nat, op: Op)
    requires Grown(prev, cur) && (dev in report <==> dev in cur)
    requires dev in cur ==> report[dev] == StatsDelta(cur[dev], Get(prev, dev))
    ensures PlusTotal(TotalOf(prev, dev, op), TotalOf(report, dev, op)) == TotalOf(cur, dev, op)
  {
    hide PlusOp, StatsDelta, DevGrown, NoOps, OpOf;
    NothingPlus(NoOps());
    if dev in prev {
      DeltaAddsBack(cur[dev], prev[dev], op);
    } else if dev in cur {
      NothingPlus(OpOf(cur[dev], op));
      NewIsWhole(cur[dev]);
    }
  }

  lemma NewIsWhole(cur: DevStats)
    ensures StatsDelta(cur, None) == cur
  {
  }

  // ------------------------------------------------------------------- theorems

  /** Over any run and any schedule of samples, everything reported for a device
      and operation adds up to its last reading: bytes, operations, errors, the
      three latency sums, both histograms, requeues and losses. */
  lemma {:induction false} ReportsAddUp(c: Config, devices: set<nat>, at: nat, es: seq<Event>, cuts: seq<Cut>,
                                        dev: nat, op: Op)
    requires 0 < at && Orderly(es, at) && Schedule(es, at, cuts) && cuts != []
    ensures ReportedTotal(c, Boot(devices, at), es, cuts, dev, op)
         == TotalOf(MapsAt(c, Boot(devices, at), es, cuts[|cuts| - 1]).stats, dev, op)
    decreases |cuts|
  {
    hide Run, MapsAt, LastReport, PlusTotal, TotalOf, NoOps;
    var init := cuts[..|cuts| - 1];
    ReportAddsBack(c, devices, at, es, cuts, dev, op);
    if init != [] {
      assert Schedule(es, at, init) && init[|init| - 1] == cuts[|cuts| - 2];
      ReportsAddUp(c, devices, at, es, init, dev, op);
    } else {
      NothingTotal(dev, op);
    }
  }

  lemma NothingTotal(dev: nat, op: Op)
    ensures TotalOf(map[], dev, op) == Total(NoOps(), 0, 0)
  {
  }

  function PlusTally(a: Tally, b: Tally): Tally {
    Tally(a.bytes + b.bytes, a.errors + b.errors, a.finished + b.finished, a.requeues + b.requeues, a.lost + b.lost)
  }

  /** What was known of a device at the sample before. */
  function TalliedBefore(c: Config, es: seq<Event>, cuts: seq<Cut>, dev: nat, op: Op): Tally
    requires Within(es, cuts) && cuts != []
  {
    if |cuts| == 1 then NOTHING else Tallied(c, es[..cuts[|cuts| - 2].m], dev, op)
  }

  /** What one sample reports of a device and operation is exactly what the events
      since the sample before amount to: their bytes, errors, requeues and losses,
      and sums and histograms of precisely their completions. */
  lemma ReportIsSince(c: Config, devices: set<nat>, at: nat, es: seq<Event>, cuts: seq<Cut>, dev: nat, op: Op)
    requires 0 < at && Orderly(es, at) && Schedule(es, at, cuts) && cuts != []
    ensures var report, now := LastReport(c, Boot(devices, at), es, cuts), es[..cuts[|cuts| - 1].m];
      && (dev in report <==> Known(c, now, dev))
      && (dev in report ==>
            && Tallied(c, now, dev, op) == PlusTally(TalliedBefore(c, es, cuts, dev, op), ReadingOf(report[dev], op))
            && Exact(c, OpOf(report[dev], op)))
  {
    hide Run, LastReport, StatsDelta, Known, Tallied, Orderly, Grown, Exact;
    hide TotalOf, PlusTotal, Reading, ReadingOf, OpOf;
    var s0 := Boot(devices, at);
    var k := cuts[|cuts| - 1];
    RunTallies(c, devices, at, es[..k.m], dev, op);
    if |cuts| > 1 {
      RunTallies(c, devices, at, es[..cuts[|cuts| - 2].m], dev, op);
    }
    ReportIsDelta(c, devices, at, es, cuts, dev);
    ReportAddsBack(c, devices, at, es, cuts, dev, op);
    NothingRead(dev, op);
    if dev in LastReport(c, s0, es, cuts) {
      TalliesAdd(Before(c, s0, es, cuts), MapsAt(c, s0, es, k).stats, LastReport(c, s0, es, cuts), dev, op);
      ReportExact(c, devices, at, es, cuts, dev, op);
    }
  }

  lemma NothingRead(dev: nat, op: Op)
    ensures Reading(map[], dev, op) == NOTHING
  {
  }

  lemma TalliesAdd(prev: map<nat, DevStats>, cur: map<nat, DevStats>, report: map<nat, DevStats>, dev: nat, op: Op)
    requires dev in report && dev in cur
    requires PlusTotal(TotalOf(prev, dev, op), TotalOf(report, dev, op)) == TotalOf(cur, dev, op)
    ensures Reading(cur, dev, op) == PlusTally(Reading(prev, dev, op), ReadingOf(report[dev], op))
  {
    hide PlusHist, NoHistogram, OpOf;
  }

  lemma ReportExact(c: Config, devices: set<nat>, at: nat, es: seq<Event>, cuts: seq<Cut>, dev: nat, op: Op)
    requires 0 < at && Orderly(es, at) && Schedule(es, at, cuts) && cuts != []
    requires dev in LastReport(c, Boot(devices, at), es, cuts)
    ensures Exact(c, OpOf(LastReport(c, Boot(devices, at), es, cuts)[dev], op))
  {
    hide Run, LastReport, Orderly, Exact, NoOps, OpDelta, StatsDelta, DevGrown;
    var s0 := Boot(devices, at);
    var cur, prev := MapsAt(c, s0, es, cuts[|cuts| - 1]).stats, Before(c, s0, es, cuts);
    ReportIsDelta(c, devices, at, es, cuts, dev);
    RunExact(c, devices, at, es[..cuts[|cuts| - 1].m]);
    assert DevExact(c, cur[dev]);
    if dev in prev {
      RunExact(c, devices, at, es[..cuts[|cuts| - 2].m]);
      assert DevExact(c, prev[dev]);
      DeltaIsExact(c, cur[dev], prev[dev], op);
    } else {
      NoOpsExact(c);
      NewIsWhole(cur[dev]);
    }
  }

  lemma DeltaIsExact(c: Config, cur: DevStats, prev: DevStats, op: Op)
    requires DevGrown(prev, cur) && DevExact(c, cur) && DevExact(c, prev)
    ensures Exact(c, OpOf(StatsDelta(cur, Some(prev)), op))
  {
    hide Exact, NoOps, OpDelta;
    NoOpsExact(c);
    if op in prev.ops {
      DeltaExact(c, cur.ops[op], prev.ops[op]);
    } else if op in cur.ops {
      FirstDelta(cur.ops[op]);
    }
  }
}
