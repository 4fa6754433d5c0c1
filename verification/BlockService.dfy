/** Latency accounting of the block tracker over every run: the sums and
    histograms are those of the completions, the difference of two samples is that
    of the completions in between, and exactly when service time stays within
    total time. */
module BlockService {
  import opened Naturals
  import opened Words
  import opened BlockDepth
  import opened BlockLatency
  import opened BlockRequests

  // ---------------------------------------------------- service below total

  /** Marked as issued with no issue time: what a requeue in the nanosecond of
      the issue leaves behind, until the request is issued again. */
  predicate Stuck(r: Request) {
    r.issued && r.issueNs == 0
  }

  /** Accumulated service time fits the time since the request was first seen. */
  predicate Fits(r: Request, t: nat) {
    r.firstSeen <= t && r.serviceNs <= t - r.firstSeen
  }

  predicate FitsAll(m: map<nat, Request>, t: nat) {
    forall id | id in m :: Fits(m[id], t)
  }

  /** It also fits before the issue that is still running. */
  predicate InTime(r: Request, t: nat) {
    && 0 < r.firstSeen && Fits(r, t)
    && (r.issued && r.issueNs != 0 ==> Fits(r, r.issueNs) && r.issueNs <= t)
  }

  predicate AllInTime(m: map<nat, Request>, t: nat) {
    forall id | id in m :: InTime(m[id], t)
  }

  /** The event closes an attempt of a tracked request: a requeue, or the final
      completion. */
  predicate Closes(c: Config, s: State, e: Event) {
    && (e.Requeue? || e.Complete?) && c.tracking && ShouldTrack(c, e.dev, e.op) && e.id in s.requests
    && (e.Complete? ==> Finishes(s.requests[e.id], e))
  }

  /** No attempt is closed that has lost its issue time. */
  predicate Timely(c: Config, s: State, e: Event) {
    Closes(c, s, e) ==> !Stuck(s.requests[e.id])
  }

  /** What a final completion reports is service within total. */
  predicate ReportFits(c: Config, s: State, e: Event) {
    Closes(c, s, e) && e.Complete? ==>
      LatencyAt(s.requests[e.id], e.now).service <= LatencyAt(s.requests[e.id], e.now).total
  }

  lemma StepRequests(c: Config, s: State, e: Event, t: nat)
    requires AllInTime(s.requests, t) && t <= e.now && 0 < e.now && Timely(c, s, e)
    ensures AllInTime(Step(c, s, e).requests, e.now)
  {
    hide Step, Timely, InTime;
    var m, m' := s.requests, Step(c, s, e).requests;
    StepNamed(c, s, e, t);
    StepOthers(c, s, e);
    forall id | id in m' && id != e.id ensures InTime(m'[id], e.now) {
      InTimeLater(m[id], t, e.now);
    }
  }

  lemma InTimeLater(r: Request, t: nat, now: nat)
    requires InTime(r, t) && t <= now
    ensures InTime(r, now)
  {
  }

  lemma StepOthers(c: Config, s: State, e: Event)
    ensures forall id | id in Step(c, s, e).requests && id != e.id ::
      id in s.requests && Step(c, s, e).requests[id] == s.requests[id]
  {
    hide RecordBytes, RecordCompletion, RecordLost, RecordRequeue, AdjustDepth;
  }

  lemma StepNamed(c: Config, s: State, e: Event, t: nat)
    requires AllInTime(s.requests, t) && t <= e.now && 0 < e.now && Timely(c, s, e)
    ensures e.id in Step(c, s, e).requests ==> InTime(Step(c, s, e).requests[e.id], e.now)
  {
    hide RecordBytes, RecordCompletion, RecordLost, RecordRequeue, AdjustDepth;
    assert e.id in s.requests ==> InTime(s.requests[e.id], t);
  }

  /** An attempt without issue time is charged with everything since boot. */
  lemma LateClose(c: Config, s: State, e: Event, t: nat)
    requires AllInTime(s.requests, t) && t <= e.now && 0 < e.now && !Timely(c, s, e)
    ensures !(FitsAll(Step(c, s, e).requests, e.now) && ReportFits(c, s, e))
  {
    hide RecordBytes, RecordCompletion, RecordLost, RecordRequeue, AdjustDepth;
    assert InTime(s.requests[e.id], t);
    if e.Requeue? {
      assert !Fits(Step(c, s, e).requests[e.id], e.now);
    }
  }

  /** One event keeps every request's service time within the time since first
      sight, and reports service within total, if and only if it does not close
      an attempt that has lost its issue time. */
  lemma StepFitsIff(c: Config, s: State, e: Event, t: nat)
    requires AllInTime(s.requests, t) && t <= e.now && 0 < e.now
    ensures FitsAll(Step(c, s, e).requests, e.now) && ReportFits(c, s, e) <==> Timely(c, s, e)
  {
    hide Step, Timely, ReportFits;
    if Timely(c, s, e) {
      StepRequests(c, s, e, t);
      InTimeFits(Step(c, s, e).requests, e.now);
      ReportOrdered(c, s, e, t);
    } else {
      LateClose(c, s, e, t);
    }
  }

  lemma InTimeFits(m: map<nat, Request>, t: nat)
    requires AllInTime(m, t)
    ensures FitsAll(m, t)
  {
    forall id | id in m ensures Fits(m[id], t) {
      assert InTime(m[id], t);
    }
  }

  /** A completion of an attempt that has its issue time reports service within
      total. */
  lemma ReportOrdered(c: Config, s: State, e: Event, t: nat)
    requires AllInTime(s.requests, t) && t <= e.now && Timely(c, s, e)
    ensures ReportFits(c, s, e)
  {
    if Closes(c, s, e) {
      assert InTime(s.requests[e.id], t);
    }
  }

  /** A request that is requeued and then completed reports service within
      total exactly when the requeue came strictly after the issue: in the same
      nanosecond the request stays marked as issued with its issue time reset,
      and everything since boot is counted as service. */
  lemma RequeueTieIff(c: Config, s: State, t: nat, e: Event, now: nat)
    requires c.tracking && e.Requeue? && ShouldTrack(c, e.dev, e.op)
    requires AllInTime(s.requests, t) && t <= e.now <= now
    requires e.id in s.requests && s.requests[e.id].issued && s.requests[e.id].issueNs != 0
    ensures e.id in Step(c, s, e).requests
    ensures var l := LatencyAt(Step(c, s, e).requests[e.id], now);
      l.service <= l.total <==> s.requests[e.id].issueNs < e.now
  {
    assert InTime(s.requests[e.id], t);
  }

  /** Issued and requeued at 100, completed at 200: 200 of service in 100. */
  lemma RequeueTieExample()
    ensures var c := Config(true, true, true, true, true, true, {Read}, false, {});
      var es := [Issue(100, 1, 8, Read, 4096, false, false), Requeue(100, 1, 8, Read, false)];
      var s := Run(c, Boot({}, 1), es);
      Orderly(es, 1) && 1 in s.requests && LatencyAt(s.requests[1], 200) == Latency(200, 100)
  {
    hide RecordBytes, RecordCompletion, RecordLost, RecordRequeue;
    var c := Config(true, true, true, true, true, true, {Read}, false, {});
    var e1, e2 := Issue(100, 1, 8, Read, 4096, false, false), Requeue(100, 1, 8, Read, false);
    var s0 := Boot({}, 1);
    assert [e1, e2][..1] == [e1] && [e1][..0] == [];
    var s1 := Step(c, s0, e1);
    assert Run(c, s0, [e1]) == s1;
    assert Run(c, s0, [e1, e2]) == Step(c, s1, e2);
  }

  predicate TimelyRun(c: Config, s: State, es: seq<Event>) {
    es == [] || (TimelyRun(c, s, es[..|es| - 1]) && Timely(c, Run(c, s, es[..|es| - 1]), es[|es| - 1]))
  }

  /** After every event of the run all service times fit, and every final
      completion reports service within total. */
  predicate HonestRun(c: Config, s: State, es: seq<Event>) {
    es == [] ||
    (var init, e := es[..|es| - 1], es[|es| - 1];
     HonestRun(c, s, init) && FitsAll(Run(c, s, es).requests, e.now) && ReportFits(c, Run(c, s, init), e))
  }

  /** Over whole runs: service times fit and reports are in order throughout if
      and only if no requeue or final completion ever finds a request marked as
      issued without an issue time. */
  lemma {:induction false} HonestIffTimely(c: Config, devices: set<nat>, at: nat, es: seq<Event>)
    requires 0 < at && Orderly(es, at)
    ensures HonestRun(c, Boot(devices, at), es) <==> TimelyRun(c, Boot(devices, at), es)
    ensures TimelyRun(c, Boot(devices, at), es) ==> AllInTime(Run(c, Boot(devices, at), es).requests, LastTime(es, at))
    decreases |es|
  {
    hide Timely, ReportFits, Step, FitsAll;
    if es != [] {
      var init, e := es[..|es| - 1], es[|es| - 1];
      assert Orderly(init, at);
      HonestIffTimely(c, devices, at, init);
      if TimelyRun(c, Boot(devices, at), init) {
        StepFitsIff(c, Run(c, Boot(devices, at), init), e, LastTime(init, at));
        if Timely(c, Run(c, Boot(devices, at), init), e) {
          StepRequests(c, Run(c, Boot(devices, at), init), e, LastTime(init, at));
        }
      }
    }
  }

  // --------------------------------------------------- sums and histograms

  function ServiceMicros(l: seq<Latency>): (r: seq<nat>)
    ensures |r| == |l|
  {
    seq(|l|, i requires 0 <= i < |l| => l[i].service / 1000)
  }

  function TotalMicros(l: seq<Latency>): (r: seq<nat>)
    ensures |r| == |l|
  {
    seq(|l|, i requires 0 <= i < |l| => l[i].total / 1000)
  }

  datatype Sums = Sums(queue: nat, service: nat, total: nat)

  function SumsOf(l: seq<Latency>): Sums {
    if l == [] then Sums(0, 0, 0)
    else
      var s, x := SumsOf(l[..|l| - 1]), l[|l| - 1];
      Sums(s.queue + SatSub(x.total, x.service), s.service + x.service, s.total + x.total)
  }

  /** The counters of one operation are those of its completions. */
  predicate Exact(c: Config, o: OpStats) {
    && o.operations == (if c.operations then |o.finished| else 0)
    && (c.latency ==>
          && Sums(o.queueNs, o.serviceNs, o.totalNs) == SumsOf(o.finished)
          && o.serviceHist == Histogram(ServiceMicros(o.finished))
          && o.totalHist == Histogram(TotalMicros(o.finished)))
  }

  predicate Ordered(l: seq<Latency>) {
    forall i | 0 <= i < |l| :: l[i].service <= l[i].total
  }

  predicate DevExact(c: Config, d: DevStats) {
    forall op | op in d.ops :: Exact(c, d.ops[op])
  }

  predicate AllExact(c: Config, stats: map<nat, DevStats>) {
    forall dev | dev in stats :: DevExact(c, stats[dev])
  }

  predicate DevOrdered(d: DevStats) {
    forall op | op in d.ops :: Ordered(d.ops[op].finished)
  }

  predicate AllOrdered(stats: map<nat, DevStats>) {
    forall dev | dev in stats :: DevOrdered(stats[dev])
  }

  lemma FinishExact(c: Config, o: OpStats, l: Latency)
    requires Exact(c, o)
    ensures Exact(c, Finish(c, o, SatSub(l.total, l.service), l))
  {
    var f := o.finished;
    assert (f + [l])[..|f|] == f;
    assert ServiceMicros(f + [l]) == ServiceMicros(f) + [l.service / 1000];
    assert TotalMicros(f + [l]) == TotalMicros(f) + [l.total / 1000];
    BucketBounds(l.service / 1000);
    BucketBounds(l.total / 1000);
    HistogramAppend(ServiceMicros(f), l.service / 1000);
    HistogramAppend(TotalMicros(f), l.total / 1000);
  }

  lemma NoOpsExact(c: Config)
    ensures Exact(c, NoOps()) && NoOps().finished == []
  {
    assert NoHistogram() == Histogram([]);
    assert ServiceMicros([]) == [] && TotalMicros([]) == [];
  }

  lemma TouchExact(c: Config, stats: map<nat, DevStats>, dev: nat, now: nat, refused: bool)
    requires AllExact(c, stats)
    ensures AllExact(c, Touch(stats, dev, now, refused))
    ensures dev in Touch(stats, dev, now, refused) ==>
      forall op :: Exact(c, OpOf(Touch(stats, dev, now, refused)[dev], op))
  {
    hide Exact, NoOps;
    NoOpsExact(c);
    var t := Touch(stats, dev, now, refused);
    assert dev in t ==> DevExact(c, t[dev]);
  }

  lemma BytesExact(c: Config, stats: map<nat, DevStats>, dev: nat, op: Op, bytes: nat, error: bool,
                   now: nat, refused: bool)
    requires AllExact(c, stats)
    ensures AllExact(c, RecordBytes(c, stats, dev, op, bytes, error, now, refused))
  {
    hide Touch, OpOf;
    TouchExact(c, stats, dev, now, refused);
  }

  lemma CompletionExact(c: Config, stats: map<nat, DevStats>, dev: nat, op: Op, l: Latency, now: nat, refused: bool)
    requires AllExact(c, stats)
    ensures AllExact(c, RecordCompletion(c, stats, dev, op, SatSub(l.total, l.service), l, now, refused))
  {
    hide Touch, OpOf, Exact, Finish;
    TouchExact(c, stats, dev, now, refused);
    var t := Touch(stats, dev, now, refused);
    if dev in t {
      FinishExact(c, OpOf(t[dev], op), l);
    }
  }

  lemma CountersExact(c: Config, stats: map<nat, DevStats>, dev: nat, now: nat, refused: bool)
    requires AllExact(c, stats)
    ensures AllExact(c, RecordLost(c, stats, dev, now, refused))
    ensures AllExact(c, RecordRequeue(c, stats, dev, now, refused))
  {
    hide Touch, Exact;
    TouchExact(c, stats, dev, now, refused);
  }

  lemma StepExact(c: Config, s: State, e: Event)
    requires AllExact(c, s.stats)
    ensures AllExact(c, Step(c, s, e).stats)
  {
    hide AllExact, RecordBytes, RecordCompletion, RecordLost, RecordRequeue, AdjustDepth;
    if !e.Merge? {
      CountersExact(c, s.stats, e.dev, e.now, e.noStats);
    }
    if e.Complete? {
      BytesExact(c, s.stats, e.dev, e.op, e.bytes, e.error, e.now, e.noStats);
      var b := RecordBytes(c, s.stats, e.dev, e.op, e.bytes, e.error, e.now, e.noStats);
      CompletionExact(c, b, e.dev, e.op, Latency(0, 0), e.now, e.noStats);
      if e.id in s.requests {
        var r := s.requests[e.id];
        CompletionExact(c, b, r.dev, r.op, LatencyAt(r, e.now), e.now, e.noStats);
      }
    }
  }

  /** After every run, in any order of events and times, the counters, sums and
      histograms of every device and operation are exactly those of its
      completions. */
  lemma {:induction false} RunExact(c: Config, devices: set<nat>, at: nat, es: seq<Event>)
    ensures AllExact(c, Run(c, Boot(devices, at), es).stats)
    decreases |es|
  {
    hide Step;
    if es != [] {
      RunExact(c, devices, at, es[..|es| - 1]);
      StepExact(c, Run(c, Boot(devices, at), es[..|es| - 1]), es[|es| - 1]);
    }
  }

  // ---------------------------------------------------------- balance of the sums

  lemma TouchOrdered(stats: map<nat, DevStats>, dev: nat, now: nat, refused: bool)
    requires AllOrdered(stats)
    ensures AllOrdered(Touch(stats, dev, now, refused))
    ensures dev in Touch(stats, dev, now, refused) ==>
      forall op :: Ordered(OpOf(Touch(stats, dev, now, refused)[dev], op).finished)
  {
    var t := Touch(stats, dev, now, refused);
    assert dev in t ==> DevOrdered(t[dev]);
  }

  lemma BytesOrdered(c: Config, stats: map<nat, DevStats>, dev: nat, op: Op, bytes: nat, error: bool,
                     now: nat, refused: bool)
    requires AllOrdered(stats)
    ensures AllOrdered(RecordBytes(c, stats, dev, op, bytes, error, now, refused))
  {
    hide Touch, OpOf, Ordered;
    TouchOrdered(stats, dev, now, refused);
  }

  lemma CompletionOrdered(c: Config, stats: map<nat, DevStats>, dev: nat, op: Op, q: nat, l: Latency,
                          now: nat, refused: bool)
    requires AllOrdered(stats) && l.service <= l.total
    ensures AllOrdered(RecordCompletion(c, stats, dev, op, q, l, now, refused))
  {
    hide Touch, OpOf, Ordered, Finish;
    TouchOrdered(stats, dev, now, refused);
    var t := Touch(stats, dev, now, refused);
    if dev in t {
      FinishOrdered(c, OpOf(t[dev], op), q, l);
    }
  }

  lemma FinishOrdered(c: Config, o: OpStats, q: nat, l: Latency)
    requires Ordered(o.finished) && l.service <= l.total
    ensures Ordered(Finish(c, o, q, l).finished)
  {
  }

  lemma CountersOrdered(c: Config, stats: map<nat, DevStats>, dev: nat, now: nat, refused: bool)
    requires AllOrdered(stats)
    ensures AllOrdered(RecordLost(c, stats, dev, now, refused))
    ensures AllOrdered(RecordRequeue(c, stats, dev, now, refused))
  {
    hide Touch, Ordered;
    TouchOrdered(stats, dev, now, refused);
  }

  lemma StepOrdered(c: Config, s: State, e: Event)
    requires AllOrdered(s.stats) && ReportFits(c, s, e)
    ensures AllOrdered(Step(c, s, e).stats)
  {
    hide AllOrdered, RecordBytes, RecordCompletion, RecordLost, RecordRequeue, AdjustDepth;
    if !e.Merge? {
      CountersOrdered(c, s.stats, e.dev, e.now, e.noStats);
    }
    if e.Complete? {
      BytesOrdered(c, s.stats, e.dev, e.op, e.bytes, e.error, e.now, e.noStats);
      var b := RecordBytes(c, s.stats, e.dev, e.op, e.bytes, e.error, e.now, e.noStats);
      CompletionOrdered(c, b, e.dev, e.op, 0, Latency(0, 0), e.now, e.noStats);
      if Closes(c, s, e) {
        var r := s.requests[e.id];
        var l := LatencyAt(r, e.now);
        CompletionOrdered(c, b, r.dev, r.op, SatSub(l.total, l.service), l, e.now, e.noStats);
      }
    }
  }

  /** In a timely run every recorded completion has service within total. */
  lemma {:induction false} RunOrdered(c: Config, devices: set<nat>, at: nat, es: seq<Event>)
    requires 0 < at && Orderly(es, at) && TimelyRun(c, Boot(devices, at), es)
    ensures AllOrdered(Run(c, Boot(devices, at), es).stats)
    decreases |es|
  {
    hide Timely, ReportFits, Step;
    if es != [] {
      var init := es[..|es| - 1];
      assert Orderly(init, at);
      RunOrdered(c, devices, at, init);
      HonestIffTimely(c, devices, at, es);
      StepOrdered(c, Run(c, Boot(devices, at), init), es[|es| - 1]);
    }
  }

  lemma {:induction false} SumsAddIff(l: seq<Latency>)
    ensures SumsOf(l).queue + SumsOf(l).service >= SumsOf(l).total
    ensures SumsOf(l).queue + SumsOf(l).service == SumsOf(l).total <==> Ordered(l)
  {
    if l != [] {
      SumsAddIff(l[..|l| - 1]);
      assert Ordered(l) <==> Ordered(l[..|l| - 1]) && l[|l| - 1].service <= l[|l| - 1].total;
    }
  }

  /** After every run whatsoever, for every device and operation: queue and
      service latency add up to the total if and only if every completion had
      service within total, and both histograms hold one entry per completion. */
  lemma BalanceIff(c: Config, devices: set<nat>, at: nat, es: seq<Event>, dev: nat, op: Op)
    requires c.latency
    requires var s := Run(c, Boot(devices, at), es); dev in s.stats && op in s.stats[dev].ops
    ensures var o := Run(c, Boot(devices, at), es).stats[dev].ops[op];
      && (o.queueNs + o.serviceNs == o.totalNs <==> Ordered(o.finished))
      && BlockLatency.Sum(o.serviceHist) == BlockLatency.Sum(o.totalHist) == |o.finished|
      && (c.operations ==> o.operations == |o.finished|)
  {
    hide Run, Histogram, ServiceMicros, TotalMicros;
    RunExact(c, devices, at, es);
    var o := Run(c, Boot(devices, at), es).stats[dev].ops[op];
    assert DevExact(c, Run(c, Boot(devices, at), es).stats[dev]);
    SumsAddIff(o.finished);
    HistogramTotal(ServiceMicros(o.finished));
    HistogramTotal(TotalMicros(o.finished));
  }

  /** So in a timely run the sums balance everywhere. */
  lemma LatencySumsBalance(c: Config, devices: set<nat>, at: nat, es: seq<Event>, dev: nat, op: Op)
    requires c.latency && 0 < at && Orderly(es, at) && TimelyRun(c, Boot(devices, at), es)
    requires var s := Run(c, Boot(devices, at), es); dev in s.stats && op in s.stats[dev].ops
    ensures var o := Run(c, Boot(devices, at), es).stats[dev].ops[op]; o.queueNs + o.serviceNs == o.totalNs
  {
    hide Run, Ordered;
    RunOrdered(c, devices, at, es);
    assert DevOrdered(Run(c, Boot(devices, at), es).stats[dev]);
    BalanceIff(c, devices, at, es, dev, op);
  }

  // ------------------------------------------------------ between two samples

  function HistDelta(cur: seq<nat>, prev: seq<nat>): seq<nat> {
    seq(|cur|, i requires 0 <= i < |cur| => SatSub(cur[i], if i < |prev| then prev[i] else 0))
  }

  function OpDelta(cur: OpStats, prev: OpStats): OpStats {
    OpStats(SatSub(cur.bytes, prev.bytes), SatSub(cur.operations, prev.operations), SatSub(cur.errors, prev.errors),
            SatSub(cur.queueNs, prev.queueNs), SatSub(cur.serviceNs, prev.serviceNs), SatSub(cur.totalNs, prev.totalNs),
            HistDelta(cur.serviceHist, prev.serviceHist), HistDelta(cur.totalHist, prev.totalHist),
            if prev.finished <= cur.finished then cur.finished[|prev.finished|..] else cur.finished)
  }

  /** The difference of two readings of the same operation is exactly the
      statistics of the completions in between, and of no others. */
  lemma DeltaExact(c: Config, cur: OpStats, prev: OpStats)
    requires Exact(c, cur) && Exact(c, prev) && prev.finished <= cur.finished
    ensures Exact(c, OpDelta(cur, prev))
    ensures cur.finished == prev.finished + OpDelta(cur, prev).finished
  {
    hide Histogram, HistDelta, ServiceMicros, TotalMicros, SumsOf;
    var p, d := prev.finished, cur.finished[|prev.finished|..];
    assert cur.finished == p + d;
    SumsConcat(p, d);
    MicrosConcat(p, d);
    HistogramDelta(ServiceMicros(p), ServiceMicros(d));
    HistogramDelta(TotalMicros(p), TotalMicros(d));
  }

  lemma MicrosConcat(p: seq<Latency>, d: seq<Latency>)
    ensures ServiceMicros(p + d) == ServiceMicros(p) + ServiceMicros(d)
    ensures TotalMicros(p + d) == TotalMicros(p) + TotalMicros(d)
  {
  }

  lemma HistogramDelta(p: seq<nat>, d: seq<nat>)
    ensures HistDelta(Histogram(p + d), Histogram(p)) == Histogram(d)
  {
    forall b | 0 <= b < HISTOGRAM_BUCKETS
      ensures HistDelta(Histogram(p + d), Histogram(p))[b] == Histogram(d)[b]
    {
      CountConcat(p, d, b);
    }
  }

  lemma {:induction false} SumsConcat(p: seq<Latency>, d: seq<Latency>)
    ensures SumsOf(p + d) == Sums(SumsOf(p).queue + SumsOf(d).queue, SumsOf(p).service + SumsOf(d).service,
                                  SumsOf(p).total + SumsOf(d).total)
    decreases |d|
  {
    if d == [] {
      assert p + d == p;
    } else {
      assert (p + d)[..|p + d| - 1] == p + d[..|d| - 1];
      SumsConcat(p, d[..|d| - 1]);
    }
  }

  /** The percentiles of one interval: read from the delta histograms, they
      bracket the nearest-rank quantiles of the latencies of that interval. */
  method IntervalPercentile(c: Config, cur: OpStats, prev: OpStats, num: nat, den: nat)
    returns (service: int, total: int)
    requires c.latency && Exact(c, cur) && Exact(c, prev) && prev.finished <= cur.finished && 0 < num <= den
    ensures var f := cur.finished[|prev.finished|..];
      if f == [] then service == total == 0
      else Quantile(ServiceMicros(f), num, den, service) && Quantile(TotalMicros(f), num, den, total)
  {
    DeltaExact(c, cur, prev);
    ghost var f := cur.finished[|prev.finished|..];
    service := PercentileOf(ServiceMicros(f), OpDelta(cur, prev).serviceHist, num, den);
    total := PercentileOf(TotalMicros(f), OpDelta(cur, prev).totalHist, num, den);
  }

  /** No counter of an operation goes back, and its list of completions only
      grows. */
  predicate OpGrown(a: OpStats, b: OpStats) {
    && a.bytes <= b.bytes && a.operations <= b.operations && a.errors <= b.errors
    && a.queueNs <= b.queueNs && a.serviceNs <= b.serviceNs && a.totalNs <= b.totalNs
    && HistGrown(a.serviceHist, b.serviceHist) && HistGrown(a.totalHist, b.totalHist)
    && a.finished <= b.finished
  }

  predicate HistGrown(a: seq<nat>, b: seq<nat>) {
    |a| == |b| && forall i | 0 <= i < |a| :: a[i] <= b[i]
  }

  /** Statistics entries stay, keep their registration time, and only grow. */
  predicate Grown(a: map<nat, DevStats>, b: map<nat, DevStats>) {
    forall dev | dev in a :: dev in b && DevGrown(a[dev], b[dev])
  }

  predicate DevGrown(a: DevStats, b: DevStats) {
    && b.firstSeen == a.firstSeen && a.requeues <= b.requeues && a.lost <= b.lost
    && forall op | op in a.ops :: op in b.ops && OpGrown(a.ops[op], b.ops[op])
  }

  predicate Stamped(stats: map<nat, DevStats>) {
    forall dev | dev in stats :: stats[dev].firstSeen > 0
  }

  lemma TouchGrows(stats: map<nat, DevStats>, dev: nat, now: nat, refused: bool)
    requires Stamped(stats) && 0 < now
    ensures var t := Touch(stats, dev, now, refused); Grown(stats, t) && Stamped(t)
  {
    hide OpGrown;
    GrownReflexive(stats);
  }

  lemma RecordsGrow(c: Config, stats: map<nat, DevStats>, dev: nat, op: Op, q: nat, l: Latency, bytes: nat, error: bool,
                    now: nat, refused: bool)
    requires Stamped(stats) && 0 < now
    ensures var r := RecordBytes(c, stats, dev, op, bytes, error, now, refused); Grown(stats, r) && Stamped(r)
    ensures var r := RecordCompletion(c, stats, dev, op, q, l, now, refused); Grown(stats, r) && Stamped(r)
  {
    hide Touch, Grown, Stamped, Finish, PutOp;
    TouchGrows(stats, dev, now, refused);
    GrownReflexive(stats);
    var t := Touch(stats, dev, now, refused);
    if dev in t {
      var o := OpOf(t[dev], op);
      var o1 := o.(bytes := if c.bytes then o.bytes + bytes else o.bytes,
                   errors := if c.errors && error then o.errors + 1 else o.errors);
      FinishKeeps(c, o, q, l);
      PutGrows(stats, t, dev, op, o1, now);
      PutGrows(stats, t, dev, op, Finish(c, o, q, l), now);
    }
  }

  lemma CountersGrow(c: Config, stats: map<nat, DevStats>, dev: nat, now: nat, refused: bool)
    requires Stamped(stats) && 0 < now
    ensures var r := RecordLost(c, stats, dev, now, refused); Grown(stats, r) && Stamped(r)
    ensures var r := RecordRequeue(c, stats, dev, now, refused); Grown(stats, r) && Stamped(r)
  {
    hide Touch, Grown, Stamped;
    TouchGrows(stats, dev, now, refused);
    GrownReflexive(stats);
    var t := Touch(stats, dev, now, refused);
    if dev in t {
      CountGrows(stats, t, dev, t[dev].(lost := t[dev].lost + 1));
      CountGrows(stats, t, dev, t[dev].(requeues := t[dev].requeues + 1));
    }
  }

  lemma FinishKeeps(c: Config, o: OpStats, q: nat, l: Latency)
    ensures OpGrown(o, Finish(c, o, q, l))
  {
  }

  lemma PutGrows(stats: map<nat, DevStats>, t: map<nat, DevStats>, dev: nat, op: Op, o: OpStats, now: nat)
    requires Grown(stats, t) && Stamped(t) && dev in t && OpGrown(OpOf(t[dev], op), o)
    ensures Grown(stats, PutOp(t, dev, op, o, now)) && Stamped(PutOp(t, dev, op, o, now))
  {
    hide OpGrown, Grown, Stamped;
    forall k | k in t[dev].ops ensures OpGrown(t[dev].ops[k], t[dev].ops[k]) {
      OpGrownReflexive(t[dev].ops[k]);
    }
    CountGrows(stats, t, dev, PutOp(t, dev, op, o, now)[dev]);
  }

  lemma OpGrownReflexive(a: OpStats)
    ensures OpGrown(a, a)
  {
  }

  lemma OpGrownThrough(a: OpStats, b: OpStats, d: OpStats)
    requires OpGrown(a, b) && OpGrown(b, d)
    ensures OpGrown(a, d)
  {
  }

  lemma DevGrownThrough(a: DevStats, b: DevStats, d: DevStats)
    requires DevGrown(a, b) && DevGrown(b, d)
    ensures DevGrown(a, d)
  {
    hide OpGrown;
    forall op | op in a.ops ensures op in d.ops && OpGrown(a.ops[op], d.ops[op]) {
      OpGrownThrough(a.ops[op], b.ops[op], d.ops[op]);
    }
  }

  lemma CountGrows(stats: map<nat, DevStats>, t: map<nat, DevStats>, dev: nat, d: DevStats)
    requires Grown(stats, t) && Stamped(t) && dev in t && DevGrown(t[dev], d)
    ensures Grown(stats, t[dev := d]) && Stamped(t[dev := d])
  {
    hide DevGrown;
    forall j | j in stats ensures j in t[dev := d] && DevGrown(stats[j], t[dev := d][j]) {
      assert DevGrown(stats[j], t[j]);
      if j == dev {
        DevGrownThrough(stats[j], t[j], d);
      }
    }
    DevStamped(t[dev], d);
  }

  lemma DevStamped(a: DevStats, b: DevStats)
    requires DevGrown(a, b)
    ensures b.firstSeen == a.firstSeen
  {
  }

  lemma StepGrows(c: Config, s: State, e: Event)
    requires Stamped(s.stats) && 0 < e.now
    ensures Grown(s.stats, Step(c, s, e).stats) && Stamped(Step(c, s, e).stats)
  {
    hide RecordBytes, RecordCompletion, RecordLost, RecordRequeue, AdjustDepth, Grown, Stamped;
    GrownReflexive(s.stats);
    if !e.Merge? {
      CountersGrow(c, s.stats, e.dev, e.now, e.noStats);
    }
    if e.Complete? {
      RecordsGrow(c, s.stats, e.dev, e.op, 0, Latency(0, 0), e.bytes, e.error, e.now, e.noStats);
      var b := RecordBytes(c, s.stats, e.dev, e.op, e.bytes, e.error, e.now, e.noStats);
      RecordsGrow(c, b, e.dev, e.op, 0, Latency(0, 0), 0, false, e.now, e.noStats);
      GrownThrough(s.stats, b, RecordCompletion(c, b, e.dev, e.op, 0, Latency(0, 0), e.now, e.noStats));
      if e.id in s.requests {
        var r := s.requests[e.id];
        var l := LatencyAt(r, e.now);
        RecordsGrow(c, b, r.dev, r.op, SatSub(l.total, l.service), l, 0, false, e.now, e.noStats);
        GrownThrough(s.stats, b, RecordCompletion(c, b, r.dev, r.op, SatSub(l.total, l.service), l, e.now, e.noStats));
      }
    }
  }

  lemma GrownReflexive(a: map<nat, DevStats>)
    ensures Grown(a, a)
  {
    hide OpGrown;
    forall dev, op | dev in a && op in a[dev].ops ensures OpGrown(a[dev].ops[op], a[dev].ops[op]) {
      OpGrownReflexive(a[dev].ops[op]);
    }
  }

  lemma GrownThrough(a: map<nat, DevStats>, b: map<nat, DevStats>, d: map<nat, DevStats>)
    requires Grown(a, b) && Grown(b, d)
    ensures Grown(a, d)
  {
    hide DevGrown;
    forall dev | dev in a ensures dev in d && DevGrown(a[dev], d[dev]) {
      assert DevGrown(a[dev], b[dev]) && DevGrown(b[dev], d[dev]);
      DevGrownThrough(a[dev], b[dev], d[dev]);
    }
  }

  lemma {:induction false} RunGrows(c: Config, devices: set<nat>, at: nat, es: seq<Event>, n: nat)
    requires 0 < at && Orderly(es, at) && n <= |es|
    ensures Stamped(Run(c, Boot(devices, at), es).stats)
    ensures Grown(Run(c, Boot(devices, at), es[..n]).stats, Run(c, Boot(devices, at), es).stats)
    decreases |es|
  {
    hide Grown, Stamped;
    var s0 := Boot(devices, at);
    if n == |es| {
      assert es[..n] == es;
      GrownReflexive(Run(c, s0, es).stats);
    }
    if es != [] {
      var init := es[..|es| - 1];
      assert Orderly(init, at);
      RunGrows(c, devices, at, init, if n < |es| then n else |es| - 1);
      StepGrows(c, Run(c, s0, init), es[|es| - 1]);
      if n < |es| {
        assert init[..n] == es[..n];
        GrownThrough(Run(c, s0, es[..n]).stats, Run(c, s0, init).stats, Run(c, s0, es).stats);
      }
    } else {
      BootStamped(devices, at);
    }
  }

  lemma BootStamped(devices: set<nat>, at: nat)
    ensures Stamped(Boot(devices, at).stats)
  {
  }

  /** Any two readings of a run, the earlier after `n` events: the delta of each
      operation is exact for the completions in between. */
  lemma SampleDeltaExact(c: Config, devices: set<nat>, at: nat, es: seq<Event>, n: nat, dev: nat, op: Op)
    requires 0 < at && Orderly(es, at) && n <= |es|
    requires var p := Run(c, Boot(devices, at), es[..n]).stats; dev in p && op in p[dev].ops
    ensures var cur := Run(c, Boot(devices, at), es).stats;
      var prev := Run(c, Boot(devices, at), es[..n]).stats;
      && dev in cur && op in cur[dev].ops && cur[dev].firstSeen == prev[dev].firstSeen
      && prev[dev].ops[op].finished <= cur[dev].ops[op].finished
      && Exact(c, OpDelta(cur[dev].ops[op], prev[dev].ops[op]))
  {
    hide Exact;
    var cur, prev := Run(c, Boot(devices, at), es).stats, Run(c, Boot(devices, at), es[..n]).stats;
    RunGrows(c, devices, at, es, n);
    RunExact(c, devices, at, es);
    RunExact(c, devices, at, es[..n]);
    assert DevGrown(prev[dev], cur[dev]) && DevExact(c, cur[dev]) && DevExact(c, prev[dev]);
    DeltaExact(c, cur[dev].ops[op], prev[dev].ops[op]);
  }
}
