/** CPU utilisation per thread: slices from all processors are summed, and when
    every processor has reported the end of an interval the sums are turned into
    percentages and start again from zero. */
module CpuUsage {
  import opened Naturals
  import opened Words
  import opened CpuTimes

  const U64_MAX: nat := 0xffff_ffff_ffff_ffff

  type Key = (nat, nat)

  datatype Stats = Stats(cpu: int, kernel: int, min: nat)

  datatype Report = Report(cpu: int, kernel: int, min: nat, max: nat)

  datatype Meter = Meter(stats: map<Key, Stats>, boundaries: nat, max: nat, rounds: seq<map<Key, Report>>)

  const IDLE: Meter := Meter(map[], 0, 0, [])

  function KeyOf(e: Slice): Key {
    (e.tgid, e.tid)
  }

  predicate Counted(e: Slice) {
    e.tgid != 0 && e.tid != 0 && e.start != 0
  }

  predicate Counts(e: Slice, k: Key) {
    Counted(e) && KeyOf(e) == k
  }

  function StatsOf(stats: map<Key, Stats>, k: Key): Stats {
    if k in stats then stats[k] else Stats(0, 0, U64_MAX)
  }

  function Charged(t: Stats, e: Slice): Stats {
    Stats(t.cpu + (e.end - e.start), t.kernel + e.kernel, Min(t.min, e.start))
  }

  function Charge(stats: map<Key, Stats>, e: Slice): map<Key, Stats> {
    if Counted(e) then stats[KeyOf(e) := Charged(StatsOf(stats, KeyOf(e)), e)] else stats
  }

  function Reports(stats: map<Key, Stats>, max: nat): map<Key, Report> {
    map k | k in stats :: Report(stats[k].cpu, stats[k].kernel, stats[k].min, max)
  }

  function Reset(stats: map<Key, Stats>, max: nat): map<Key, Stats> {
    map k | k in stats :: Stats(0, 0, max)
  }

  predicate Flushes(nprocs: nat, m: Meter, e: Slice) {
    e.boundary && m.boundaries + 1 == nprocs
  }

  function Receive(nprocs: nat, m: Meter, e: Slice): Meter {
    var stats, max := Charge(m.stats, e), Max(m.max, e.end);
    if Flushes(nprocs, m, e) then Meter(Reset(stats, max), 0, max, m.rounds + [Reports(stats, max)])
    else Meter(stats, if e.boundary then m.boundaries + 1 else m.boundaries, max, m.rounds)
  }

  function Run(nprocs: nat, es: seq<Slice>): Meter {
    if es == [] then IDLE else Receive(nprocs, Run(nprocs, es[..|es| - 1]), es[|es| - 1])
  }

  // ------------------------------------------------------------- conservation

  datatype Time = Time(cpu: int, kernel: int)

  function Add(a: Time, b: Time): Time {
    Time(a.cpu + b.cpu, a.kernel + b.kernel)
  }

  function TimeOf(e: Slice): Time {
    Time(e.end - e.start, e.kernel)
  }

  function Received(es: seq<Slice>, k: Key): Time {
    if es == [] then Time(0, 0)
    else
      var before, e := Received(es[..|es| - 1], k), es[|es| - 1];
      if Counts(e, k) then Add(before, TimeOf(e)) else before
  }

  function Flushed(rounds: seq<map<Key, Report>>, k: Key): Time {
    if rounds == [] then Time(0, 0)
    else
      var before, r := Flushed(rounds[..|rounds| - 1], k), rounds[|rounds| - 1];
      if k in r then Add(before, Time(r[k].cpu, r[k].kernel)) else before
  }

  function Pending(m: Meter, k: Key): Time {
    Time(StatsOf(m.stats, k).cpu, StatsOf(m.stats, k).kernel)
  }

  lemma FlushedMore(rounds: seq<map<Key, Report>>, r: map<Key, Report>, k: Key)
    ensures Flushed(rounds + [r], k)
      == if k in r then Add(Flushed(rounds, k), Time(r[k].cpu, r[k].kernel)) else Flushed(rounds, k)
  {
    assert (rounds + [r])[..|rounds|] == rounds;
  }

  /** For every thread, the time reported in all rounds plus the time waiting for
      the next one is the time of all its slices: none is lost or counted twice. */
  lemma {:induction false} TimeConserved(nprocs: nat, es: seq<Slice>, k: Key)
    ensures Add(Flushed(Run(nprocs, es).rounds, k), Pending(Run(nprocs, es), k)) == Received(es, k)
    decreases |es|
  {
    hide Receive;
    if es != [] {
      TimeConserved(nprocs, es[..|es| - 1], k);
      ReceiveConserves(nprocs, Run(nprocs, es[..|es| - 1]), es[|es| - 1], k);
    }
  }

  lemma ReceiveConserves(nprocs: nat, m: Meter, e: Slice, k: Key)
    ensures var r := Receive(nprocs, m, e);
      Add(Flushed(r.rounds, k), Pending(r, k))
        == Add(Add(Flushed(m.rounds, k), Pending(m, k)), if Counts(e, k) then TimeOf(e) else Time(0, 0))
  {
    hide Flushed;
    var stats, max := Charge(m.stats, e), Max(m.max, e.end);
    FlushedMore(m.rounds, Reports(stats, max), k);
  }

  // ------------------------------------------------------------ total of a round

  function Total(ss: seq<Slice>): int {
    if ss == [] then 0 else Total(ss[..|ss| - 1]) + (ss[|ss| - 1].end - ss[|ss| - 1].start)
  }

  /** No moment lies in both. */
  predicate Disjoint(a: Slice, b: Slice) {
    a.end <= b.start || b.end <= a.start || a.end <= a.start || b.end <= b.start
  }

  predicate Apart(ss: seq<Slice>) {
    forall i, j | 0 <= i < j < |ss| :: Disjoint(ss[i], ss[j])
  }

  predicate Within(ss: seq<Slice>, lo: nat, hi: nat) {
    forall i | 0 <= i < |ss| :: lo <= ss[i].start <= ss[i].end <= hi
  }

  function Moments(lo: nat, hi: nat): (r: set<nat>)
    ensures forall t :: t in r <==> lo <= t < hi
    decreases hi
  {
    if hi <= lo then {} else Moments(lo, hi - 1) + {hi - 1}
  }

  lemma {:induction false} MomentCount(lo: nat, hi: nat)
    requires lo <= hi
    ensures |Moments(lo, hi)| == hi - lo
    decreases hi
  {
    hide Moments;
    if lo < hi {
      MomentCount(lo, hi - 1);
      OneMoment(lo, hi);
    } else {
      NoMoment(lo);
    }
  }

  lemma NoMoment(lo: nat)
    ensures Moments(lo, lo) == {}
  {
  }

  lemma OneMoment(lo: nat, hi: nat)
    requires lo < hi
    ensures hi - 1 !in Moments(lo, hi - 1) && Moments(lo, hi) == Moments(lo, hi - 1) + {hi - 1}
  {
  }

  /** All the moments some slice covers. */
  function Occupied(ss: seq<Slice>): set<nat> {
    if ss == [] then {} else Occupied(ss[..|ss| - 1]) + Moments(ss[|ss| - 1].start, ss[|ss| - 1].end)
  }

  lemma {:induction false} OccupiedBy(ss: seq<Slice>, t: nat)
    requires t in Occupied(ss)
    ensures exists i :: 0 <= i < |ss| && ss[i].start <= t < ss[i].end
    decreases |ss|
  {
    var init := ss[..|ss| - 1];
    if t in Occupied(init) {
      OccupiedBy(init, t);
      var i :| 0 <= i < |init| && init[i].start <= t < init[i].end;
      assert ss[i] == init[i];
    } else {
      assert ss[|ss| - 1].start <= t < ss[|ss| - 1].end;
    }
  }

  lemma {:induction false} OccupiedCount(ss: seq<Slice>, lo: nat, hi: nat)
    requires Apart(ss) && Within(ss, lo, hi)
    ensures |Occupied(ss)| == Total(ss)
    decreases |ss|
  {
    if ss != [] {
      var init, x := ss[..|ss| - 1], ss[|ss| - 1];
      OccupiedCount(init, lo, hi);
      MomentCount(x.start, x.end);
      forall t | t in Occupied(init) ensures t !in Moments(x.start, x.end) {
        OccupiedBy(init, t);
        var i :| 0 <= i < |init| && init[i].start <= t < init[i].end;
        assert Disjoint(ss[i], ss[|ss| - 1]);
      }
      assert Occupied(init) !! Moments(x.start, x.end);
    }
  }

  lemma Fewer(a: set<nat>, b: set<nat>)
    requires a <= b
    ensures |a| <= |b|
  {
    assert b == a + (b - a);
  }

  /** Slices that do not overlap cannot add up to more than the time they lie in. */
  lemma TotalAtMost(ss: seq<Slice>, lo: nat, hi: nat)
    requires Apart(ss) && Within(ss, lo, hi) && lo <= hi
    ensures 0 <= Total(ss) <= hi - lo
  {
    OccupiedCount(ss, lo, hi);
    forall t | t in Occupied(ss) ensures t in Moments(lo, hi) {
      OccupiedBy(ss, t);
    }
    Fewer(Occupied(ss), Moments(lo, hi));
    MomentCount(lo, hi);
  }

  // ----------------------------------------------------------- slices per round

  /** The slices of `k` behind its current sums. */
  function Round(nprocs: nat, es: seq<Slice>, k: Key): seq<Slice>
    decreases |es|, 1
  {
    if es == [] || Flushes(nprocs, Run(nprocs, es[..|es| - 1]), es[|es| - 1]) then [] else Open(nprocs, es, k)
  }

  /** The same, before the last slice could flush them. */
  function Open(nprocs: nat, es: seq<Slice>, k: Key): seq<Slice>
    requires es != []
    decreases |es|, 0
  {
    var before, e := Round(nprocs, es[..|es| - 1], k), es[|es| - 1];
    if Counts(e, k) then before + [e] else before
  }

  /** What every slice satisfies, as the processors report them. */
  predicate Good(e: Slice) {
    e.start <= e.end <= U64_MAX && 0 <= e.kernel <= e.end - e.start
  }

  predicate AllGood(es: seq<Slice>) {
    forall i | 0 <= i < |es| :: Good(es[i])
  }

  lemma FromProcessor(c: Config, id: nat, events: seq<Event>)
    requires CpuTimes.Orderly(events) && LastTime(events) <= U64_MAX
    ensures AllGood(CpuTimes.Run(c, id, events).out) && Apart(CpuTimes.Run(c, id, events).out)
  {
    SlicesInOrder(c, id, events);
    hide CpuTimes.Run;
  }

  /** The sums of a thread in terms of the slices behind them. */
  predicate Summed(t: Stats, ss: seq<Slice>, max: nat) {
    && t.cpu == Total(ss) && 0 <= t.kernel <= t.cpu && t.min <= max
    && Within(ss, t.min, max)
  }

  predicate AllSummed(nprocs: nat, es: seq<Slice>, k: Key) {
    var m := Run(nprocs, es);
    if k in m.stats then Summed(m.stats[k], Round(nprocs, es, k), m.max) else Round(nprocs, es, k) == []
  }

  lemma ChargedSummed(t: Stats, ss: seq<Slice>, max: nat, e: Slice)
    requires Good(e) && (Summed(t, ss, max) || (t == Stats(0, 0, U64_MAX) && ss == []))
    ensures Summed(Charged(t, e), ss + [e], Max(max, e.end))
  {
    assert (ss + [e])[..|ss|] == ss;
  }

  lemma MaxSummed(t: Stats, ss: seq<Slice>, max: nat, more: nat)
    requires Summed(t, ss, max) && max <= more
    ensures Summed(t, ss, more)
  {
  }

  /** Just before a possible flush. */
  lemma OpenSummed(nprocs: nat, es: seq<Slice>, k: Key)
    requires es != [] && Good(es[|es| - 1]) && AllSummed(nprocs, es[..|es| - 1], k)
    ensures var m, e := Run(nprocs, es[..|es| - 1]), es[|es| - 1];
      var stats := Charge(m.stats, e);
      if k in stats then Summed(stats[k], Open(nprocs, es, k), Max(m.max, e.end)) else Open(nprocs, es, k) == []
  {
    hide Run, Round, Summed;
    var m, e := Run(nprocs, es[..|es| - 1]), es[|es| - 1];
    var ss := Round(nprocs, es[..|es| - 1], k);
    if Counts(e, k) {
      ChargedSummed(StatsOf(m.stats, k), ss, m.max, e);
    } else if k in m.stats {
      MaxSummed(m.stats[k], ss, m.max, Max(m.max, e.end));
    }
  }

  lemma {:induction false} RunSummed(nprocs: nat, es: seq<Slice>, k: Key)
    requires AllGood(es)
    ensures AllSummed(nprocs, es, k)
    decreases |es|
  {
    if es != [] {
      hide Summed, Open;
      RunSummed(nprocs, es[..|es| - 1], k);
      OpenSummed(nprocs, es, k);
      NothingSummed(Run(nprocs, es).max);
    }
  }

  lemma NothingSummed(max: nat)
    ensures Summed(Stats(0, 0, max), [], max)
  {
  }

  // ----------------------------------------------------------------- theorems

  /** The slices of one thread never overlap. */
  predicate OnePlaceAtATime(es: seq<Slice>, k: Key) {
    forall i, j | 0 <= i < j < |es| && Counts(es[i], k) && Counts(es[j], k) :: Disjoint(es[i], es[j])
  }

  predicate Among(ss: seq<Slice>, es: seq<Slice>, k: Key) {
    forall i | 0 <= i < |ss| :: exists j :: 0 <= j < |es| && es[j] == ss[i] && Counts(ss[i], k)
  }

  lemma {:induction false} RoundApart(nprocs: nat, es: seq<Slice>, k: Key)
    requires OnePlaceAtATime(es, k)
    ensures Among(Round(nprocs, es, k), es, k) && Apart(Round(nprocs, es, k))
    ensures es != [] ==> Apart(Open(nprocs, es, k))
    decreases |es|
  {
    hide Run, Flushes, Among, Apart, OnePlaceAtATime;
    NothingApart(es, k);
    if es != [] {
      var init, e := es[..|es| - 1], es[|es| - 1];
      var before := Round(nprocs, init, k);
      OnePlacePrefix(es, k);
      RoundApart(nprocs, init, k);
      AmongMore(before, init, e, k);
      assert init + [e] == es;
      AppendApart(before, es, k);
    }
  }

  lemma NothingApart(es: seq<Slice>, k: Key)
    ensures Among([], es, k) && Apart([])
  {
  }

  lemma OnePlacePrefix(es: seq<Slice>, k: Key)
    requires es != [] && OnePlaceAtATime(es, k)
    ensures OnePlaceAtATime(es[..|es| - 1], k)
  {
    hide Disjoint, Counts;
  }

  lemma AmongMore(ss: seq<Slice>, es: seq<Slice>, e: Slice, k: Key)
    requires Among(ss, es, k)
    ensures Among(ss, es + [e], k) && (Counts(e, k) ==> Among(ss + [e], es + [e], k))
  {
    var more := es + [e];
    forall i | 0 <= i < |ss| ensures exists j :: 0 <= j < |more| && more[j] == ss[i] && Counts(ss[i], k) {
      var j :| 0 <= j < |es| && es[j] == ss[i] && Counts(ss[i], k);
      assert more[j] == ss[i];
    }
    assert more[|es|] == e;
  }

  lemma AppendApart(ss: seq<Slice>, es: seq<Slice>, k: Key)
    requires es != [] && Apart(ss) && Among(ss, es[..|es| - 1], k) && OnePlaceAtATime(es, k)
    ensures Counts(es[|es| - 1], k) ==> Apart(ss + [es[|es| - 1]])
  {
    var init, e := es[..|es| - 1], es[|es| - 1];
    if Counts(e, k) {
      forall i | 0 <= i < |ss| ensures Disjoint(ss[i], e) {
        var j :| 0 <= j < |init| && init[j] == ss[i] && Counts(ss[i], k);
        assert es[j] == ss[i];
      }
    }
  }

  predicate Bounded(r: Report) {
    r.min <= r.max && 0 <= r.kernel <= r.cpu <= r.max - r.min
  }

  /** In every round of every run, a thread whose slices never overlap is
      reported with no more CPU time than the interval is long, and no more
      kernel time than CPU time. */
  lemma {:induction false} RoundsBounded(nprocs: nat, es: seq<Slice>, k: Key)
    requires AllGood(es) && OnePlaceAtATime(es, k)
    ensures var rounds := Run(nprocs, es).rounds;
      forall i | 0 <= i < |rounds| && k in rounds[i] :: Bounded(rounds[i][k])
    decreases |es|
  {
    if es != [] {
      var init, e := es[..|es| - 1], es[|es| - 1];
      RoundsBounded(nprocs, init, k);
      RunSummed(nprocs, init, k);
      OpenSummed(nprocs, es, k);
      RoundApart(nprocs, es, k);
      hide Open, Round;
      var m := Run(nprocs, init);
      var stats, max := Charge(m.stats, e), Max(m.max, e.end);
      if Flushes(nprocs, m, e) && k in stats {
        TotalAtMost(Open(nprocs, es, k), stats[k].min, max);
        assert Bounded(Reports(stats, max)[k]);
      }
    }
  }

  // ------------------------------------------------------- what a round reports

  function Boundaries(es: seq<Slice>): nat {
    if es == [] then 0 else Boundaries(es[..|es| - 1]) + if es[|es| - 1].boundary then 1 else 0
  }

  /** The last slice ends a round: all processors have reported an interval end
      since the round before. */
  predicate Ends(nprocs: nat, es: seq<Slice>) {
    nprocs > 0 && es != [] && es[|es| - 1].boundary && Boundaries(es) % nprocs == 0
  }

  lemma NextRemainder(n: nat, k: nat)
    requires k > 0
    ensures (n + 1) % k == if n % k + 1 == k then 0 else n % k + 1
    ensures (n + 1) / k == if n % k + 1 == k then n / k + 1 else n / k
  {
    var q, r := n / k, n % k;
    if r + 1 == k {
      assert n + 1 == (q + 1) * k;
      RemainderUnique(n + 1, k, q + 1, 0);
    } else {
      RemainderUnique(n + 1, k, q, r + 1);
    }
  }

  /** Rounds end exactly at every `nprocs`-th interval end. */
  lemma {:induction false} RoundsEnd(nprocs: nat, es: seq<Slice>)
    ensures var m := Run(nprocs, es);
      if nprocs == 0 then m.boundaries == Boundaries(es) && m.rounds == []
      else m.boundaries == Boundaries(es) % nprocs && |m.rounds| == Boundaries(es) / nprocs
    ensures es != [] ==> (Flushes(nprocs, Run(nprocs, es[..|es| - 1]), es[|es| - 1]) <==> Ends(nprocs, es))
    decreases |es|
  {
    hide Charge, Reports, Reset;
    if es != [] {
      RoundsEnd(nprocs, es[..|es| - 1]);
      if nprocs > 0 {
        NextRemainder(Boundaries(es[..|es| - 1]), nprocs);
      }
    }
  }

  /** The slices of `k` since the round before, the last slice included. */
  function Lately(nprocs: nat, es: seq<Slice>, k: Key): seq<Slice> {
    if es == [] then []
    else
      var init, e := es[..|es| - 1], es[|es| - 1];
      (if Ends(nprocs, init) then [] else Lately(nprocs, init, k)) + (if Counts(e, k) then [e] else [])
  }

  function Latest(es: seq<Slice>): nat {
    if es == [] then 0 else Max(Latest(es[..|es| - 1]), es[|es| - 1].end)
  }

  predicate Seen(es: seq<Slice>, k: Key) {
    es != [] && (Seen(es[..|es| - 1], k) || Counts(es[|es| - 1], k))
  }

  /** The moment from which a round counts a thread: the end of the round before,
      or no bound if it was not seen before that. */
  function Since(nprocs: nat, es: seq<Slice>, k: Key): nat {
    if es == [] then U64_MAX
    else
      var init := es[..|es| - 1];
      if Ends(nprocs, init) then (if Seen(init, k) then Latest(init) else U64_MAX) else Since(nprocs, init, k)
  }

  function Kernel(ss: seq<Slice>): int {
    if ss == [] then 0 else Kernel(ss[..|ss| - 1]) + ss[|ss| - 1].kernel
  }

  function Earliest(from: nat, ss: seq<Slice>): nat {
    if ss == [] then from else Min(Earliest(from, ss[..|ss| - 1]), ss[|ss| - 1].start)
  }

  /** What is to be said of a thread after `es`. */
  function Due(nprocs: nat, es: seq<Slice>, k: Key): Stats {
    var ss := Lately(nprocs, es, k);
    Stats(Total(ss), Kernel(ss), Earliest(Since(nprocs, es, k), ss))
  }

  lemma ChargedMore(from: nat, ss: seq<Slice>, e: Slice)
    ensures Charged(Stats(Total(ss), Kernel(ss), Earliest(from, ss)), e)
         == Stats(Total(ss + [e]), Kernel(ss + [e]), Earliest(from, ss + [e]))
  {
    assert (ss + [e])[..|ss|] == ss;
  }

  /** The sums before the last slice could end a round. */
  predicate Standing(nprocs: nat, es: seq<Slice>, k: Key)
    requires es != []
  {
    var stats := Charge(Run(nprocs, es[..|es| - 1]).stats, es[|es| - 1]);
    (k in stats <==> Seen(es, k)) && (k in stats ==> stats[k] == Due(nprocs, es, k))
  }

  lemma {:induction false} SumsStand(nprocs: nat, es: seq<Slice>, k: Key)
    requires es != []
    ensures Standing(nprocs, es, k) && Run(nprocs, es).max == Latest(es)
    decreases |es|
  {
    hide Flushes, Ends, Standing, Due, Charge, Reset, Reports;
    var init, e := es[..|es| - 1], es[|es| - 1];
    if init != [] {
      SumsStand(nprocs, init, k);
      RoundsEnd(nprocs, init);
    }
    Between(nprocs, init, k);
    NextStands(nprocs, es, k);
  }

  /** The sums a slice finds: those of its round so far. */
  predicate Found(nprocs: nat, init: seq<Slice>, k: Key, stats: map<Key, Stats>) {
    var ss := if Ends(nprocs, init) then [] else Lately(nprocs, init, k);
    var from := if Ends(nprocs, init) then (if Seen(init, k) then Latest(init) else U64_MAX)
                else Since(nprocs, init, k);
    && (k in stats <==> Seen(init, k)) && (!Seen(init, k) ==> ss == [] && from == U64_MAX)
    && (k in stats ==> stats[k] == Stats(Total(ss), Kernel(ss), Earliest(from, ss)))
  }

  lemma Between(nprocs: nat, init: seq<Slice>, k: Key)
    requires init != [] ==>
      && Standing(nprocs, init, k) && Run(nprocs, init).max == Latest(init)
      && (Flushes(nprocs, Run(nprocs, init[..|init| - 1]), init[|init| - 1]) <==> Ends(nprocs, init))
    ensures Found(nprocs, init, k, Run(nprocs, init).stats)
  {
    hide Total, Kernel, Earliest, Flushes, Charge, Lately, Since, Boundaries, Latest;
    NothingDue();
    if !Seen(init, k) {
      Unseen(nprocs, init, k);
    }
  }

  lemma NextStands(nprocs: nat, es: seq<Slice>, k: Key)
    requires es != [] && Found(nprocs, es[..|es| - 1], k, Run(nprocs, es[..|es| - 1]).stats)
    ensures Standing(nprocs, es, k)
  {
    hide Total, Kernel, Earliest, Ends, Run, Charged;
    var init, e := es[..|es| - 1], es[|es| - 1];
    var before := if Ends(nprocs, init) then [] else Lately(nprocs, init, k);
    NothingDue();
    ChargedMore(Since(nprocs, es, k), before, e);
    assert before + [] == before;
  }

  lemma {:induction false} Unseen(nprocs: nat, es: seq<Slice>, k: Key)
    requires !Seen(es, k)
    ensures Lately(nprocs, es, k) == [] && Since(nprocs, es, k) == U64_MAX
    decreases |es|
  {
    hide Ends;
    if es != [] {
      Unseen(nprocs, es[..|es| - 1], k);
    }
  }

  lemma NothingDue()
    ensures Total([]) == 0 && Kernel([]) == 0 && forall from :: Earliest(from, []) == from
  {
  }

  /** A round that ends reports exactly the threads seen so far, each with the time
      of its slices since the round before, over the interval from then, or from
      its first slice if that is earlier or the thread is new, to the latest end. */
  lemma RoundReports(nprocs: nat, es: seq<Slice>, k: Key)
    requires es != [] && Ends(nprocs, es)
    ensures var rounds, ss := Run(nprocs, es).rounds, Lately(nprocs, es, k);
      && |rounds| > 0 && rounds[..|rounds| - 1] == Run(nprocs, es[..|es| - 1]).rounds
      && (k in rounds[|rounds| - 1] <==> Seen(es, k))
      && (Seen(es, k) ==>
            rounds[|rounds| - 1][k]
              == Report(Total(ss), Kernel(ss), Earliest(Since(nprocs, es, k), ss), Latest(es)))
  {
    hide Total, Kernel, Earliest, Lately, Since, Seen, Ends, Charge;
    SumsStand(nprocs, es, k);
    RoundsEnd(nprocs, es);
  }

  // ------------------------------------------------------- from all processors

  /** The processor a slice comes from and its number among that one's slices. */
  datatype Origin = Origin(cpu: nat, index: nat)

  predicate ComesFrom(c: Config, logs: seq<seq<Event>>, e: Slice, o: Origin) {
    && o.cpu < |logs| && o.index < |CpuTimes.Run(c, o.cpu, logs[o.cpu]).out|
    && e == CpuTimes.Run(c, o.cpu, logs[o.cpu]).out[o.index]
  }

  /** What userspace receives: slices of all processors, each at most once, in
      any order. */
  predicate Gathered(c: Config, logs: seq<seq<Event>>, es: seq<Slice>, src: seq<Origin>) {
    && |src| == |es|
    && (forall i | 0 <= i < |es| :: ComesFrom(c, logs, es[i], src[i]))
    && (forall i, j | 0 <= i < j < |es| :: src[i] != src[j])
  }

  /** Time goes forward on every processor and no thread is on two at once. */
  ghost predicate Scheduled(c: Config, logs: seq<seq<Event>>) {
    && (forall p | 0 <= p < |logs| :: CpuTimes.Orderly(logs[p]) && LastTime(logs[p]) <= U64_MAX)
    && (forall p, q | 0 <= p < |logs| && 0 <= q < |logs| && p != q :: Exclusive(logs[p], logs[q]))
  }

  lemma TwoApart(c: Config, logs: seq<seq<Event>>, x: Slice, a: Origin, y: Slice, b: Origin)
    requires Scheduled(c, logs) && ComesFrom(c, logs, x, a) && ComesFrom(c, logs, y, b) && a != b
    requires Counted(x) && Counted(y) && x.tid == y.tid
    ensures Disjoint(x, y)
  {
    hide CpuTimes.Run, Exclusive;
    if a.cpu == b.cpu {
      FromProcessor(c, a.cpu, logs[a.cpu]);
    } else if x.start < x.end && y.start < y.end {
      SlicesApart(c, a.cpu, logs[a.cpu], a.index, b.cpu, logs[b.cpu], b.index);
    }
  }

  /** Whatever reaches userspace from processors scheduled like that satisfies
      what the bounds above ask for. */
  lemma GatheredSlices(c: Config, logs: seq<seq<Event>>, es: seq<Slice>, src: seq<Origin>, k: Key)
    requires Scheduled(c, logs) && Gathered(c, logs, es, src)
    ensures AllGood(es) && OnePlaceAtATime(es, k)
  {
    hide CpuTimes.Run, Scheduled;
    forall i | 0 <= i < |es| ensures Good(es[i]) {
      assert ComesFrom(c, logs, es[i], src[i]);
      OneGood(c, logs, es[i], src[i]);
    }
    forall i, j | 0 <= i < j < |es| && Counts(es[i], k) && Counts(es[j], k) ensures Disjoint(es[i], es[j]) {
      TwoApart(c, logs, es[i], src[i], es[j], src[j]);
    }
  }

  lemma OneGood(c: Config, logs: seq<seq<Event>>, e: Slice, o: Origin)
    requires Scheduled(c, logs) && ComesFrom(c, logs, e, o)
    ensures Good(e)
  {
    hide CpuTimes.Run, Exclusive;
    FromProcessor(c, o.cpu, logs[o.cpu]);
  }

  /** What dividing two doubles can give; the program divides without a test. */
  datatype Double = Finite(value: real) | Infinite | NaN

  function Percent(part: int, elapsed: int): Double {
    if elapsed == 0 then (if part == 0 then NaN else Infinite)
    else Finite(part as real / elapsed as real * 100.0)
  }

  function CpuPercent(r: Report): Double {
    Percent(r.cpu, r.max - r.min)
  }

  function KernelPercent(r: Report): Double {
    Percent(r.kernel, r.max - r.min)
  }

  predicate InRange(d: Double) {
    d.Finite? && 0.0 <= d.value <= 100.0
  }

  /** What is reported of a thread in a round: if the round's last moment comes
      after the thread's first, kernel and total time in percent, in range and in
      order; if not, two quotients of zero by zero. */
  predicate Sensible(r: Report) {
    && (InRange(CpuPercent(r)) <==> r.min < r.max)
    && (InRange(KernelPercent(r)) <==> r.min < r.max)
    && (r.min < r.max ==> KernelPercent(r).value <= CpuPercent(r).value)
    && (r.min >= r.max ==> r.min == r.max && CpuPercent(r) == KernelPercent(r) == NaN)
  }

  lemma PercentagesInRange(nprocs: nat, es: seq<Slice>, k: Key, i: nat)
    requires AllGood(es) && OnePlaceAtATime(es, k)
    requires i < |Run(nprocs, es).rounds| && k in Run(nprocs, es).rounds[i]
    ensures Sensible(Run(nprocs, es).rounds[i][k])
  {
    RoundsBounded(nprocs, es, k);
    var r := Run(nprocs, es).rounds[i][k];
    assert Bounded(r);
    hide Run;
    if r.max != r.min {
      Ratio(r.kernel, r.cpu, r.max - r.min);
    }
  }

  /** From the processors' events to the percentages: whatever is received, in
      whatever order, both percentages of a thread in a round are between 0 and
      100 if and only if time passed for it in that round. */
  lemma ProcessorsToPercentages(c: Config, logs: seq<seq<Event>>, es: seq<Slice>, src: seq<Origin>, nprocs: nat,
                                k: Key, i: nat)
    requires Scheduled(c, logs) && Gathered(c, logs, es, src)
    requires i < |Run(nprocs, es).rounds| && k in Run(nprocs, es).rounds[i]
    ensures Sensible(Run(nprocs, es).rounds[i][k])
  {
    GatheredSlices(c, logs, es, src, k);
    hide Scheduled, Gathered, Sensible;
    PercentagesInRange(nprocs, es, k, i);
  }

  /** Thread 7 is switched in, and the interval ends, at time 100. */
  function TiedLog(): seq<Event> {
    [Switch(100, 0, 0, 7, false), Boundary(100, 7, false)]
  }

  /** A thread that is switched in at the very time of the boundary: its slice is
      empty and the round reports no number for it. */
  lemma EmptySliceExample()
    ensures var c, log := Config(false, {}), TiedLog();
      var es := CpuTimes.Run(c, 0, log).out;
      && Scheduled(c, [log]) && Gathered(c, [log], es, [Origin(0, 0)])
      && |Run(1, es).rounds| == 1 && (7, 7) in Run(1, es).rounds[0]
      && CpuPercent(Run(1, es).rounds[0][(7, 7)]) == KernelPercent(Run(1, es).rounds[0][(7, 7)]) == NaN
  {
    var c, log := Config(false, {}), TiedLog();
    hide CpuTimes.Run, Run, Scheduled, Gathered, TiedLog, CpuTimes.Orderly, LastTime;
    EmptySlice(c, log);
    EmptyRound(CpuTimes.Run(c, 0, log).out[0]);
    OneProcessor(c, log);
    OneSlice(c, log, CpuTimes.Run(c, 0, log).out);
  }

  lemma OneProcessor(c: Config, log: seq<Event>)
    requires CpuTimes.Orderly(log) && LastTime(log) <= U64_MAX
    ensures Scheduled(c, [log])
  {
    hide Exclusive, CpuTimes.Orderly;
  }

  lemma OneSlice(c: Config, log: seq<Event>, es: seq<Slice>)
    requires es == CpuTimes.Run(c, 0, log).out && |es| == 1
    ensures Gathered(c, [log], es, [Origin(0, 0)])
  {
    hide CpuTimes.Run;
  }

  lemma EmptySlice(c: Config, log: seq<Event>)
    requires c == Config(false, {}) && log == TiedLog()
    ensures CpuTimes.Run(c, 0, log).out == [Slice(7, 7, 100, 0, 100, 0, true)]
    ensures CpuTimes.Orderly(log) && LastTime(log) <= U64_MAX
  {
    assert log[..1] == [log[0]] && log[..1][..0] == [];
    assert CpuTimes.Run(c, 0, log[..1]) == CpuTimes.State(Cpu(7, 0, 100, 0, 0, false), []);
  }

  lemma EmptyRound(e: Slice)
    requires e == Slice(7, 7, 100, 0, 100, 0, true)
    ensures |Run(1, [e]).rounds| == 1 && (7, 7) in Run(1, [e]).rounds[0]
    ensures Run(1, [e]).rounds[0][(7, 7)] == Report(0, 0, 100, 100)
  {
    assert [e][..0] == [];
    assert Run(1, [e]) == Receive(1, IDLE, e);
    assert Charge(IDLE.stats, e)[(7, 7)] == Stats(0, 0, 100);
  }

  lemma Ratio(a: int, b: int, n: int)
    requires 0 <= a <= b <= n && n > 0
    ensures InRange(Percent(a, n)) && InRange(Percent(b, n)) && Percent(a, n).value <= Percent(b, n).value
  {
    Quotients(a as real, b as real, n as real);
  }

  lemma Quotients(x: real, y: real, z: real)
    requires 0.0 <= x <= y <= z && z > 0.0
    ensures 0.0 <= x / z <= y / z <= 1.0
  {
    var p, q := x / z, y / z;
    assert p * z == x && q * z == y;
    Cancel(0.0, p, z);
    Cancel(p, q, z);
    Cancel(q, 1.0, z);
  }

  lemma Cancel(a: real, b: real, z: real)
    requires z > 0.0 && a * z <= b * z
    ensures a <= b
  {
    assert a > b ==> (a - b) * z > 0.0;
  }
}
