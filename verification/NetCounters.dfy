/** Network counters: cumulative per-key counters of the kernel program, whose
    entries may be evicted and created anew, and the differences sampled from
    them. */
module NetCounters {
  import opened Wrappers
  import opened Naturals
  import opened Words

  datatype Counts = Counts(
    sendBytes: nat, recvBytes: nat, sendOps: nat, recvOps: nat, sendErrors: nat, recvErrors: nat,
    sendWouldBlock: nat, recvWouldBlock: nat, tcpEof: nat, udpTruncated: nat)

  const ZERO: Counts := Counts(0, 0, 0, 0, 0, 0, 0, 0, 0, 0)

  function Plus(a: Counts, b: Counts): Counts {
    Counts(a.sendBytes + b.sendBytes, a.recvBytes + b.recvBytes, a.sendOps + b.sendOps, a.recvOps + b.recvOps,
           a.sendErrors + b.sendErrors, a.recvErrors + b.recvErrors,
           a.sendWouldBlock + b.sendWouldBlock, a.recvWouldBlock + b.recvWouldBlock,
           a.tcpEof + b.tcpEof, a.udpTruncated + b.udpTruncated)
  }

  function Minus(a: Counts, b: Counts): Counts {
    Counts(SatSub(a.sendBytes, b.sendBytes), SatSub(a.recvBytes, b.recvBytes),
           SatSub(a.sendOps, b.sendOps), SatSub(a.recvOps, b.recvOps),
           SatSub(a.sendErrors, b.sendErrors), SatSub(a.recvErrors, b.recvErrors),
           SatSub(a.sendWouldBlock, b.sendWouldBlock), SatSub(a.recvWouldBlock, b.recvWouldBlock),
           SatSub(a.tcpEof, b.tcpEof), SatSub(a.udpTruncated, b.udpTruncated))
  }

  predicate AtMost(a: Counts, b: Counts) {
    && a.sendBytes <= b.sendBytes && a.recvBytes <= b.recvBytes && a.sendOps <= b.sendOps && a.recvOps <= b.recvOps
    && a.sendErrors <= b.sendErrors && a.recvErrors <= b.recvErrors
    && a.sendWouldBlock <= b.sendWouldBlock && a.recvWouldBlock <= b.recvWouldBlock
    && a.tcpEof <= b.tcpEof && a.udpTruncated <= b.udpTruncated
  }

  lemma PlusLaws(a: Counts, b: Counts, c: Counts)
    ensures Plus(Plus(a, b), c) == Plus(a, Plus(b, c)) && Plus(a, b) == Plus(b, a) && Plus(a, ZERO) == a
    ensures AtMost(a, b) ==> Plus(a, Minus(b, a)) == b
  {
  }

  datatype Stats = Stats(counts: Counts, firstSeen: nat, lastSeen: nat)

  const NO_STATS: Stats := Stats(ZERO, 0, 0)

  function Accumulate(a: Stats, b: Stats): Stats {
    Stats(Plus(a.counts, b.counts),
          if a.firstSeen == 0 || (b.firstSeen != 0 && b.firstSeen < a.firstSeen) then b.firstSeen else a.firstSeen,
          Max(a.lastSeen, b.lastSeen))
  }

  /** The growth since the previous reading of the same entry, or everything when
      the entry is a new one. */
  function Delta(s: Stats, previous: Option<Stats>): Stats {
    if previous.None? || previous.value.firstSeen != s.firstSeen then s
    else s.(counts := Minus(s.counts, previous.value.counts))
  }

  // ------------------------------------------------------- processes and peers

  const TCP_INDEX: nat := 0
  const UDP_INDEX: nat := 1

  datatype Key =
    | ProcessKey(tgid: nat, protocol: nat)
    | PeerKey(tgid: nat, protocol: nat, family: nat, localPort: nat, remotePort: nat, remoteAddr: seq<byte>)

  predicate Readable(k: Key) {
    k.protocol == TCP_INDEX || k.protocol == UDP_INDEX
  }

  /** One entry read from the map; a sample reads many, and samples follow each
      other, so a run is one sequence of readings. */
  datatype Reading = Reading(key: Key, stats: Stats)

  datatype Sampler = Sampler(previous: map<Key, Stats>, log: seq<Reading>)

  const FRESH: Sampler := Sampler(map[], [])

  function Get(m: map<Key, Stats>, k: Key): Option<Stats> {
    if k in m then Some(m[k]) else None
  }

  function Step(s: Sampler, r: Reading): Sampler {
    if !Readable(r.key) then s
    else Sampler(s.previous[r.key := r.stats], s.log + [Reading(r.key, Delta(r.stats, Get(s.previous, r.key)))])
  }

  function Run(s: Sampler, rs: seq<Reading>): Sampler {
    if rs == [] then s else Step(Run(s, rs[..|rs| - 1]), rs[|rs| - 1])
  }

  /** The sum of what was reported for one key. */
  function Reported(log: seq<Reading>, k: Key): Counts {
    if log == [] then ZERO
    else
      var before, r := Reported(log[..|log| - 1], k), log[|log| - 1];
      if r.key == k then Plus(before, r.stats.counts) else before
  }

  /** The readings of one key. */
  function History(rs: seq<Reading>, k: Key): seq<Stats> {
    if rs == [] then []
    else
      var before, r := History(rs[..|rs| - 1], k), rs[|rs| - 1];
      if r.key == k then before + [r.stats] else before
  }

  /** The last reading of each generation, a generation being one life of the
      entry, told apart by when it was first seen. */
  function Latest(vs: seq<Stats>): map<nat, Counts> {
    if vs == [] then map[] else Latest(vs[..|vs| - 1])[vs[|vs| - 1].firstSeen := vs[|vs| - 1].counts]
  }

  ghost function Sum(m: map<nat, Counts>): Counts
    decreases |m.Keys|
  {
    if m == map[] then ZERO
    else
      var k :| k in m;
      Smaller(m, k);
      Plus(m[k], Sum(m - {k}))
  }

  lemma Smaller(m: map<nat, Counts>, k: nat)
    requires k in m
    ensures |(m - {k}).Keys| < |m.Keys|
  {
    assert (m - {k}).Keys == m.Keys - {k};
  }

  lemma {:induction false} SumAny(m: map<nat, Counts>, k: nat)
    requires k in m
    ensures Sum(m) == Plus(m[k], Sum(m - {k}))
    decreases |m.Keys|
  {
    hide Plus;
    var j :| j in m && Sum(m) == Plus(m[j], Sum(m - {j})) by { SumUnfolds(m); }
    if j != k {
      Smaller(m, j);
      Smaller(m, k);
      SumAny(m - {j}, k);
      SumAny(m - {k}, j);
      assert m - {j} - {k} == m - {k} - {j};
      var rest := Sum(m - {j} - {k});
      PlusLaws(m[j], m[k], rest);
      PlusLaws(m[k], m[j], rest);
    }
  }

  lemma SumUnfolds(m: map<nat, Counts>)
    requires m != map[]
    ensures exists j :: j in m && Sum(m) == Plus(m[j], Sum(m - {j}))
  {
  }

  /** Within a generation counters never go back, and a generation that has
      ended does not return. */
  predicate Generations(vs: seq<Stats>) {
    && (forall i, j | 0 <= i < j < |vs| && vs[i].firstSeen == vs[j].firstSeen :: AtMost(vs[i].counts, vs[j].counts))
    && (forall i, j, k | 0 <= i < j < k < |vs| && vs[i].firstSeen == vs[k].firstSeen ::
          vs[j].firstSeen == vs[i].firstSeen)
  }

  function Grown(vs: seq<Stats>): Counts {
    if vs == [] then ZERO
    else
      var init, v := vs[..|vs| - 1], vs[|vs| - 1];
      Plus(Grown(init), Delta(v, if init == [] then None else Some(init[|init| - 1])).counts)
  }

  lemma {:induction false} LatestSeen(vs: seq<Stats>, g: nat)
    ensures g in Latest(vs) <==> exists i :: 0 <= i < |vs| && vs[i].firstSeen == g
    ensures vs != [] ==> Latest(vs)[vs[|vs| - 1].firstSeen] == vs[|vs| - 1].counts
    decreases |vs|
  {
    if vs != [] {
      var init := vs[..|vs| - 1];
      LatestSeen(init, g);
      if g in Latest(init) {
        var i :| 0 <= i < |init| && init[i].firstSeen == g;
        assert vs[i].firstSeen == g;
      } else if exists i :: 0 <= i < |vs| && vs[i].firstSeen == g {
        var i :| 0 <= i < |vs| && vs[i].firstSeen == g;
        assert i < |init| ==> init[i].firstSeen == g;
      }
    }
  }

  lemma {:induction false} GrownIsLatest(vs: seq<Stats>)
    requires Generations(vs)
    ensures Grown(vs) == Sum(Latest(vs))
    decreases |vs|
  {
    if vs == [] {
      assert Sum(map[]) == ZERO;
    } else {
      GenerationsPrefix(vs);
      GrownIsLatest(vs[..|vs| - 1]);
      GrownStep(vs);
    }
  }

  lemma GenerationsPrefix(vs: seq<Stats>)
    requires vs != [] && Generations(vs)
    ensures Generations(vs[..|vs| - 1])
  {
    hide AtMost;
  }

  lemma GrownStep(vs: seq<Stats>)
    requires vs != [] && Generations(vs) && Grown(vs[..|vs| - 1]) == Sum(Latest(vs[..|vs| - 1]))
    ensures Grown(vs) == Sum(Latest(vs))
  {
    hide Plus, Minus, AtMost, Sum;
    var init, v := vs[..|vs| - 1], vs[|vs| - 1];
    var m, g := Latest(init), v.firstSeen;
    assert Latest(vs) == m[g := v.counts];
    if g in m {
      SameGeneration(vs);
      Replace(m, g, v.counts);
    } else {
      NewGeneration(vs);
      AddGeneration(m, g, v.counts);
    }
  }

  lemma NewGeneration(vs: seq<Stats>)
    requires vs != [] && vs[|vs| - 1].firstSeen !in Latest(vs[..|vs| - 1])
    ensures vs[..|vs| - 1] != [] ==> vs[..|vs| - 1][|vs| - 2].firstSeen != vs[|vs| - 1].firstSeen
  {
    hide Latest;
    LatestSeen(vs[..|vs| - 1], vs[|vs| - 1].firstSeen);
  }

  /** A reading of a generation seen before directly follows that generation. */
  lemma SameGeneration(vs: seq<Stats>)
    requires vs != [] && Generations(vs) && vs[|vs| - 1].firstSeen in Latest(vs[..|vs| - 1])
    ensures var init, v := vs[..|vs| - 1], vs[|vs| - 1];
      && init != [] && init[|init| - 1].firstSeen == v.firstSeen
      && AtMost(init[|init| - 1].counts, v.counts)
      && Latest(init)[v.firstSeen] == init[|init| - 1].counts
  {
    var init, v := vs[..|vs| - 1], vs[|vs| - 1];
    LatestSeen(init, v.firstSeen);
    var i :| 0 <= i < |init| && init[i].firstSeen == v.firstSeen;
    assert vs[i].firstSeen == v.firstSeen;
    assert vs[|init| - 1] == init[|init| - 1];
    assert i < |init| - 1 ==> vs[|init| - 1].firstSeen == vs[i].firstSeen;
    LatestSeen(init, 0);
  }

  lemma Replace(m: map<nat, Counts>, g: nat, c: Counts)
    requires g in m && AtMost(m[g], c)
    ensures Sum(m[g := c]) == Plus(Sum(m), Minus(c, m[g]))
  {
    hide Plus, Minus, AtMost;
    SumAny(m, g);
    SumAny(m[g := c], g);
    assert m[g := c] - {g} == m - {g};
    var rest, d := Sum(m - {g}), Minus(c, m[g]);
    PlusLaws(m[g], c, ZERO);
    PlusLaws(m[g], d, rest);
    PlusLaws(d, rest, ZERO);
    PlusLaws(m[g], rest, d);
  }

  lemma AddGeneration(m: map<nat, Counts>, g: nat, c: Counts)
    requires g !in m
    ensures Sum(m[g := c]) == Plus(Sum(m), c)
  {
    hide Plus;
    SumAny(m[g := c], g);
    assert m[g := c] - {g} == m;
    PlusLaws(c, Sum(m), ZERO);
  }

  lemma ReportedMore(log: seq<Reading>, r: Reading, k: Key)
    ensures Reported(log + [r], k) == if r.key == k then Plus(Reported(log, k), r.stats.counts) else Reported(log, k)
  {
    hide Plus;
    assert (log + [r])[..|log|] == log;
  }

  lemma GrownMore(vs: seq<Stats>, v: Stats)
    ensures Grown(vs + [v]) == Plus(Grown(vs), Delta(v, if vs == [] then None else Some(vs[|vs| - 1])).counts)
  {
    hide Plus, Delta;
    assert (vs + [v])[..|vs|] == vs;
  }

  lemma {:induction false} ReportedIsGrown(rs: seq<Reading>, k: Key)
    requires k.protocol == 0 || k.protocol == 1
    ensures var s, h := Run(FRESH, rs), History(rs, k);
      && Reported(s.log, k) == Grown(h)
      && Get(s.previous, k) == (if h == [] then None else Some(h[|h| - 1]))
    decreases |rs|
  {
    hide Plus, Delta, Reported, Grown;
    if rs == [] {
      NothingReported(k);
    } else {
      var init, r := rs[..|rs| - 1], rs[|rs| - 1];
      ReportedIsGrown(init, k);
      var s, h := Run(FRESH, init), History(init, k);
      if Readable(r.key) {
        ReportedMore(s.log, Reading(r.key, Delta(r.stats, Get(s.previous, r.key))), k);
        GrownMore(h, r.stats);
      }
    }
  }

  lemma NothingReported(k: Key)
    ensures Reported([], k) == ZERO == Grown([])
  {
  }

  /** Over any run of samples the differences reported for a key add up to the
      last reading of every generation of its entry. */
  lemma DeltasAddUp(rs: seq<Reading>, k: Key)
    requires (k.protocol == 0 || k.protocol == 1) && Generations(History(rs, k))
    ensures Reported(Run(FRESH, rs).log, k) == Sum(Latest(History(rs, k)))
  {
    ReportedIsGrown(rs, k);
    GrownIsLatest(History(rs, k));
  }

  /** The keys of the readings of a known protocol, 0 for TCP and 1 for UDP. */
  function KnownKeys(rs: seq<Reading>): seq<Key> {
    if rs == [] then []
    else
      var before, k := KnownKeys(rs[..|rs| - 1]), rs[|rs| - 1].key;
      if k.protocol < 2 then before + [k] else before
  }

  function Keys(log: seq<Reading>): seq<Key> {
    seq(|log|, i requires 0 <= i < |log| => log[i].key)
  }

  /** Every reading of a known protocol is reported, under its key and in its
      place, and nothing else is; of the others nothing is remembered. */
  lemma {:induction false} ReportedOnceEach(rs: seq<Reading>)
    ensures Keys(Run(FRESH, rs).log) == KnownKeys(rs)
    ensures forall k | k in Run(FRESH, rs).previous :: k.protocol < 2
    decreases |rs|
  {
    hide Delta;
    if rs != [] {
      ReportedOnceEach(rs[..|rs| - 1]);
    }
  }

  // --------------------------------------------------------------------- host

  /** The per-CPU readings of both protocols at one sample. */
  datatype HostReading = HostReading(tcp: seq<Stats>, udp: seq<Stats>)

  datatype Host = Host(tcp: Stats, udp: Stats)

  datatype HostDelta = HostDelta(tcp: Stats, udp: Stats, total: Stats)

  function TotalOf(values: seq<Stats>): Stats {
    if values == [] then NO_STATS else Accumulate(TotalOf(values[..|values| - 1]), values[|values| - 1])
  }

  function HostStep(useTcp: bool, useUdp: bool, h: Host, r: HostReading): Host {
    Host(if useTcp then TotalOf(r.tcp) else h.tcp, if useUdp then TotalOf(r.udp) else h.udp)
  }

  function HostReport(useTcp: bool, useUdp: bool, h: Host, r: HostReading): HostDelta {
    var tcp := if useTcp then Delta(TotalOf(r.tcp), Some(h.tcp)) else NO_STATS;
    var udp := if useUdp then Delta(TotalOf(r.udp), Some(h.udp)) else NO_STATS;
    var t1 := if useTcp then Accumulate(NO_STATS, tcp) else NO_STATS;
    HostDelta(tcp, udp, if useUdp then Accumulate(t1, udp) else t1)
  }

  function HostRun(useTcp: bool, useUdp: bool, rs: seq<HostReading>): Host {
    if rs == [] then Host(NO_STATS, NO_STATS)
    else HostStep(useTcp, useUdp, HostRun(useTcp, useUdp, rs[..|rs| - 1]), rs[|rs| - 1])
  }

  /** The sums of the TCP, UDP and total differences of a run. */
  datatype Sums = Sums(tcp: Counts, udp: Counts, total: Counts)

  function HostSums(useTcp: bool, useUdp: bool, rs: seq<HostReading>): Sums {
    if rs == [] then Sums(ZERO, ZERO, ZERO)
    else
      var init := rs[..|rs| - 1];
      var before := HostSums(useTcp, useUdp, init);
      var d := HostReport(useTcp, useUdp, HostRun(useTcp, useUdp, init), rs[|rs| - 1]);
      Sums(Plus(before.tcp, d.tcp.counts), Plus(before.udp, d.udp.counts), Plus(before.total, d.total.counts))
  }

  function CpuTotal(values: seq<Stats>): Counts {
    if values == [] then ZERO else Plus(CpuTotal(values[..|values| - 1]), values[|values| - 1].counts)
  }

  /** The kernel never sets the creation time of a host entry, so every reading
      belongs to the same registration; per-CPU counters only grow. */
  predicate Unstamped(values: seq<Stats>) {
    forall i | 0 <= i < |values| :: values[i].firstSeen == 0
  }

  predicate CpusGrow(a: seq<Stats>, b: seq<Stats>) {
    |a| == |b| && forall i | 0 <= i < |a| :: AtMost(a[i].counts, b[i].counts)
  }

  predicate HostGrows(rs: seq<HostReading>) {
    && (forall i | 0 <= i < |rs| :: Unstamped(rs[i].tcp) && Unstamped(rs[i].udp))
    && (forall i, j | 0 <= i < j < |rs| :: CpusGrow(rs[i].tcp, rs[j].tcp) && CpusGrow(rs[i].udp, rs[j].udp))
  }

  lemma {:induction false} TotalIsCpuTotal(values: seq<Stats>)
    requires Unstamped(values)
    ensures TotalOf(values).counts == CpuTotal(values) && TotalOf(values).firstSeen == 0
    decreases |values|
  {
    hide Plus;
    if values != [] {
      TotalIsCpuTotal(values[..|values| - 1]);
    }
  }

  lemma {:induction false} CpuTotalsGrow(a: seq<Stats>, b: seq<Stats>)
    requires CpusGrow(a, b)
    ensures AtMost(CpuTotal(a), CpuTotal(b))
    decreases |a|
  {
    if a != [] {
      CpuTotalsGrow(a[..|a| - 1], b[..|b| - 1]);
      PlusGrows(CpuTotal(a[..|a| - 1]), CpuTotal(b[..|b| - 1]), a[|a| - 1].counts, b[|b| - 1].counts);
      hide Plus, AtMost;
    }
  }

  lemma PlusGrows(a: Counts, b: Counts, c: Counts, d: Counts)
    requires AtMost(a, b) && AtMost(c, d)
    ensures AtMost(Plus(a, c), Plus(b, d))
  {
  }

  lemma NothingYet(c: Counts)
    ensures AtMost(ZERO, c)
  {
  }

  /** Where a host counter of one protocol stands after `rs`. */
  predicate Stands(used: bool, previous: Stats, sum: Counts, values: seq<Stats>) {
    if used then previous.firstSeen == 0 && previous.counts == sum == CpuTotal(values)
    else sum == ZERO
  }

  lemma Advance(used: bool, previous: Stats, sum: Counts, before: seq<Stats>, values: seq<Stats>)
    requires Stands(used, previous, sum, before) && Unstamped(values)
    requires used ==> AtMost(CpuTotal(before), CpuTotal(values))
    ensures var d := if used then Delta(TotalOf(values), Some(previous)) else NO_STATS;
      Stands(used, if used then TotalOf(values) else previous, Plus(sum, d.counts), values)
  {
    hide Plus, Minus, AtMost, CpuTotal, TotalOf;
    TotalIsCpuTotal(values);
    PlusLaws(CpuTotal(before), CpuTotal(values), ZERO);
    PlusLaws(sum, ZERO, ZERO);
  }

  lemma TotalIsBoth(useTcp: bool, useUdp: bool, h: Host, r: HostReading)
    ensures var d := HostReport(useTcp, useUdp, h, r);
      d.total.counts == Plus(d.tcp.counts, d.udp.counts)
  {
    hide Delta, TotalOf, Plus;
    var d := HostReport(useTcp, useUdp, h, r);
    PlusLaws(d.tcp.counts, ZERO, ZERO);
    PlusLaws(ZERO, d.tcp.counts, ZERO);
    PlusLaws(ZERO, d.udp.counts, ZERO);
    PlusLaws(d.udp.counts, ZERO, ZERO);
  }

  /** Over any run of host samples the differences of each protocol telescope to
      the per-CPU totals of the last reading, and the host total is TCP plus UDP
      at every sample and in sum. */
  lemma {:induction false} HostAddsUp(useTcp: bool, useUdp: bool, rs: seq<HostReading>)
    requires HostGrows(rs)
    ensures var s, h := HostSums(useTcp, useUdp, rs), HostRun(useTcp, useUdp, rs);
      var last := if rs == [] then HostReading([], []) else rs[|rs| - 1];
      && Stands(useTcp, h.tcp, s.tcp, last.tcp) && Stands(useUdp, h.udp, s.udp, last.udp)
      && s.total == Plus(s.tcp, s.udp)
    decreases |rs|
  {
    hide Plus, Stands, HostReport, AtMost, CpuTotal, CpusGrow;
    if rs == [] {
      StandsAtStart(useTcp, useUdp);
    } else {
      var init, r := rs[..|rs| - 1], rs[|rs| - 1];
      HostAddsUp(useTcp, useUdp, init);
      var before := if init == [] then HostReading([], []) else init[|init| - 1];
      var s, h := HostSums(useTcp, useUdp, init), HostRun(useTcp, useUdp, init);
      var d := HostReport(useTcp, useUdp, h, r);
      HostBefore(rs);
      Advance(useTcp, h.tcp, s.tcp, before.tcp, r.tcp);
      Advance(useUdp, h.udp, s.udp, before.udp, r.udp);
      ReportParts(useTcp, useUdp, h, r);
      TotalIsBoth(useTcp, useUdp, h, r);
      Interleave(s, d.tcp.counts, d.udp.counts);
    }
  }

  lemma StandsAtStart(useTcp: bool, useUdp: bool)
    ensures Stands(useTcp, NO_STATS, ZERO, []) && Stands(useUdp, NO_STATS, ZERO, []) && ZERO == Plus(ZERO, ZERO)
  {
    hide Plus;
    PlusLaws(ZERO, ZERO, ZERO);
  }

  lemma HostBefore(rs: seq<HostReading>)
    requires rs != [] && HostGrows(rs)
    ensures var init, r := rs[..|rs| - 1], rs[|rs| - 1];
      var before := if init == [] then HostReading([], []) else init[|init| - 1];
      AtMost(CpuTotal(before.tcp), CpuTotal(r.tcp)) && AtMost(CpuTotal(before.udp), CpuTotal(r.udp))
  {
    hide AtMost, CpuTotal;
    var init, r := rs[..|rs| - 1], rs[|rs| - 1];
    if init == [] {
      Empty();
      NothingYet(CpuTotal(r.tcp));
      NothingYet(CpuTotal(r.udp));
    } else {
      assert CpusGrow(rs[|rs| - 2].tcp, r.tcp) && CpusGrow(rs[|rs| - 2].udp, r.udp);
      CpuTotalsGrow(init[|init| - 1].tcp, r.tcp);
      CpuTotalsGrow(init[|init| - 1].udp, r.udp);
    }
  }

  lemma Empty()
    ensures CpuTotal([]) == ZERO
  {
  }

  lemma ReportParts(useTcp: bool, useUdp: bool, h: Host, r: HostReading)
    ensures var d := HostReport(useTcp, useUdp, h, r);
      && d.tcp == (if useTcp then Delta(TotalOf(r.tcp), Some(h.tcp)) else NO_STATS)
      && d.udp == (if useUdp then Delta(TotalOf(r.udp), Some(h.udp)) else NO_STATS)
  {
  }

  lemma Interleave(s: Sums, a: Counts, b: Counts)
    requires s.total == Plus(s.tcp, s.udp)
    ensures Plus(s.total, Plus(a, b)) == Plus(Plus(s.tcp, a), Plus(s.udp, b))
  {
  }
}
