/** Network sampling as it runs: the previous readings kept between samples, and
    the loops over per-CPU values and map entries. */
module NetSampler {
  import opened Wrappers
  import opened Naturals
  import opened NetCounters

  /** Sums the per-CPU values of one protocol. */
  method ReadGlobal(values: seq<Stats>) returns (total: Stats)
    ensures total == TotalOf(values)
  {
    hide Accumulate;
    total := NO_STATS;
    var i := 0;
    while i < |values|
      invariant 0 <= i <= |values| && total == TotalOf(values[..i])
    {
      assert values[..i + 1][..i] == values[..i];
      total := Accumulate(total, values[i]);
      i := i + 1;
    }
    assert values[..i] == values;
  }

  class NetTrack {
    const useTcp: bool
    const useUdp: bool
    var globalTcp: Stats
    var globalUdp: Stats
    var processPrevious: map<Key, Stats>
    var processLog: seq<Reading>
    var peerPrevious: map<Key, Stats>
    var peerLog: seq<Reading>

    constructor (tcp: bool, udp: bool)
      ensures useTcp == tcp && useUdp == udp && HostView() == Host(NO_STATS, NO_STATS)
      ensures Processes() == FRESH && Peers() == FRESH
    {
      useTcp, useUdp, globalTcp, globalUdp := tcp, udp, NO_STATS, NO_STATS;
      processPrevious, processLog, peerPrevious, peerLog := map[], [], map[], [];
    }

    ghost function HostView(): Host
      reads this
    {
      Host(globalTcp, globalUdp)
    }

    ghost function Processes(): Sampler
      reads this
    {
      Sampler(processPrevious, processLog)
    }

    ghost function Peers(): Sampler
      reads this
    {
      Sampler(peerPrevious, peerLog)
    }

    method SampleHost(r: HostReading) returns (d: HostDelta)
      modifies this`globalTcp, this`globalUdp
      ensures HostView() == HostStep(useTcp, useUdp, old(HostView()), r)
      ensures d == HostReport(useTcp, useUdp, old(HostView()), r)
    {
      hide Accumulate, Delta, TotalOf;
      var hostDelta, tcp, udp := NO_STATS, NO_STATS, NO_STATS;
      if useTcp {
        var current := ReadGlobal(r.tcp);
        tcp := Delta(current, Some(globalTcp));
        hostDelta := Accumulate(hostDelta, tcp);
        globalTcp := current;
      }
      if useUdp {
        var current := ReadGlobal(r.udp);
        udp := Delta(current, Some(globalUdp));
        hostDelta := Accumulate(hostDelta, udp);
        globalUdp := current;
      }
      return HostDelta(tcp, udp, hostDelta);
    }

    method SampleProcesses(entries: seq<Reading>)
      modifies this`processPrevious, this`processLog
      ensures Processes() == Run(old(Processes()), entries)
    {
      hide Delta;
      var i := 0;
      while i < |entries|
        invariant 0 <= i <= |entries| && Processes() == Run(old(Processes()), entries[..i])
      {
        var key, current := entries[i].key, entries[i].stats;
        assert entries[..i + 1][..i] == entries[..i];
        if Readable(key) {
          var previous := Get(processPrevious, key);
          processPrevious := processPrevious[key := current];
          processLog := processLog + [Reading(key, Delta(current, previous))];
        }
        i := i + 1;
      }
      assert entries[..i] == entries;
    }

    method SamplePeers(entries: seq<Reading>)
      modifies this`peerPrevious, this`peerLog
      ensures Peers() == Run(old(Peers()), entries)
    {
      hide Delta;
      var i := 0;
      while i < |entries|
        invariant 0 <= i <= |entries| && Peers() == Run(old(Peers()), entries[..i])
      {
        var key, current := entries[i].key, entries[i].stats;
        assert entries[..i + 1][..i] == entries[..i];
        if Readable(key) {
          var previous := Get(peerPrevious, key);
          peerPrevious := peerPrevious[key := current];
          peerLog := peerLog + [Reading(key, Delta(current, previous))];
        }
        i := i + 1;
      }
      assert entries[..i] == entries;
    }
  }

  /** Successive samples are one run of readings. */
  lemma {:induction false} SamplesAreOneRun(s: Sampler, a: seq<Reading>, b: seq<Reading>)
    ensures Run(Run(s, a), b) == Run(s, a + b)
    decreases |b|
  {
    hide Step;
    if b == [] {
      assert a + b == a;
    } else {
      SamplesAreOneRun(s, a, b[..|b| - 1]);
      assert (a + b)[..|a + b| - 1] == a + b[..|b| - 1];
    }
  }
}
