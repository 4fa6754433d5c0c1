/** The CPU utilisation code as it runs: the per-processor state of the kernel
    program, and the userspace callback that sums slices and flushes a round. */
module CpuCollector {
  import opened Naturals
  import opened CpuTimes
  import opened CpuUsage

  class Processor {
    const config: Config
    const id: nat
    var tid: nat
    var tgid: nat
    var startTime: nat
    var kernelStartTime: nat
    var kernelTimeAcc: int
    var inKernel: bool
    var out: seq<Slice>

    constructor (c: Config, processor: nat)
      ensures config == c && id == processor && View() == BOOT
    {
      config, id := c, processor;
      tid, tgid, startTime, kernelStartTime, kernelTimeAcc, inKernel, out := 0, 0, 0, 0, 0, false, [];
    }

    ghost function View(): State
      reads this
    {
      State(Cpu(tid, tgid, startTime, kernelStartTime, kernelTimeAcc, inKernel), out)
    }

    method SubmitCpuEvent(endTime: nat, boundary: bool, full: bool)
      modifies this`out
      ensures out == Submit(id, old(View()).cpu, old(out), endTime, boundary, full)
    {
      if full {
        return;
      }
      var kernelTime := kernelTimeAcc;
      if inKernel && kernelStartTime > 0 {
        kernelTime := kernelTime + (endTime - kernelStartTime);
      }
      out := out + [Slice(tid, tgid, endTime, kernelTime, startTime, id, boundary)];
    }

    method HandleSchedSwitch(e: Event)
      requires e.Switch?
      modifies this
      ensures View() == Step(config, id, old(View()), e)
    {
      if tid == e.prev && tid != 0 {
        tgid := e.prevTgid;
        if ShouldTrack(config, tgid) {
          SubmitCpuEvent(e.now, false, e.full);
        }
      }
      tid := e.next;
      tgid := 0;
      startTime := e.now;
      kernelStartTime := 0;
      kernelTimeAcc := 0;
      inKernel := false;
    }

    method HandleSysEnter(e: Event)
      requires e.SysEnter?
      modifies this
      ensures View() == Step(config, id, old(View()), e)
    {
      if tid != e.tid {
        return;
      }
      if !inKernel {
        inKernel := true;
        kernelStartTime := e.now;
      }
    }

    method HandleSysExit(e: Event)
      requires e.SysExit?
      modifies this
      ensures View() == Step(config, id, old(View()), e)
    {
      if tid != e.tid {
        return;
      }
      if inKernel && kernelStartTime > 0 {
        kernelTimeAcc := kernelTimeAcc + (e.now - kernelStartTime);
        kernelStartTime := 0;
      }
      inKernel := false;
    }

    method HandleBoundaryEvent(e: Event)
      requires e.Boundary?
      modifies this
      ensures View() == Step(config, id, old(View()), e)
    {
      if ShouldTrack(config, e.tgid) {
        tgid := e.tgid;
      }
      SubmitCpuEvent(e.now, true, e.full);
      startTime := e.now;
      if inKernel {
        kernelStartTime := e.now;
      }
      kernelTimeAcc := 0;
    }
  }

  /** A flush that has dealt with the threads in `done`. */
  function ResetPart(stats: map<Key, Stats>, max: nat, done: set<Key>): map<Key, Stats> {
    map k | k in stats :: if k in done then Stats(0, 0, max) else stats[k]
  }

  function ReportPart(stats: map<Key, Stats>, max: nat, done: set<Key>): map<Key, Report> {
    map k | k in stats && k in done :: Report(stats[k].cpu, stats[k].kernel, stats[k].min, max)
  }

  lemma FlushOne(stats: map<Key, Stats>, max: nat, done: set<Key>, k: Key)
    requires k in stats && k !in done
    ensures k in ResetPart(stats, max, done) && ResetPart(stats, max, done)[k] == stats[k]
    ensures ResetPart(stats, max, done + {k}) == ResetPart(stats, max, done)[k := Stats(0, 0, max)]
    ensures ReportPart(stats, max, done + {k})
      == ReportPart(stats, max, done)[k := Report(stats[k].cpu, stats[k].kernel, stats[k].min, max)]
  {
  }

  lemma FlushEnds(stats: map<Key, Stats>, max: nat)
    ensures ResetPart(stats, max, {}) == stats && ReportPart(stats, max, {}) == map[]
    ensures ResetPart(stats, max, stats.Keys) == Reset(stats, max)
    ensures ReportPart(stats, max, stats.Keys) == Reports(stats, max)
  {
  }

  class Collector {
    const nprocs: nat
    var threadStats: map<Key, Stats>
    var boundariesReported: nat
    var maxTimestamp: nat
    var rounds: seq<map<Key, Report>>

    constructor (n: nat)
      ensures nprocs == n && View() == IDLE
    {
      nprocs, threadStats, boundariesReported, maxTimestamp, rounds := n, map[], 0, 0, [];
    }

    ghost function View(): Meter
      reads this
    {
      Meter(threadStats, boundariesReported, maxTimestamp, rounds)
    }

    /** Reports every thread once and clears its sums, in any order. */
    method Flush() returns (reports: map<Key, Report>)
      modifies this`threadStats
      ensures threadStats == Reset(old(threadStats), maxTimestamp)
      ensures reports == Reports(old(threadStats), maxTimestamp)
    {
      hide ResetPart, ReportPart, Reset, Reports;
      ghost var stats, done: set<Key> := threadStats, {};
      FlushEnds(stats, maxTimestamp);
      reports := map[];
      var todo := threadStats.Keys;
      while todo != {}
        invariant todo <= stats.Keys && done == stats.Keys - todo
        invariant threadStats == ResetPart(stats, maxTimestamp, done)
        invariant reports == ReportPart(stats, maxTimestamp, done)
        decreases todo
      {
        var k :| k in todo;
        FlushOne(stats, maxTimestamp, done, k);
        reports := reports[k := Report(threadStats[k].cpu, threadStats[k].kernel, threadStats[k].min, maxTimestamp)];
        threadStats := threadStats[k := Stats(0, 0, maxTimestamp)];
        todo, done := todo - {k}, done + {k};
      }
      assert done == stats.Keys;
    }

    method OnEvent(e: Slice)
      modifies this
      ensures View() == Receive(nprocs, old(View()), e)
    {
      if e.tgid != 0 && e.tid != 0 && e.start != 0 {
        var key := KeyOf(e);
        var entry := StatsOf(threadStats, key);
        entry := entry.(cpu := entry.cpu + (e.end - e.start));
        entry := entry.(kernel := entry.kernel + e.kernel);
        entry := entry.(min := Min(entry.min, e.start));
        threadStats := threadStats[key := entry];
      }
      maxTimestamp := Max(maxTimestamp, e.end);
      hide Reset, Reports;
      if e.boundary {
        boundariesReported := boundariesReported + 1;
        if boundariesReported == nprocs {
          boundariesReported := 0;
          var reports := Flush();
          rounds := rounds + [reports];
        }
      }
    }
  }
}
