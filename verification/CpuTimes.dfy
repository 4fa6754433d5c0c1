/** CPU time on one processor: the kernel program that cuts time into slices per
    thread and measures how much of each slice was spent in system calls, and how
    that measure compares with the system calls themselves. */
module CpuTimes {

  datatype Config = Config(filtered: bool, tgids: set<nat>)

  /** Differences are kept as integers, so that an underflow would show. */
  datatype Cpu = Cpu(tid: nat, tgid: nat, start: nat, kernelStart: nat, acc: int, inKernel: bool)

  datatype Slice = Slice(tid: nat, tgid: nat, end: nat, kernel: int, start: nat, cpu: nat, boundary: bool)

  datatype State = State(cpu: Cpu, out: seq<Slice>)

  /** What happens on this processor, and the system calls threads enter or leave
      on other processors, which the program here does not see. `full` says
      whether the ring buffer refuses the slice. */
  datatype Event =
    | Switch(now: nat, prev: nat, prevTgid: nat, next: nat, full: bool)
    | SysEnter(now: nat, tid: nat)
    | SysExit(now: nat, tid: nat)
    | Boundary(now: nat, tgid: nat, full: bool)
    | Elsewhere(now: nat, tid: nat, enter: bool)

  const BOOT: State := State(Cpu(0, 0, 0, 0, 0, false), [])

  /** Thread group 0 passes the filter here. */
  predicate ShouldTrack(c: Config, tgid: nat) {
    c.filtered && tgid != 0 ==> tgid in c.tgids
  }

  function KernelTime(s: Cpu, now: nat): int {
    s.acc + if s.inKernel && s.kernelStart > 0 then now - s.kernelStart else 0
  }

  function Submit(id: nat, s: Cpu, out: seq<Slice>, now: nat, boundary: bool, full: bool): seq<Slice> {
    if full then out else out + [Slice(s.tid, s.tgid, now, KernelTime(s, now), s.start, id, boundary)]
  }

  function OnSwitch(c: Config, id: nat, s: State, e: Event): State
    requires e.Switch?
  {
    var known := s.cpu.tid == e.prev && s.cpu.tid != 0;
    State(Cpu(e.next, 0, e.now, 0, 0, false),
          if known && ShouldTrack(c, e.prevTgid)
          then Submit(id, s.cpu.(tgid := e.prevTgid), s.out, e.now, false, e.full) else s.out)
  }

  function OnEnter(s: State, e: Event): State
    requires e.SysEnter?
  {
    if s.cpu.tid != e.tid || s.cpu.inKernel then s
    else s.(cpu := s.cpu.(inKernel := true, kernelStart := e.now))
  }

  function OnExit(s: State, e: Event): State
    requires e.SysExit?
  {
    if s.cpu.tid != e.tid then s
    else if s.cpu.inKernel && s.cpu.kernelStart > 0 then
      s.(cpu := s.cpu.(acc := s.cpu.acc + (e.now - s.cpu.kernelStart), kernelStart := 0, inKernel := false))
    else s.(cpu := s.cpu.(inKernel := false))
  }

  function OnBoundary(c: Config, id: nat, s: State, e: Event): State
    requires e.Boundary?
  {
    var cpu := if ShouldTrack(c, e.tgid) then s.cpu.(tgid := e.tgid) else s.cpu;
    State(cpu.(start := e.now, kernelStart := if cpu.inKernel then e.now else cpu.kernelStart, acc := 0),
          Submit(id, cpu, s.out, e.now, true, e.full))
  }

  function Step(c: Config, id: nat, s: State, e: Event): State {
    match e
    case Switch(_, _, _, _, _) => OnSwitch(c, id, s, e)
    case SysEnter(_, _) => OnEnter(s, e)
    case SysExit(_, _) => OnExit(s, e)
    case Boundary(_, _, _) => OnBoundary(c, id, s, e)
    case Elsewhere(_, _, _) => s
  }

  function Run(c: Config, id: nat, es: seq<Event>): State {
    if es == [] then BOOT else Step(c, id, Run(c, id, es[..|es| - 1]), es[|es| - 1])
  }

  predicate Orderly(es: seq<Event>) {
    && (forall i | 0 <= i < |es| :: 0 < es[i].now)
    && (forall i, j | 0 <= i < j < |es| :: es[i].now <= es[j].now)
  }

  function LastTime(es: seq<Event>): nat {
    if es == [] then 0 else es[|es| - 1].now
  }

  // ------------------------------------------------- what the events themselves say

  /** The thread the last switch put on this processor. */
  function Current(es: seq<Event>): nat {
    if es == [] then 0
    else if es[|es| - 1].Switch? then es[|es| - 1].next
    else Current(es[..|es| - 1])
  }

  /** Whether the last system-call event of the thread, here or elsewhere, is an
      entry. */
  predicate InCall(es: seq<Event>, tid: nat) {
    if es == [] then false
    else
      match es[|es| - 1]
      case SysEnter(_, k) => k == tid || InCall(es[..|es| - 1], tid)
      case SysExit(_, k) => k != tid && InCall(es[..|es| - 1], tid)
      case Elsewhere(_, k, enter) => if k == tid then enter else InCall(es[..|es| - 1], tid)
      case Switch(_, _, _, _, _) => InCall(es[..|es| - 1], tid)
      case Boundary(_, _, _) => InCall(es[..|es| - 1], tid)
  }

  /** The thread on this processor was inside a call when it was switched in, and
      has neither left that call nor entered another since. */
  predicate Resumed(es: seq<Event>) {
    if es == [] then false
    else
      var init := es[..|es| - 1];
      match es[|es| - 1]
      case Switch(_, _, _, next, _) => InCall(init, next)
      case SysEnter(_, k) => k != Current(init) && Resumed(init)
      case SysExit(_, k) => k != Current(init) && Resumed(init)
      case Boundary(_, _, _) => Resumed(init)
      case Elsewhere(_, _, _) => Resumed(init)
  }

  /** A thread makes its calls where it runs. */
  predicate CallsWhereItRuns(es: seq<Event>) {
    es == [] || (CallsWhereItRuns(es[..|es| - 1])
                 && (es[|es| - 1].Elsewhere? ==> es[|es| - 1].tid != Current(es[..|es| - 1])))
  }

  /** The events up to time `t`. */
  function Upto(es: seq<Event>, t: nat): (r: seq<Event>)
    ensures r <= es
  {
    if es == [] || LastTime(es) <= t then es else Upto(es[..|es| - 1], t)
  }

  /** How many of the moments from `lo` up to `hi` the thread is inside a call. */
  function CallTicks(es: seq<Event>, tid: nat, lo: nat, hi: nat): nat
    decreases hi
  {
    if hi <= lo then 0
    else CallTicks(es, tid, lo, hi - 1) + if InCall(Upto(es, hi - 1), tid) then 1 else 0
  }

  // ------------------------------------------------------- what the program measures

  predicate FlagAt(c: Config, id: nat, es: seq<Event>, t: nat) {
    Run(c, id, Upto(es, t)).cpu.inKernel
  }

  /** How many of the moments from `lo` up to `hi` the program's own flag is set. */
  function FlagTicks(c: Config, id: nat, es: seq<Event>, lo: nat, hi: nat): nat
    decreases hi
  {
    if hi <= lo then 0
    else FlagTicks(c, id, es, lo, hi - 1) + if FlagAt(c, id, es, hi - 1) then 1 else 0
  }

  lemma {:induction false} TicksBefore(c: Config, id: nat, es: seq<Event>, lo: nat, hi: nat)
    requires es != [] && hi <= LastTime(es)
    ensures FlagTicks(c, id, es, lo, hi) == FlagTicks(c, id, es[..|es| - 1], lo, hi)
    decreases hi
  {
    hide Run;
    if hi > lo {
      TicksBefore(c, id, es, lo, hi - 1);
    }
  }

  lemma {:induction false} TicksAfter(c: Config, id: nat, es: seq<Event>, lo: nat, from: nat, hi: nat)
    requires lo <= from <= hi && LastTime(es) <= from
    ensures FlagTicks(c, id, es, lo, hi)
      == FlagTicks(c, id, es, lo, from) + if Run(c, id, es).cpu.inKernel then hi - from else 0
    decreases hi
  {
    hide Run;
    if hi > from {
      TicksAfter(c, id, es, lo, from, hi - 1);
    }
  }

  /** What the counters of a processor mean after `es`. */
  predicate Measured(c: Config, id: nat, es: seq<Event>, s: Cpu) {
    && s.start <= LastTime(es)
    && (s.inKernel ==> 0 < s.kernelStart && s.start <= s.kernelStart <= LastTime(es))
    && KernelTime(s, LastTime(es)) == FlagTicks(c, id, es, s.start, LastTime(es))
  }

  lemma MeasuredLater(c: Config, id: nat, es: seq<Event>, s: Cpu, now: nat)
    requires Measured(c, id, es, s) && s == Run(c, id, es).cpu && LastTime(es) <= now
    ensures KernelTime(s, now) == FlagTicks(c, id, es, s.start, now)
  {
    TicksAfter(c, id, es, s.start, LastTime(es), now);
  }

  lemma MeasuredStep(c: Config, id: nat, es: seq<Event>)
    requires es != [] && 0 < LastTime(es) && LastTime(es[..|es| - 1]) <= LastTime(es)
    requires Measured(c, id, es[..|es| - 1], Run(c, id, es[..|es| - 1]).cpu)
    ensures Measured(c, id, es, Run(c, id, es).cpu)
    ensures var p, now := Run(c, id, es[..|es| - 1]).cpu, LastTime(es);
      KernelTime(p, now) == FlagTicks(c, id, es, p.start, now)
  {
    var init, now := es[..|es| - 1], LastTime(es);
    var p, r := Run(c, id, init).cpu, Run(c, id, es).cpu;
    MeasuredLater(c, id, init, p, now);
    TicksBefore(c, id, es, p.start, now);
    hide FlagTicks;
    NoTicks(c, id, es, now);
  }

  lemma NoTicks(c: Config, id: nat, es: seq<Event>, t: nat)
    ensures FlagTicks(c, id, es, t, t) == 0
  {
  }

  lemma {:induction false} RunMeasured(c: Config, id: nat, es: seq<Event>)
    requires Orderly(es)
    ensures Measured(c, id, es, Run(c, id, es).cpu)
    decreases |es|
  {
    hide Run, Measured;
    if es == [] {
      BootMeasured(c, id);
    } else {
      assert Orderly(es[..|es| - 1]);
      RunMeasured(c, id, es[..|es| - 1]);
      MeasuredStep(c, id, es);
    }
  }

  lemma BootMeasured(c: Config, id: nat)
    ensures Measured(c, id, [], Run(c, id, []).cpu)
  {
  }

  // ------------------------------------------------------------- order of the slices

  predicate Placed(c: Config, id: nat, es: seq<Event>, sl: Slice) {
    && sl.start <= sl.end <= LastTime(es) && sl.cpu == id
    && sl.kernel == FlagTicks(c, id, es, sl.start, sl.end)
  }

  predicate SlicesOk(c: Config, id: nat, es: seq<Event>, s: State) {
    && (forall i | 0 <= i < |s.out| :: Placed(c, id, es, s.out[i]) && s.out[i].end <= s.cpu.start)
    && (forall i, j | 0 <= i < j < |s.out| :: s.out[i].end <= s.out[j].start)
  }

  lemma StepOut(c: Config, id: nat, s: State, e: Event)
    ensures var r := Step(c, id, s, e);
      && (r.out != s.out ==>
            && |r.out| == |s.out| + 1 && r.out[..|s.out|] == s.out && r.cpu.start == e.now
            && var sl := r.out[|s.out|];
            && sl.start == s.cpu.start && sl.end == e.now && sl.kernel == KernelTime(s.cpu, e.now)
            && sl.cpu == id && sl.tid == s.cpu.tid)
      && (r.cpu.start == e.now
          || (r.cpu.start == s.cpu.start && r.cpu.tid == s.cpu.tid && !e.Switch? && !e.Boundary?))
  {
  }

  lemma {:induction false} RunSlices(c: Config, id: nat, es: seq<Event>)
    requires Orderly(es)
    ensures SlicesOk(c, id, es, Run(c, id, es))
    decreases |es|
  {
    if es != [] {
      var init, now := es[..|es| - 1], LastTime(es);
      assert Orderly(init) && LastTime(init) <= now;
      RunSlices(c, id, init);
      RunMeasured(c, id, init);
      var s, r := Run(c, id, init), Run(c, id, es);
      MeasuredStep(c, id, es);
      forall i | 0 <= i < |s.out| ensures Placed(c, id, es, s.out[i]) {
        TicksBefore(c, id, es, s.out[i].start, s.out[i].end);
      }
      StepOut(c, id, s, es[|es| - 1]);
      hide FlagTicks, Run, Measured;
      if r.out != s.out {
        assert Placed(c, id, es, r.out[|s.out|]);
      }
    }
  }

  // ------------------------------------------------------------ whose slice it is

  /** The thread on this processor at `t`. */
  function CurrentAt(es: seq<Event>, t: nat): nat {
    Current(Upto(es, t))
  }

  predicate ResumedAt(es: seq<Event>, t: nat) {
    Resumed(Upto(es, t))
  }

  /** At a moment of a slice its thread is on the processor, and is not in a
      resumed call unless the slice begins in one. */
  predicate Mine(es: seq<Event>, tid: nat, lo: nat, t: nat) {
    CurrentAt(es, t) == tid && (ResumedAt(es, t) ==> ResumedAt(es, lo))
  }

  predicate Owns(es: seq<Event>, tid: nat, lo: nat, hi: nat) {
    forall t | lo <= t < hi :: Mine(es, tid, lo, t)
  }

  ghost predicate OwnsOn(es: seq<Event>, tid: nat, lo: nat) {
    forall t: nat | lo <= t :: Mine(es, tid, lo, t)
  }

  /** The running slice and every reported one belong to their threads. */
  ghost predicate Owned(es: seq<Event>, s: State) {
    && s.cpu.tid == Current(es)
    && OwnsOn(es, s.cpu.tid, s.cpu.start)
    && (forall i | 0 <= i < |s.out| :: Owns(es, s.out[i].tid, s.out[i].start, s.out[i].end))
  }

  lemma UptoStep(es: seq<Event>, t: nat)
    requires es != []
    ensures Upto(es, t) == if t < LastTime(es) then Upto(es[..|es| - 1], t) else es
  {
  }

  /** Later events do not change the past. */
  lemma MineKept(es: seq<Event>, tid: nat, lo: nat, t: nat)
    requires es != [] && lo <= t < LastTime(es)
    ensures Mine(es, tid, lo, t) <==> Mine(es[..|es| - 1], tid, lo, t)
  {
    hide Current, Resumed, Upto;
    UptoStep(es, t);
    UptoStep(es, lo);
  }

  lemma OwnsKept(es: seq<Event>, tid: nat, lo: nat, hi: nat)
    requires es != [] && hi <= LastTime(es) && Owns(es[..|es| - 1], tid, lo, hi)
    ensures Owns(es, tid, lo, hi)
  {
    hide Mine;
    forall t | lo <= t < hi ensures Mine(es, tid, lo, t) {
      MineKept(es, tid, lo, t);
    }
  }

  /** A slice that has just begun. */
  lemma OwnsFresh(es: seq<Event>)
    requires es != []
    ensures OwnsOn(es, Current(es), LastTime(es))
  {
    hide Current, Resumed, Upto;
    forall t: nat | LastTime(es) <= t ensures Mine(es, Current(es), LastTime(es), t) {
      UptoStep(es, t);
      UptoStep(es, LastTime(es));
    }
  }

  /** The running slice goes on through an event that is no switch. */
  lemma OwnsLonger(es: seq<Event>, lo: nat)
    requires es != [] && LastTime(es[..|es| - 1]) <= LastTime(es) && lo <= LastTime(es[..|es| - 1])
    requires !es[|es| - 1].Switch? && OwnsOn(es[..|es| - 1], Current(es[..|es| - 1]), lo)
    ensures OwnsOn(es, Current(es), lo)
  {
    var init, now := es[..|es| - 1], LastTime(es);
    NoSwitch(es);
    hide Current, Resumed;
    assert Mine(init, Current(init), lo, LastTime(init));
    forall t: nat | lo <= t ensures Mine(es, Current(es), lo, t) {
      assert Mine(init, Current(init), lo, t);
      if t < now {
        MineKept(es, Current(es), lo, t);
      } else {
        UptoStep(es, t);
        UptoStep(es, lo);
      }
    }
  }

  lemma NoSwitch(es: seq<Event>)
    requires es != [] && !es[|es| - 1].Switch?
    ensures Current(es) == Current(es[..|es| - 1]) && (Resumed(es) ==> Resumed(es[..|es| - 1]))
  {
  }

  lemma OwnedStep(c: Config, id: nat, es: seq<Event>)
    requires es != [] && LastTime(es[..|es| - 1]) <= LastTime(es)
    requires Owned(es[..|es| - 1], Run(c, id, es[..|es| - 1]))
    requires SlicesOk(c, id, es[..|es| - 1], Run(c, id, es[..|es| - 1]))
    requires Run(c, id, es[..|es| - 1]).cpu.start <= LastTime(es[..|es| - 1])
    ensures Owned(es, Run(c, id, es))
  {
    var init, e := es[..|es| - 1], es[|es| - 1];
    var s, r := Run(c, id, init), Run(c, id, es);
    StepOut(c, id, s, e);
    CurrentIsTid(c, id, s, e, es);
    hide Run, Step, FlagTicks, Owns, OwnsOn, Current;
    if r.cpu.start == e.now {
      OwnsFresh(es);
    } else {
      OwnsLonger(es, s.cpu.start);
    }
    forall i | 0 <= i < |r.out| ensures Owns(es, r.out[i].tid, r.out[i].start, r.out[i].end) {
      if i < |s.out| {
        assert r.out[i] == s.out[i] && Placed(c, id, init, s.out[i]);
      }
      OwnsKept(es, r.out[i].tid, r.out[i].start, r.out[i].end);
    }
  }

  lemma CurrentIsTid(c: Config, id: nat, s: State, e: Event, es: seq<Event>)
    requires es != [] && e == es[|es| - 1] && s.cpu.tid == Current(es[..|es| - 1])
    ensures Step(c, id, s, e).cpu.tid == Current(es)
  {
  }

  lemma {:induction false} SlicesOwned(c: Config, id: nat, es: seq<Event>)
    requires Orderly(es)
    ensures Owned(es, Run(c, id, es))
    decreases |es|
  {
    hide Owned, SlicesOk, Run, Measured, Orderly;
    if es == [] {
      BootOwned(c, id);
    } else {
      OrderlyPrefix(es);
      SlicesOwned(c, id, es[..|es| - 1]);
      RunSlices(c, id, es[..|es| - 1]);
      RunMeasured(c, id, es[..|es| - 1]);
      MeasuredStart(c, id, es[..|es| - 1]);
      OwnedStep(c, id, es);
    }
  }

  // ----------------------------------------------------------- nothing is left out

  /** How many interval ends found room for their slice. */
  function Ended(es: seq<Event>): nat {
    if es == [] then 0
    else Ended(es[..|es| - 1]) + if es[|es| - 1].Boundary? && !es[|es| - 1].full then 1 else 0
  }

  function Marked(out: seq<Slice>): nat {
    if out == [] then 0 else Marked(out[..|out| - 1]) + if out[|out| - 1].boundary then 1 else 0
  }

  lemma MarkedMore(out: seq<Slice>, sl: Slice)
    ensures Marked(out + [sl]) == Marked(out) + if sl.boundary then 1 else 0
  {
    assert (out + [sl])[..|out|] == out;
  }

  /** As many slices are marked as interval ends as there were interval ends. */
  lemma {:induction false} EndsMarked(c: Config, id: nat, es: seq<Event>)
    ensures Marked(Run(c, id, es).out) == Ended(es)
    decreases |es|
  {
    hide Marked, KernelTime;
    if es == [] {
      NoneMarked();
    } else {
      EndsMarked(c, id, es[..|es| - 1]);
      var s, r := Run(c, id, es[..|es| - 1]), Run(c, id, es);
      if |r.out| > |s.out| {
        MarkedMore(s.out, r.out[|s.out|]);
      }
    }
  }

  lemma NoneMarked()
    ensures Marked([]) == 0
  {
  }

  /** When the last switch or interval end was. */
  function LastCut(es: seq<Event>): nat {
    if es == [] then 0
    else if es[|es| - 1].Switch? || es[|es| - 1].Boundary? then es[|es| - 1].now
    else LastCut(es[..|es| - 1])
  }

  /** What ends a slice of the thread names it and its group, and finds room. */
  predicate Reportable(es: seq<Event>, tid: nat, tgid: nat) {
    es == [] ||
    (var init, e := es[..|es| - 1], es[|es| - 1];
     && Reportable(init, tid, tgid)
     && (Current(init) == tid && e.Switch? ==> e.prev == tid && e.prevTgid == tgid && !e.full)
     && (Current(init) == tid && e.Boundary? ==> e.tgid == tgid && !e.full))
  }

  predicate Covers(sl: Slice, tid: nat, tgid: nat, t: nat) {
    sl.tid == tid && sl.tgid == tgid && sl.start <= t < sl.end
  }

  predicate Covered(out: seq<Slice>, tid: nat, tgid: nat, t: nat) {
    exists i :: 0 <= i < |out| && Covers(out[i], tid, tgid, t)
  }

  lemma CutIsStart(c: Config, id: nat, s: State, e: Event)
    ensures var r := Step(c, id, s, e);
      && s.out <= r.out
      && r.cpu.start == if e.Switch? || e.Boundary? then e.now else s.cpu.start
  {
  }

  lemma {:induction false} StartIsCut(c: Config, id: nat, es: seq<Event>)
    requires Orderly(es)
    ensures Run(c, id, es).cpu.start == LastCut(es) <= LastTime(es)
    decreases |es|
  {
    hide Step;
    if es != [] {
      assert Orderly(es[..|es| - 1]);
      StartIsCut(c, id, es[..|es| - 1]);
      CutIsStart(c, id, Run(c, id, es[..|es| - 1]), es[|es| - 1]);
    }
  }

  /** The event that ends the running slice reports it. */
  lemma CutReports(c: Config, id: nat, s: State, e: Event, tid: nat, tgid: nat, t: nat)
    requires s.cpu.tid == tid != 0 && s.cpu.start <= t < e.now && (c.filtered && tgid != 0 ==> tgid in c.tgids)
    requires (e.Switch? && e.prev == tid && e.prevTgid == tgid && !e.full) || (e.Boundary? && e.tgid == tgid && !e.full)
    ensures Covered(Step(c, id, s, e).out, tid, tgid, t)
  {
    var r := Step(c, id, s, e);
    assert Covers(r.out[|s.out|], tid, tgid, t);
  }

  /** Every moment a thread of interest was on the processor, up to the last switch
      or interval end, is in a slice reported for it. */
  lemma {:induction false} SlicesCover(c: Config, id: nat, es: seq<Event>, tid: nat, tgid: nat, t: nat)
    requires Orderly(es) && tid != 0 && (c.filtered && tgid != 0 ==> tgid in c.tgids) && Reportable(es, tid, tgid)
    requires t < LastCut(es) && CurrentAt(es, t) == tid
    ensures Covered(Run(c, id, es).out, tid, tgid, t)
    decreases |es|
  {
    hide Step, Covered, Covers, Current, Resumed, Upto, Owns, OwnsOn;
    var init, e := es[..|es| - 1], es[|es| - 1];
    var s := Run(c, id, init);
    assert Orderly(init);
    StartIsCut(c, id, init);
    StartIsCut(c, id, es);
    CutIsStart(c, id, s, e);
    UptoStep(es, t);
    if t < LastCut(init) {
      SlicesCover(c, id, init, tid, tgid, t);
      CoveredMore(s.out, Step(c, id, s, e).out, tid, tgid, t);
    } else {
      SlicesOwned(c, id, init);
      StillOn(init, s.cpu.tid, s.cpu.start, t);
      CutReports(c, id, s, e, tid, tgid, t);
    }
  }

  lemma StillOn(es: seq<Event>, tid: nat, lo: nat, t: nat)
    requires OwnsOn(es, tid, lo) && lo <= t
    ensures CurrentAt(es, t) == tid
  {
    hide CurrentAt, ResumedAt;
    assert Mine(es, tid, lo, t);
  }

  lemma CoveredMore(a: seq<Slice>, b: seq<Slice>, tid: nat, tgid: nat, t: nat)
    requires a <= b && Covered(a, tid, tgid, t)
    ensures Covered(b, tid, tgid, t)
  {
    hide Covers;
    var i :| 0 <= i < |a| && Covers(a[i], tid, tgid, t);
    assert Covers(b[i], tid, tgid, t);
  }

  lemma OrderlyPrefix(es: seq<Event>)
    requires es != [] && Orderly(es)
    ensures Orderly(es[..|es| - 1]) && LastTime(es[..|es| - 1]) <= LastTime(es)
  {
  }

  lemma MeasuredStart(c: Config, id: nat, es: seq<Event>)
    requires Measured(c, id, es, Run(c, id, es).cpu)
    ensures Run(c, id, es).cpu.start <= LastTime(es)
  {
  }

  lemma BootOwned(c: Config, id: nat)
    ensures Owned([], Run(c, id, []))
  {
  }

  // ----------------------------------------------------- flag against system calls

  /** The thread on the processor is inside a call if and only if the program's
      flag is set or the call is a resumed one. */
  lemma {:induction false} FlagMeaning(c: Config, id: nat, es: seq<Event>)
    requires CallsWhereItRuns(es)
    ensures var s := Run(c, id, es).cpu;
      && s.tid == Current(es) && (InCall(es, s.tid) <==> s.inKernel || Resumed(es)) && !(s.inKernel && Resumed(es))
    decreases |es|
  {
    if es != [] {
      FlagMeaning(c, id, es[..|es| - 1]);
    }
  }

  lemma {:induction false} UptoCalls(es: seq<Event>, t: nat)
    requires CallsWhereItRuns(es)
    ensures CallsWhereItRuns(Upto(es, t))
    decreases |es|
  {
    if es != [] && t < LastTime(es) {
      UptoCalls(es[..|es| - 1], t);
    }
  }

  /** Where the flag implies the call, it is set no longer than the call lasts,
      and as long exactly if it is set throughout. */
  lemma {:induction false} CompareTicks(c: Config, id: nat, es: seq<Event>, tid: nat, lo: nat, hi: nat)
    requires lo <= hi
    requires forall t: nat | lo <= t < hi :: FlagAt(c, id, es, t) ==> InCall(Upto(es, t), tid)
    ensures FlagTicks(c, id, es, lo, hi) <= CallTicks(es, tid, lo, hi) <= hi - lo
    ensures FlagTicks(c, id, es, lo, hi) == CallTicks(es, tid, lo, hi)
      <==> forall t: nat | lo <= t < hi :: InCall(Upto(es, t), tid) ==> FlagAt(c, id, es, t)
    decreases hi
  {
    hide FlagAt, InCall, Upto;
    if lo < hi {
      CompareTicks(c, id, es, tid, lo, hi - 1);
    }
  }

  /** The kernel time of every slice is at most the time its thread was inside a
      system call, and is exactly that time if and only if the slice does not
      begin in a call that the thread brought with it when it was switched in. */
  lemma KernelTimeIff(c: Config, id: nat, es: seq<Event>, i: nat)
    requires Orderly(es) && CallsWhereItRuns(es) && i < |Run(c, id, es).out|
    ensures var sl := Run(c, id, es).out[i];
      && 0 <= sl.kernel <= CallTicks(es, sl.tid, sl.start, sl.end) <= sl.end - sl.start
      && (sl.kernel == CallTicks(es, sl.tid, sl.start, sl.end) <==> !(sl.start < sl.end && ResumedAt(es, sl.start)))
  {
    hide Run, FlagAt, FlagTicks, CallTicks, InCall, Upto, ResumedAt, CurrentAt, Current;
    var sl := Run(c, id, es).out[i];
    RunSlices(c, id, es);
    SlicesOwned(c, id, es);
    assert Owns(es, sl.tid, sl.start, sl.end) && Placed(c, id, es, sl);
    forall t | sl.start <= t < sl.end
      ensures InCall(Upto(es, t), sl.tid) <==> FlagAt(c, id, es, t) || ResumedAt(es, t)
      ensures !(FlagAt(c, id, es, t) && ResumedAt(es, t))
    {
      assert Mine(es, sl.tid, sl.start, t);
      MomentMeaning(c, id, es, t);
    }
    CompareTicks(c, id, es, sl.tid, sl.start, sl.end);
    if sl.start < sl.end && ResumedAt(es, sl.start) {
      assert InCall(Upto(es, sl.start), sl.tid) && !FlagAt(c, id, es, sl.start);
    }
    forall t | sl.start <= t < sl.end && ResumedAt(es, t) ensures ResumedAt(es, sl.start) {
      assert Mine(es, sl.tid, sl.start, t);
    }
  }

  lemma MomentMeaning(c: Config, id: nat, es: seq<Event>, t: nat)
    requires CallsWhereItRuns(es)
    ensures InCall(Upto(es, t), CurrentAt(es, t)) <==> FlagAt(c, id, es, t) || ResumedAt(es, t)
    ensures !(FlagAt(c, id, es, t) && ResumedAt(es, t))
  {
    hide Run, InCall, Upto, Resumed, Current;
    UptoCalls(es, t);
    FlagMeaning(c, id, Upto(es, t));
  }

  /** Every slice ends no earlier than it starts, counts no more kernel time than
      its length, and comes after the slices reported before it. */
  lemma SlicesInOrder(c: Config, id: nat, es: seq<Event>)
    requires Orderly(es)
    ensures var out := Run(c, id, es).out;
      && (forall i | 0 <= i < |out| ::
            && out[i].start <= out[i].end <= LastTime(es) && 0 <= out[i].kernel <= out[i].end - out[i].start
            && out[i].cpu == id)
      && (forall i, j | 0 <= i < j < |out| :: out[i].end <= out[j].start)
  {
    RunSlices(c, id, es);
    var out := Run(c, id, es).out;
    hide Run;
    forall i | 0 <= i < |out| ensures 0 <= out[i].kernel <= out[i].end - out[i].start {
      assert Placed(c, id, es, out[i]);
      FlagAtMost(c, id, es, out[i].start, out[i].end);
    }
  }

  lemma {:induction false} FlagAtMost(c: Config, id: nat, es: seq<Event>, lo: nat, hi: nat)
    requires lo <= hi
    ensures FlagTicks(c, id, es, lo, hi) <= hi - lo
    decreases hi
  {
    hide FlagAt;
    if lo < hi {
      FlagAtMost(c, id, es, lo, hi - 1);
    }
  }

  /** A thread that blocks in a call and is switched back in has the rest of the
      call counted as user time: of the moments 40 to 60 of the second slice of
      thread 7, ten are inside the call and none is reported. */
  lemma ResumedCallExample()
    ensures var es := [Switch(10, 0, 0, 7, false), SysEnter(20, 7), Switch(30, 7, 3, 9, false),
                       Switch(40, 9, 3, 7, false), SysExit(50, 7), Switch(60, 7, 3, 9, false)];
      var out := Run(Config(false, {}), 0, es).out;
      && Orderly(es) && CallsWhereItRuns(es) && |out| == 3
      && out[2].tid == 7 && out[2].start == 40 && out[2].end == 60
      && out[2].kernel == 0 && CallTicks(es, 7, 40, 60) == 10
  {
    hide Run, CallTicks, CallsWhereItRuns;
    var c := Config(false, {});
    var e1, e2, e3 := Switch(10, 0, 0, 7, false), SysEnter(20, 7), Switch(30, 7, 3, 9, false);
    var e4, e5, e6 := Switch(40, 9, 3, 7, false), SysExit(50, 7), Switch(60, 7, 3, 9, false);
    ExampleRun(c, e1, e2, e3, e4, e5, e6);
    ExampleCalls(e1, e2, e3, e4, e5, e6);
  }

  lemma ExampleRun(c: Config, e1: Event, e2: Event, e3: Event, e4: Event, e5: Event, e6: Event)
    requires c == Config(false, {})
    requires e1 == Switch(10, 0, 0, 7, false) && e2 == SysEnter(20, 7) && e3 == Switch(30, 7, 3, 9, false)
    requires e4 == Switch(40, 9, 3, 7, false) && e5 == SysExit(50, 7) && e6 == Switch(60, 7, 3, 9, false)
    ensures Run(c, 0, [e1, e2, e3, e4, e5, e6]).out
      == [Slice(7, 3, 30, 10, 10, 0, false), Slice(9, 3, 40, 0, 30, 0, false), Slice(7, 3, 60, 0, 40, 0, false)]
  {
    var s1, s2 := [e1], [e1, e2];
    var s3, s4, s5 := [e1, e2, e3], [e1, e2, e3, e4], [e1, e2, e3, e4, e5];
    var es := [e1, e2, e3, e4, e5, e6];
    assert s1[..0] == [] && s2[..1] == s1 && s3[..2] == s2 && s4[..3] == s3 && s5[..4] == s4 && es[..5] == s5;
    var a, b := Slice(7, 3, 30, 10, 10, 0, false), Slice(9, 3, 40, 0, 30, 0, false);
    assert Run(c, 0, s1) == State(Cpu(7, 0, 10, 0, 0, false), []);
    assert Run(c, 0, s2) == State(Cpu(7, 0, 10, 20, 0, true), []);
    assert Run(c, 0, s3) == State(Cpu(9, 0, 30, 0, 0, false), [a]);
    assert Run(c, 0, s4) == State(Cpu(7, 0, 40, 0, 0, false), [a, b]);
    assert Run(c, 0, s5) == State(Cpu(7, 0, 40, 0, 0, false), [a, b]);
  }

  lemma ExampleCalls(e1: Event, e2: Event, e3: Event, e4: Event, e5: Event, e6: Event)
    requires e1 == Switch(10, 0, 0, 7, false) && e2 == SysEnter(20, 7) && e3 == Switch(30, 7, 3, 9, false)
    requires e4 == Switch(40, 9, 3, 7, false) && e5 == SysExit(50, 7) && e6 == Switch(60, 7, 3, 9, false)
    ensures CallsWhereItRuns([e1, e2, e3, e4, e5, e6]) && CallTicks([e1, e2, e3, e4, e5, e6], 7, 40, 60) == 10
  {
    var s1, s2 := [e1], [e1, e2];
    var s3, s4, s5 := [e1, e2, e3], [e1, e2, e3, e4], [e1, e2, e3, e4, e5];
    var es := [e1, e2, e3, e4, e5, e6];
    assert s1[..0] == [] && s2[..1] == s1 && s3[..2] == s2 && s4[..3] == s3 && s5[..4] == s4 && es[..5] == s5;
    AllHere(es);
    assert InCall(s2, 7) && InCall(s3, 7) && InCall(s4, 7) && !InCall(s5, 7);
    forall t: nat | 40 <= t < 60 ensures Upto(es, t) == if t < 50 then s4 else s5 {
      UptoStep(es, t);
      UptoStep(s5, t);
      UptoStep(s4, t);
    }
    hide Upto, InCall, CallsWhereItRuns;
    TicksConstant(es, 7, 40, 50, s4);
    TicksConstant(es, 7, 50, 60, s5);
    TicksAdd(es, 7, 40, 50, 60);
  }

  lemma {:induction false} AllHere(es: seq<Event>)
    requires forall i | 0 <= i < |es| :: !es[i].Elsewhere?
    ensures CallsWhereItRuns(es)
    decreases |es|
  {
    if es != [] {
      AllHere(es[..|es| - 1]);
    }
  }

  lemma {:induction false} TicksAdd(es: seq<Event>, tid: nat, lo: nat, mid: nat, hi: nat)
    requires lo <= mid <= hi
    ensures CallTicks(es, tid, lo, hi) == CallTicks(es, tid, lo, mid) + CallTicks(es, tid, mid, hi)
    decreases hi
  {
    hide InCall;
    if mid < hi {
      TicksAdd(es, tid, lo, mid, hi - 1);
    }
  }

  lemma {:induction false} TicksConstant(es: seq<Event>, tid: nat, lo: nat, hi: nat, p: seq<Event>)
    requires lo <= hi && forall t: nat | lo <= t < hi :: Upto(es, t) == p
    ensures CallTicks(es, tid, lo, hi) == if InCall(p, tid) then hi - lo else 0
    decreases hi
  {
    hide InCall, Upto;
    if lo < hi {
      TicksConstant(es, tid, lo, hi - 1, p);
    }
  }

  // --------------------------------------------------------------- two processors

  /** No thread is on both processors at the same moment. */
  ghost predicate Exclusive(ea: seq<Event>, eb: seq<Event>) {
    forall t: nat :: CurrentAt(ea, t) == CurrentAt(eb, t) ==> CurrentAt(ea, t) == 0
  }

  /** If the scheduler never runs a thread on two processors at once, the slices
      both report for it do not overlap. */
  lemma SlicesApart(c: Config, a: nat, ea: seq<Event>, i: nat, b: nat, eb: seq<Event>, j: nat)
    requires Orderly(ea) && Orderly(eb) && Exclusive(ea, eb)
    requires i < |Run(c, a, ea).out| && j < |Run(c, b, eb).out|
    requires var x, y := Run(c, a, ea).out[i], Run(c, b, eb).out[j];
      x.tid == y.tid != 0 && x.start < x.end && y.start < y.end
    ensures var x, y := Run(c, a, ea).out[i], Run(c, b, eb).out[j];
      x.end <= y.start || y.end <= x.start
  {
    SlicesOwned(c, a, ea);
    SlicesOwned(c, b, eb);
    var x, y := Run(c, a, ea).out[i], Run(c, b, eb).out[j];
    assert Owns(ea, x.tid, x.start, x.end) && Owns(eb, y.tid, y.start, y.end);
    hide Run, CurrentAt, ResumedAt, Owned;
    var t := if x.start < y.start then y.start else x.start;
    assert x.start <= t < x.end ==> Mine(ea, x.tid, x.start, t);
    assert y.start <= t < y.end ==> Mine(eb, y.tid, y.start, t);
  }
}
