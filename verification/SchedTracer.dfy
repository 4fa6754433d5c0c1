/** The scheduler tracer as it runs: handlers that update the entry of a thread
    in place, each shown to be one step of the span machine. */
module SchedTracer {
  import opened Wrappers
  import opened SchedSpans

  class Tracer {
    const config: Config
    var tasks: map<nat, Task>
    var spans: seq<Span>

    constructor (c: Config)
      ensures config == c && View() == EMPTY
    {
      config, tasks, spans := c, map[], [];
    }

    ghost function View(): State
      reads this
    {
      State(tasks, spans)
    }

    method EmitSpan(sp: Span, full: bool)
      modifies this`spans
      ensures spans == Emit(old(spans), sp, full)
    {
      if sp.start == 0 || sp.start >= sp.end {
        return;
      }
      if full {
        return;
      }
      spans := spans + [sp];
    }

    method HandleOffCpu(e: Event)
      requires e.OffCpu?
      modifies this
      ensures View() == Step(config, old(View()), e)
    {
      var tid, now := e.tid, e.now;
      if !ShouldTrack(config, tid, e.tgid) {
        return;
      }
      if tid in tasks && tasks[tid].kind == Running {
        EmitSpan(Span(e.tgid, tid, tasks[tid].stamp, now, tasks[tid].cpu, Running, 0, NoReason, 0), e.full);
      }
      if tid in tasks && tasks[tid].exiting {
        tasks := tasks - {tid};
        return;
      }
      var runnable := e.preempt || e.prevState == 0;
      var kind, reason, frame, taskState := Blocked, NoReason, e.frame, e.prevState;
      if runnable {
        kind, frame, taskState := Runnable, 0, 0;
        reason := if e.preempt then Preempted else StillRunning;
      }
      tasks := tasks[tid := Task(now, frame, e.tgid, e.cpu, kind, reason, taskState, false)];
    }

    method HandleOnCpu(e: Event)
      requires e.OnCpu?
      modifies this
      ensures View() == Step(config, old(View()), e)
    {
      var tid, now := e.tid, e.now;
      if !ShouldTrack(config, tid, e.tgid) {
        return;
      }
      if tid in tasks {
        var t := tasks[tid];
        if t.kind == Runnable {
          EmitSpan(Span(e.tgid, tid, t.stamp, now, e.cpu, Runnable, 0, t.reason, 0), e.full);
        } else if t.kind == Blocked {
          EmitSpan(Span(e.tgid, tid, t.stamp, now, t.cpu, Blocked, t.frame, NoReason, t.taskState), e.full);
        }
        t := t.(stamp := now);
        t := t.(frame := 0);
        t := t.(tgid := e.tgid);
        t := t.(cpu := e.cpu);
        t := t.(kind := Running);
        t := t.(reason := NoReason);
        t := t.(taskState := 0);
        t := t.(exiting := false);
        tasks := tasks[tid := t];
        return;
      }
      tasks := tasks[tid := Task(now, 0, e.tgid, e.cpu, Running, NoReason, 0, false)];
    }

    /** A context switch: the outgoing half, then the incoming one. */
    method HandleSwitch(prev: Option<Event>, next: Option<Event>)
      requires prev.Some? ==> prev.value.OffCpu?
      requires next.Some? ==> next.value.OnCpu?
      modifies this
      ensures View() == Run(config, old(View()), Halves(prev, next))
    {
      ghost var before := View();
      if prev.Some? {
        HandleOffCpu(prev.value);
      }
      if next.Some? {
        HandleOnCpu(next.value);
      }
      RunHalves(config, before, prev, next);
    }

    method HandleWakeup(e: Event)
      requires e.Wakeup?
      modifies this
      ensures View() == Step(config, old(View()), e)
    {
      var tid, now := e.tid, e.now;
      if !ShouldTrack(config, tid, e.tgid) {
        return;
      }
      if tid in tasks {
        var t := tasks[tid];
        if t.kind != Blocked {
          return;
        }
        EmitSpan(Span(e.tgid, tid, t.stamp, now, t.cpu, Blocked, t.frame, NoReason, t.taskState), e.full);
        t := t.(stamp := now);
        t := t.(frame := 0);
        t := t.(kind := Runnable);
        t := t.(reason := Woken);
        t := t.(taskState := 0);
        tasks := tasks[tid := t];
        return;
      }
      tasks := tasks[tid := Task(now, 0, e.tgid, e.cpu, Runnable, Woken, 0, false)];
    }

    method HandleExit(e: Event)
      requires e.Exit?
      modifies this
      ensures View() == Step(config, old(View()), e)
    {
      if !ShouldTrack(config, e.tid, e.tgid) {
        return;
      }
      if e.tid in tasks {
        tasks := tasks[e.tid := tasks[e.tid].(exiting := true)];
        return;
      }
      tasks := tasks[e.tid := Task(e.now, 0, e.tgid, e.cpu, Running, NoReason, 0, true)];
    }
  }

  function Halves(prev: Option<Event>, next: Option<Event>): seq<Event> {
    (if prev.Some? then [prev.value] else []) + (if next.Some? then [next.value] else [])
  }

  lemma RunHalves(c: Config, s: State, prev: Option<Event>, next: Option<Event>)
    ensures var s1 := if prev.Some? then Step(c, s, prev.value) else s;
      Run(c, s, Halves(prev, next)) == if next.Some? then Step(c, s1, next.value) else s1
  {
    hide Step;
    var es := Halves(prev, next);
    if prev.Some? {
      assert [prev.value][..0] == [];
      assert Run(c, s, [prev.value]) == Step(c, s, prev.value);
    }
    if next.Some? {
      assert es[..|es| - 1] == if prev.Some? then [prev.value] else [];
    } else if prev.Some? {
      assert es == [prev.value];
    }
  }
}
