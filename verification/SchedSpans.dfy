/** Scheduler tracing: per thread, the intervals spent running, runnable and
    blocked, as the kernel program reports them. */
module SchedSpans {
  import opened Wrappers

  datatype Kind = Running | Blocked | Runnable

  datatype Reason = NoReason | Preempted | StillRunning | Woken

  datatype Task = Task(stamp: nat, frame: nat, tgid: nat, cpu: nat, kind: Kind, reason: Reason,
                       taskState: nat, exiting: bool)

  datatype Span = Span(pid: nat, tid: nat, start: nat, end: nat, cpu: nat, kind: Kind, frame: nat,
                       reason: Reason, taskState: nat)

  datatype State = State(tasks: map<nat, Task>, spans: seq<Span>)

  datatype Config = Config(filtered: bool, tgids: set<nat>)

  /** The two halves of a context switch, wakeups, exits, and the map throwing
      an entry out. `full` says whether the ring buffer refuses a span. */
  datatype Event =
    | OffCpu(now: nat, tid: nat, tgid: nat, cpu: nat, preempt: bool, prevState: nat, frame: nat, full: bool)
    | OnCpu(now: nat, tid: nat, tgid: nat, cpu: nat, full: bool)
    | Wakeup(now: nat, tid: nat, tgid: nat, cpu: nat, full: bool)
    | Exit(now: nat, tid: nat, tgid: nat, cpu: nat)
    | Evict(now: nat, tid: nat)

  predicate ShouldTrack(c: Config, tid: nat, tgid: nat) {
    tid != 0 && (c.filtered ==> tgid != 0 && tgid in c.tgids)
  }

  function Emit(spans: seq<Span>, sp: Span, full: bool): seq<Span> {
    if sp.start == 0 || sp.start >= sp.end || full then spans else spans + [sp]
  }

  function RunningSpan(e: Event, t: Task): Span
    requires e.OffCpu?
  {
    Span(e.tgid, e.tid, t.stamp, e.now, t.cpu, Running, 0, NoReason, 0)
  }

  function RunnableSpan(e: Event, t: Task): Span
    requires e.OnCpu?
  {
    Span(e.tgid, e.tid, t.stamp, e.now, e.cpu, Runnable, 0, t.reason, 0)
  }

  function BlockedSpan(e: Event, t: Task): Span
    requires e.OnCpu? || e.Wakeup?
  {
    Span(e.tgid, e.tid, t.stamp, e.now, t.cpu, Blocked, t.frame, NoReason, t.taskState)
  }

  function SwitchedOut(e: Event): Task
    requires e.OffCpu?
  {
    var runnable := e.preempt || e.prevState == 0;
    Task(e.now, if runnable then 0 else e.frame, e.tgid, e.cpu, if runnable then Runnable else Blocked,
         if runnable then (if e.preempt then Preempted else StillRunning) else NoReason,
         if runnable then 0 else e.prevState, false)
  }

  function OnOffCpu(c: Config, s: State, e: Event): State
    requires e.OffCpu?
  {
    if !ShouldTrack(c, e.tid, e.tgid) then s
    else if e.tid !in s.tasks then s.(tasks := s.tasks[e.tid := SwitchedOut(e)])
    else
      var t := s.tasks[e.tid];
      State(if t.exiting then s.tasks - {e.tid} else s.tasks[e.tid := SwitchedOut(e)],
            if t.kind == Running then Emit(s.spans, RunningSpan(e, t), e.full) else s.spans)
  }

  function OnOnCpu(c: Config, s: State, e: Event): State
    requires e.OnCpu?
  {
    if !ShouldTrack(c, e.tid, e.tgid) then s
    else
      var running := s.tasks[e.tid := Task(e.now, 0, e.tgid, e.cpu, Running, NoReason, 0, false)];
      if e.tid !in s.tasks then s.(tasks := running)
      else
        var t := s.tasks[e.tid];
        State(running, match t.kind
                       case Runnable => Emit(s.spans, RunnableSpan(e, t), e.full)
                       case Blocked => Emit(s.spans, BlockedSpan(e, t), e.full)
                       case Running => s.spans)
  }

  function OnWakeup(c: Config, s: State, e: Event): State
    requires e.Wakeup?
  {
    if !ShouldTrack(c, e.tid, e.tgid) then s
    else if e.tid !in s.tasks then
      s.(tasks := s.tasks[e.tid := Task(e.now, 0, e.tgid, e.cpu, Runnable, Woken, 0, false)])
    else
      var t := s.tasks[e.tid];
      if t.kind != Blocked then s
      else State(s.tasks[e.tid := t.(stamp := e.now, frame := 0, kind := Runnable, reason := Woken, taskState := 0)],
                 Emit(s.spans, BlockedSpan(e, t), e.full))
  }

  function OnExit(c: Config, s: State, e: Event): State
    requires e.Exit?
  {
    if !ShouldTrack(c, e.tid, e.tgid) then s
    else if e.tid in s.tasks then s.(tasks := s.tasks[e.tid := s.tasks[e.tid].(exiting := true)])
    else s.(tasks := s.tasks[e.tid := Task(e.now, 0, e.tgid, e.cpu, Running, NoReason, 0, true)])
  }

  function Step(c: Config, s: State, e: Event): State {
    match e
    case OffCpu(_, _, _, _, _, _, _, _) => OnOffCpu(c, s, e)
    case OnCpu(_, _, _, _, _) => OnOnCpu(c, s, e)
    case Wakeup(_, _, _, _, _) => OnWakeup(c, s, e)
    case Exit(_, _, _, _) => OnExit(c, s, e)
    case Evict(_, tid) => s.(tasks := s.tasks - {tid})
  }

  function Run(c: Config, s: State, es: seq<Event>): State {
    if es == [] then s else Step(c, Run(c, s, es[..|es| - 1]), es[|es| - 1])
  }

  const EMPTY: State := State(map[], [])

  predicate Orderly(es: seq<Event>) {
    && (forall i | 0 <= i < |es| :: 0 < es[i].now)
    && (forall i, j | 0 <= i < j < |es| :: es[i].now <= es[j].now)
  }

  function LastTime(es: seq<Event>): nat {
    if es == [] then 0 else es[|es| - 1].now
  }

  lemma OrderlyPrefix(es: seq<Event>, n: nat)
    requires Orderly(es) && n <= |es|
    ensures Orderly(es[..n]) && LastTime(es[..n]) <= LastTime(es)
  {
  }

  // --------------------------------------------------------- what one step does

  /** What one event does to one thread: the span it closes, if any. */
  predicate Touches(c: Config, e: Event, tid: nat) {
    e.tid == tid && (e.Evict? || ShouldTrack(c, tid, e.tgid))
  }

  /** The kind of span an event closes for a tracked thread. */
  function Closes(e: Event, t: Task): Option<Kind> {
    match e
    case OffCpu(_, _, _, _, _, _, _, _) => if t.kind == Running then Some(Running) else None
    case OnCpu(_, _, _, _, _) => if t.kind != Running then Some(t.kind) else None
    case Wakeup(_, _, _, _, _) => if t.kind == Blocked then Some(Blocked) else None
    case Exit(_, _, _, _) => None
    case Evict(_, _) => None
  }

  predicate IsFull(e: Event) {
    match e
    case OffCpu(_, _, _, _, _, _, _, full) => full
    case OnCpu(_, _, _, _, full) => full
    case Wakeup(_, _, _, _, full) => full
    case Exit(_, _, _, _) => false
    case Evict(_, _) => false
  }

  /** One step in terms of the thread it concerns: which span it appends, and
      that it restarts the clock of the thread whenever it changes its state. */
  ghost predicate StepShape(c: Config, s: State, e: Event, r: State) {
    && (forall k | k != e.tid :: (k in r.tasks <==> k in s.tasks) && (k in s.tasks ==> r.tasks[k] == s.tasks[k]))
    && (if Touches(c, e, e.tid) && e.tid in s.tasks && Closes(e, s.tasks[e.tid]).Some?
           && 0 < s.tasks[e.tid].stamp < e.now && !IsFull(e)
        then
          && |r.spans| == |s.spans| + 1 && r.spans[..|s.spans|] == s.spans
          && var sp := r.spans[|s.spans|];
          && sp.tid == e.tid && sp.start == s.tasks[e.tid].stamp && sp.end == e.now
          && sp.kind == s.tasks[e.tid].kind
        else r.spans == s.spans)
    && (e.tid in r.tasks && r.tasks[e.tid].stamp != e.now ==>
          && e.tid in s.tasks && r.tasks[e.tid].stamp == s.tasks[e.tid].stamp
          && r.tasks[e.tid].kind == s.tasks[e.tid].kind
          && (!Touches(c, e, e.tid) || Closes(e, s.tasks[e.tid]).None?))
  }

  lemma StepHasShape(c: Config, s: State, e: Event)
    ensures StepShape(c, s, e, Step(c, s, e))
  {
  }

  // ------------------------------------------------------ ordered, never overlapping

  predicate Ordered(spans: seq<Span>) {
    && (forall i | 0 <= i < |spans| :: 0 < spans[i].start < spans[i].end)
    && (forall i, j | 0 <= i < j < |spans| && spans[i].tid == spans[j].tid :: spans[i].end <= spans[j].start)
  }

  /** Spans lie in the past, and those of a tracked thread before its entry. */
  predicate Behind(s: State, now: nat) {
    && (forall k | k in s.tasks :: s.tasks[k].stamp <= now)
    && (forall i | 0 <= i < |s.spans| :: s.spans[i].end <= now)
    && (forall i | 0 <= i < |s.spans| && s.spans[i].tid in s.tasks :: s.spans[i].end <= s.tasks[s.spans[i].tid].stamp)
  }

  lemma StepOrdered(c: Config, s: State, e: Event, before: nat)
    requires Ordered(s.spans) && Behind(s, before) && before <= e.now
    ensures Ordered(Step(c, s, e).spans) && Behind(Step(c, s, e), e.now)
  {
    hide Step;
    StepHasShape(c, s, e);
    ShapeOrdered(c, s, e, Step(c, s, e), before);
    ShapeBehind(c, s, e, Step(c, s, e), before);
  }

  lemma ShapeOrdered(c: Config, s: State, e: Event, r: State, before: nat)
    requires Ordered(s.spans) && Behind(s, before) && before <= e.now && StepShape(c, s, e, r)
    ensures Ordered(r.spans)
  {
    if r.spans != s.spans {
      var sp := r.spans[|s.spans|];
      assert r.spans == s.spans + [sp];
    }
  }

  lemma ShapeBehind(c: Config, s: State, e: Event, r: State, before: nat)
    requires Behind(s, before) && before <= e.now && StepShape(c, s, e, r)
    ensures Behind(r, e.now)
  {
    if r.spans != s.spans {
      var sp := r.spans[|s.spans|];
      assert r.spans == s.spans + [sp];
    }
  }

  /** For every sequence of events in time order, whatever is evicted or dropped,
      a thread's spans have positive length, come out in order and never
      overlap. */
  lemma {:induction false} SpansOrdered(c: Config, es: seq<Event>)
    requires Orderly(es)
    ensures Ordered(Run(c, EMPTY, es).spans) && Behind(Run(c, EMPTY, es), LastTime(es))
    decreases |es|
  {
    hide Step;
    if es != [] {
      OrderlyPrefix(es, |es| - 1);
      SpansOrdered(c, es[..|es| - 1]);
      StepOrdered(c, Run(c, EMPTY, es[..|es| - 1]), es[|es| - 1], LastTime(es[..|es| - 1]));
    }
  }

  // ------------------------------------------------------- which threads have entries

  datatype Listed = Absent | Present(exiting: bool)

  /** Whether a thread has an entry, by its own events: any of them makes one, and
      the first switch-out after an exit, or an eviction, removes it. */
  function ListedBy(c: Config, es: seq<Event>, tid: nat): Listed {
    if es == [] then Absent
    else
      var before, e := ListedBy(c, es[..|es| - 1], tid), es[|es| - 1];
      if !Touches(c, e, tid) then before
      else
        match e
        case OffCpu(_, _, _, _, _, _, _, _) => if before == Present(true) then Absent else Present(false)
        case OnCpu(_, _, _, _, _) => Present(false)
        case Wakeup(_, _, _, _, _) => if before.Absent? then Present(false) else before
        case Exit(_, _, _, _) => Present(true)
        case Evict(_, _) => Absent
  }

  /** After every run exactly those threads have entries; in particular that of a
      thread which exits is gone after its last switch-out. */
  lemma {:induction false} EntriesExactly(c: Config, es: seq<Event>, tid: nat)
    ensures var s, l := Run(c, EMPTY, es), ListedBy(c, es, tid);
      (tid in s.tasks <==> l.Present?) && (tid in s.tasks ==> s.tasks[tid].exiting == l.exiting)
    decreases |es|
  {
    hide Emit;
    if es != [] {
      EntriesExactly(c, es[..|es| - 1], tid);
    }
  }

  // --------------------------------------------------------- what a span carries

  /** The event gave the entry the state it is in. */
  predicate Opens(o: Event, t: Task) {
    match o
    case OffCpu(now, _, _, cpu, preempt, prevState, frame, _) =>
      && t.stamp == now
      && (if preempt || prevState == 0
          then t.kind == Runnable && t.reason == if preempt then Preempted else StillRunning
          else t.kind == Blocked && t.cpu == cpu && t.frame == frame && t.taskState == prevState)
    case OnCpu(now, _, _, cpu, _) => t.kind == Running && t.stamp == now && t.cpu == cpu
    case Wakeup(now, _, _, _, _) => t.kind == Runnable && t.stamp == now && t.reason == Woken
    case Exit(now, _, _, cpu) => t.kind == Running && t.stamp == now && t.cpu == cpu
    case Evict(_, _) => false
  }

  /** The span between an event and the one that ends the state it began: how long
      and where the thread ran, how long and why it could have run, or how long
      and at which frame and in which state it was blocked. */
  predicate Explains(o: Event, e: Event, sp: Span) {
    && o.tid == e.tid
    && match o
       case OffCpu(_, tid, _, cpu, preempt, prevState, frame, _) =>
         if preempt then e.OnCpu? && sp == Span(e.tgid, tid, o.now, e.now, e.cpu, Runnable, 0, Preempted, 0)
         else if prevState == 0
         then e.OnCpu? && sp == Span(e.tgid, tid, o.now, e.now, e.cpu, Runnable, 0, StillRunning, 0)
         else (e.OnCpu? || e.Wakeup?)
              && sp == Span(e.tgid, tid, o.now, e.now, cpu, Blocked, frame, NoReason, prevState)
       case OnCpu(_, tid, _, cpu, _) =>
         e.OffCpu? && sp == Span(e.tgid, tid, o.now, e.now, cpu, Running, 0, NoReason, 0)
       case Wakeup(_, tid, _, _, _) =>
         e.OnCpu? && sp == Span(e.tgid, tid, o.now, e.now, e.cpu, Runnable, 0, Woken, 0)
       case Exit(_, tid, _, cpu) =>
         e.OffCpu? && sp == Span(e.tgid, tid, o.now, e.now, cpu, Running, 0, NoReason, 0)
       case Evict(_, _) => false
  }

  predicate OpenedAt(es: seq<Event>, tid: nat, t: Task, a: nat) {
    a < |es| && es[a].tid == tid && Opens(es[a], t)
  }

  predicate ExplainedBy(es: seq<Event>, sp: Span, a: nat, b: nat) {
    a < b < |es| && Explains(es[a], es[b], sp)
  }

  ghost predicate Opened(es: seq<Event>, tid: nat, t: Task) {
    exists a :: OpenedAt(es, tid, t, a)
  }

  ghost predicate Explained(es: seq<Event>, sp: Span) {
    exists a, b :: ExplainedBy(es, sp, a, b)
  }

  ghost predicate AllExplained(es: seq<Event>, s: State) {
    && (forall tid | tid in s.tasks :: Opened(es, tid, s.tasks[tid]))
    && (forall i | 0 <= i < |s.spans| :: Explained(es, s.spans[i]))
  }

  /** The event that gave the entry its state after one more event. */
  lemma OpenedNext(c: Config, s: State, e: Event, o: Event)
    requires e.tid in s.tasks ==> o.tid == e.tid && Opens(o, s.tasks[e.tid])
    ensures var r := Step(c, s, e);
      e.tid in r.tasks ==> Opens(e, r.tasks[e.tid]) || (e.tid in s.tasks && Opens(o, r.tasks[e.tid]))
    ensures var r := Step(c, s, e);
      r.spans == s.spans || (e.tid in s.tasks && |r.spans| == |s.spans| + 1 && r.spans[..|s.spans|] == s.spans
                             && Explains(o, e, r.spans[|s.spans|]))
  {
  }

  lemma StepExplained(c: Config, s: State, es: seq<Event>)
    requires es != [] && AllExplained(es[..|es| - 1], s)
    ensures AllExplained(es, Step(c, s, es[|es| - 1]))
  {
    var init, e := es[..|es| - 1], es[|es| - 1];
    var r := Step(c, s, e);
    StepHasShape(c, s, e);
    hide Step, Opens, Explains, Touches, Closes, IsFull;
    var a := if e.tid in s.tasks then Opener(init, e.tid, s.tasks[e.tid]) else 0;
    OpenedNext(c, s, e, es[a]);
    forall tid | tid in r.tasks ensures Opened(es, tid, r.tasks[tid]) {
      if tid != e.tid {
        var b := Opener(init, tid, s.tasks[tid]);
        assert OpenedAt(es, tid, r.tasks[tid], b);
      } else if Opens(e, r.tasks[tid]) {
        assert OpenedAt(es, tid, r.tasks[tid], |es| - 1);
      } else {
        assert OpenedAt(es, tid, r.tasks[tid], a);
      }
    }
    forall i | 0 <= i < |r.spans| ensures Explained(es, r.spans[i]) {
      if i < |s.spans| {
        assert Explained(init, s.spans[i]);
        var x, y :| ExplainedBy(init, s.spans[i], x, y);
        assert r.spans[i] == s.spans[i] && ExplainedBy(es, r.spans[i], x, y);
      } else {
        assert ExplainedBy(es, r.spans[i], a, |es| - 1);
      }
    }
  }

  ghost function Opener(es: seq<Event>, tid: nat, t: Task): (a: nat)
    requires Opened(es, tid, t)
    ensures OpenedAt(es, tid, t, a)
  {
    var a :| OpenedAt(es, tid, t, a);
    a
  }

  /** Every span of every run is the time between two events of its thread, and
      carries what those two said: processor, reason, frame and state. */
  lemma {:induction false} SpansExplained(c: Config, es: seq<Event>)
    ensures AllExplained(es, Run(c, EMPTY, es))
    decreases |es|
  {
    hide Step;
    if es != [] {
      SpansExplained(c, es[..|es| - 1]);
      StepExplained(c, Run(c, EMPTY, es[..|es| - 1]), es);
    }
  }

  // ------------------------------------------------- spans say what was going on

  /** The tracer's view of a thread at time `t`: after every event up to `t`. */
  function KindAt(c: Config, es: seq<Event>, tid: nat, t: nat): Option<Kind> {
    if es == [] || LastTime(es) <= t then
      var s := Run(c, EMPTY, es);
      if tid in s.tasks then Some(s.tasks[tid].kind) else None
    else KindAt(c, es[..|es| - 1], tid, t)
  }

  ghost predicate FollowsTable(c: Config, es: seq<Event>, s: State, tid: nat) {
    && (tid in s.tasks ==> forall t | s.tasks[tid].stamp <= t :: KindAt(c, es, tid, t) == Some(s.tasks[tid].kind))
    && (forall i, t | 0 <= i < |s.spans| && s.spans[i].tid == tid && s.spans[i].start <= t < s.spans[i].end ::
          KindAt(c, es, tid, t) == Some(s.spans[i].kind))
  }

  /** At every moment inside a span the tracer had the thread in the state the
      span names. */
  lemma {:induction false} SpansFollowTable(c: Config, es: seq<Event>, tid: nat)
    requires Orderly(es)
    ensures FollowsTable(c, es, Run(c, EMPTY, es), tid)
    decreases |es|
  {
    hide Step, Ordered, Behind;
    if es != [] {
      var init, e := es[..|es| - 1], es[|es| - 1];
      OrderlyPrefix(es, |es| - 1);
      SpansFollowTable(c, init, tid);
      SpansOrdered(c, init);
      FollowsStep(c, es, tid);
    }
  }

  lemma FollowsStep(c: Config, es: seq<Event>, tid: nat)
    requires es != [] && Orderly(es) && FollowsTable(c, es[..|es| - 1], Run(c, EMPTY, es[..|es| - 1]), tid)
    requires Behind(Run(c, EMPTY, es[..|es| - 1]), LastTime(es[..|es| - 1]))
    ensures FollowsTable(c, es, Run(c, EMPTY, es), tid)
  {
    var init, e := es[..|es| - 1], es[|es| - 1];
    var s, r := Run(c, EMPTY, init), Run(c, EMPTY, es);
    StepHasShape(c, s, e);
    OrderlyPrefix(es, |es| - 1);
    forall t: nat ensures t < e.now ==> KindAt(c, es, tid, t) == KindAt(c, init, tid, t) {
      KindAtStep(c, es, tid, t);
    }
    forall t: nat ensures e.now <= t && tid in r.tasks ==> KindAt(c, es, tid, t) == Some(r.tasks[tid].kind) {
      KindAtStep(c, es, tid, t);
    }
    hide Step, KindAt, Run, Orderly;
    forall i, t | 0 <= i < |r.spans| && r.spans[i].tid == tid && r.spans[i].start <= t < r.spans[i].end
      ensures KindAt(c, es, tid, t) == Some(r.spans[i].kind)
    {
      if i < |s.spans| {
        assert r.spans[i] == s.spans[i];
      }
    }
  }

  lemma KindAtStep(c: Config, es: seq<Event>, tid: nat, t: nat)
    requires es != []
    ensures var r := Run(c, EMPTY, es);
      KindAt(c, es, tid, t) ==
        if t < LastTime(es) then KindAt(c, es[..|es| - 1], tid, t)
        else if tid in r.tasks then Some(r.tasks[tid].kind) else None
  {
  }

  // -------------------------------------------- the thread's own switches and wakeups

  /** What one event says about a thread: a switch-in makes it running; a
      switch-out runnable or blocked; a wakeup makes a blocked thread runnable. */
  function Told(c: Config, before: Kind, e: Event, tid: nat): Kind {
    if !Touches(c, e, tid) then before
    else
      match e
      case OffCpu(_, _, _, _, preempt, prevState, _, _) => if preempt || prevState == 0 then Runnable else Blocked
      case OnCpu(_, _, _, _, _) => Running
      case Wakeup(_, _, _, _, _) => if before == Blocked then Runnable else before
      case Exit(_, _, _, _) => before
      case Evict(_, _) => before
  }

  /** The state of a thread by its own events, whether or not the tracer has an
      entry for it; `first` is its state when tracing starts, which the tracer
      does not know. */
  function Truth(c: Config, first: Kind, es: seq<Event>, tid: nat): Kind {
    if es == [] then first else Told(c, Truth(c, first, es[..|es| - 1], tid), es[|es| - 1], tid)
  }

  function TruthAt(c: Config, first: Kind, es: seq<Event>, tid: nat, t: nat): Kind {
    if es == [] || LastTime(es) <= t then Truth(c, first, es, tid)
    else TruthAt(c, first, es[..|es| - 1], tid, t)
  }

  /** The tracer, having no entry, takes a thread that runs for one that has just
      been woken, or one that is off the processor for a running one. */
  predicate Misled(c: Config, s: State, truth: Kind, e: Event, tid: nat) {
    && Touches(c, e, tid) && tid !in s.tasks
    && ((e.Wakeup? && truth == Running) || (e.Exit? && truth != Running))
  }

  predicate Agrees(s: State, tid: nat, truth: Kind) {
    tid in s.tasks ==> truth == s.tasks[tid].kind
  }

  lemma StepAgrees(c: Config, s: State, truth: Kind, e: Event, tid: nat)
    requires Agrees(s, tid, truth)
    ensures Agrees(Step(c, s, e), tid, Told(c, truth, e, tid)) <==> !Misled(c, s, truth, e, tid)
  {
    hide Emit;
    match e {
      case OffCpu(_, _, _, _, _, _, _, _) =>
      case OnCpu(_, _, _, _, _) =>
      case Wakeup(_, _, _, _, _) =>
        match truth {
          case Running =>
          case Blocked =>
          case Runnable =>
        }
      case Exit(_, _, _, _) =>
      case Evict(_, _) =>
    }
  }

  predicate NeverMisled(c: Config, first: Kind, es: seq<Event>, tid: nat) {
    es == [] ||
    (var init := es[..|es| - 1];
     NeverMisled(c, first, init, tid) && !Misled(c, Run(c, EMPTY, init), Truth(c, first, init, tid), es[|es| - 1], tid))
  }

  predicate AlwaysAgrees(c: Config, first: Kind, es: seq<Event>, tid: nat) {
    && (es == [] || AlwaysAgrees(c, first, es[..|es| - 1], tid))
    && Agrees(Run(c, EMPTY, es), tid, Truth(c, first, es, tid))
  }

  /** The tracer's table tells the true state of a thread after every event of a
      run, with any evictions, if and only if no event of the run misleads it. */
  lemma {:induction false} TableTrueIff(c: Config, first: Kind, es: seq<Event>, tid: nat)
    ensures AlwaysAgrees(c, first, es, tid) <==> NeverMisled(c, first, es, tid)
    decreases |es|
  {
    hide Step, Told, Misled;
    if es != [] {
      TableTrueIff(c, first, es[..|es| - 1], tid);
      if AlwaysAgrees(c, first, es[..|es| - 1], tid) {
        LastAgrees(c, first, es[..|es| - 1], tid);
        StepAgrees(c, Run(c, EMPTY, es[..|es| - 1]), Truth(c, first, es[..|es| - 1], tid), es[|es| - 1], tid);
      }
    }
  }

  lemma LastAgrees(c: Config, first: Kind, es: seq<Event>, tid: nat)
    requires AlwaysAgrees(c, first, es, tid)
    ensures Agrees(Run(c, EMPTY, es), tid, Truth(c, first, es, tid))
  {
  }

  // -------------------------------------------------- spans say what really was

  /** The scheduler puts a thread on a processor only when it is not on one, and
      takes it off, or ends it, only when it is. */
  predicate Real(c: Config, truth: Kind, e: Event, tid: nat) {
    Touches(c, e, tid) ==>
      && (e.OnCpu? ==> truth != Running)
      && (e.OffCpu? || e.Exit? ==> truth == Running)
  }

  predicate Alternates(c: Config, first: Kind, es: seq<Event>, tid: nat) {
    es == [] ||
    (var init := es[..|es| - 1];
     Alternates(c, first, init, tid) && Real(c, Truth(c, first, init, tid), es[|es| - 1], tid))
  }

  /** The entry is right, or takes a thread that runs for a runnable one. */
  predicate NearlyTrue(s: State, tid: nat, truth: Kind) {
    Agrees(s, tid, truth) || (s.tasks[tid].kind == Runnable && truth == Running)
  }

  lemma StepNearlyTrue(c: Config, s: State, truth: Kind, e: Event, tid: nat)
    requires NearlyTrue(s, tid, truth) && Real(c, truth, e, tid)
    ensures NearlyTrue(Step(c, s, e), tid, Told(c, truth, e, tid))
  {
    hide Emit;
    if Agrees(s, tid, truth) {
      StepAgrees(c, s, truth, e, tid);
      if Misled(c, s, truth, e, tid) {
        assert e.Wakeup? && truth == Running;
        assert Step(c, s, e).tasks[tid].kind == Runnable;
      }
    }
  }

  /** An entry that is wrong closes no span. */
  lemma WrongIsSilent(c: Config, s: State, truth: Kind, e: Event, tid: nat)
    requires NearlyTrue(s, tid, truth) && Real(c, truth, e, tid) && !Agrees(s, tid, truth) && e.tid == tid
    ensures Step(c, s, e).spans == s.spans
    ensures e.OffCpu? && Touches(c, e, tid) ==> Agrees(Step(c, s, e), tid, Told(c, truth, e, tid))
  {
  }

  /** An entry that was wrong does not become right without a new stamp. */
  lemma RightSince(c: Config, s: State, truth: Kind, e: Event, tid: nat)
    requires NearlyTrue(s, tid, truth) && Real(c, truth, e, tid)
    requires var r := Step(c, s, e);
      tid in r.tasks && r.tasks[tid].stamp != e.now && Agrees(r, tid, Told(c, truth, e, tid))
    ensures tid in s.tasks && Agrees(s, tid, truth) && Step(c, s, e).tasks[tid].stamp == s.tasks[tid].stamp
    ensures Step(c, s, e).tasks[tid].kind == s.tasks[tid].kind
  {
    hide Emit;
  }

  ghost predicate TellsTruth(c: Config, first: Kind, es: seq<Event>, s: State, tid: nat) {
    && NearlyTrue(s, tid, Truth(c, first, es, tid))
    && (tid in s.tasks && Agrees(s, tid, Truth(c, first, es, tid)) ==>
          forall t | s.tasks[tid].stamp <= t :: TruthAt(c, first, es, tid, t) == s.tasks[tid].kind)
    && (forall i, t | 0 <= i < |s.spans| && s.spans[i].tid == tid && s.spans[i].start <= t < s.spans[i].end ::
          TruthAt(c, first, es, tid, t) == s.spans[i].kind)
  }

  lemma TruthAtStep(c: Config, first: Kind, es: seq<Event>, tid: nat, t: nat)
    requires es != []
    ensures TruthAt(c, first, es, tid, t)
         == if t < LastTime(es) then TruthAt(c, first, es[..|es| - 1], tid, t) else Truth(c, first, es, tid)
  {
  }

  lemma EntryTells(c: Config, first: Kind, es: seq<Event>, tid: nat)
    requires es != [] && Orderly(es) && Alternates(c, first, es, tid)
    requires TellsTruth(c, first, es[..|es| - 1], Run(c, EMPTY, es[..|es| - 1]), tid)
    ensures var r := Run(c, EMPTY, es);
      tid in r.tasks && Agrees(r, tid, Truth(c, first, es, tid)) ==>
        forall t | r.tasks[tid].stamp <= t :: TruthAt(c, first, es, tid, t) == r.tasks[tid].kind
  {
    var init, e := es[..|es| - 1], es[|es| - 1];
    var s, r := Run(c, EMPTY, init), Run(c, EMPTY, es);
    hide Step, Told, Real;
    if tid in r.tasks && Agrees(r, tid, Truth(c, first, es, tid)) {
      if r.tasks[tid].stamp != e.now {
        RightSince(c, s, Truth(c, first, init, tid), e, tid);
      }
      forall t | r.tasks[tid].stamp <= t ensures TruthAt(c, first, es, tid, t) == r.tasks[tid].kind {
        TruthAtStep(c, first, es, tid, t);
      }
    }
  }

  lemma SpansTell(c: Config, first: Kind, es: seq<Event>, tid: nat, i: nat, t: nat)
    requires es != [] && Orderly(es) && Alternates(c, first, es, tid)
    requires TellsTruth(c, first, es[..|es| - 1], Run(c, EMPTY, es[..|es| - 1]), tid)
    requires Behind(Run(c, EMPTY, es[..|es| - 1]), LastTime(es[..|es| - 1]))
    requires i < |Run(c, EMPTY, es).spans|
    requires var sp := Run(c, EMPTY, es).spans[i]; sp.tid == tid && sp.start <= t < sp.end
    ensures TruthAt(c, first, es, tid, t) == Run(c, EMPTY, es).spans[i].kind
  {
    var init, e := es[..|es| - 1], es[|es| - 1];
    var s, r := Run(c, EMPTY, init), Run(c, EMPTY, es);
    StepHasShape(c, s, e);
    OrderlyPrefix(es, |es| - 1);
    TruthAtStep(c, first, es, tid, t);
    hide Step, Told, Real, Closes, TruthAt, Truth;
    if i < |s.spans| {
      assert r.spans[i] == s.spans[i];
    } else if !Agrees(s, tid, Truth(c, first, init, tid)) {
      WrongIsSilent(c, s, Truth(c, first, init, tid), e, tid);
    }
  }

  lemma {:induction false} TruthKept(c: Config, first: Kind, es: seq<Event>, tid: nat)
    requires Orderly(es) && Alternates(c, first, es, tid)
    ensures TellsTruth(c, first, es, Run(c, EMPTY, es), tid)
    decreases |es|
  {
    hide Step, Told, Real, Ordered, Behind, TruthAt;
    if es != [] {
      var init, e := es[..|es| - 1], es[|es| - 1];
      OrderlyPrefix(es, |es| - 1);
      TruthKept(c, first, init, tid);
      SpansOrdered(c, init);
      StepNearlyTrue(c, Run(c, EMPTY, init), Truth(c, first, init, tid), e, tid);
      EntryTells(c, first, es, tid);
      var spans := Run(c, EMPTY, es).spans;
      forall i, t | 0 <= i < |spans| && spans[i].tid == tid && spans[i].start <= t < spans[i].end
        ensures TruthAt(c, first, es, tid, t) == spans[i].kind
      {
        SpansTell(c, first, es, tid, i, t);
      }
    }
  }

  /** At every moment inside a span the thread was in the state the span names, by
      its own switches and wakeups, whatever it did when tracing started and
      whatever is evicted or dropped. */
  lemma SpansTruthful(c: Config, first: Kind, es: seq<Event>, tid: nat, i: nat, t: nat)
    requires Orderly(es) && Alternates(c, first, es, tid) && i < |Run(c, EMPTY, es).spans|
    requires var sp := Run(c, EMPTY, es).spans[i]; sp.tid == tid && sp.start <= t < sp.end
    ensures TruthAt(c, first, es, tid, t) == Run(c, EMPTY, es).spans[i].kind
  {
    hide Run, TruthAt, Alternates;
    TruthKept(c, first, es, tid);
  }

  /** A thread exits while it runs. */
  predicate ExitsRunning(c: Config, first: Kind, es: seq<Event>, tid: nat) {
    es == [] ||
    (var init, e := es[..|es| - 1], es[|es| - 1];
     && ExitsRunning(c, first, init, tid)
     && (e.Exit? && Touches(c, e, tid) ==> Truth(c, first, init, tid) == Running))
  }

  /** A run in which the tracer is misled: the entry of a running thread is
      thrown out at 15 and a wakeup at 20 makes a new one that calls it runnable.
      When it is switched out at 30 nothing is reported: the time it ran since 10
      is lost, and the table is right again. */
  lemma MisledExample()
    ensures var c, off, first := Config(false, {}), OffCpu(30, 7, 7, 0, true, 0, 0, false), Runnable;
      var es := [OnCpu(10, 7, 7, 0, false), Evict(15, 7), Wakeup(20, 7, 7, 0, false)];
      var s, r := Run(c, EMPTY, es), Run(c, EMPTY, es + [off]);
      && Orderly(es + [off]) && Alternates(c, first, es + [off], 7)
      && 7 in s.tasks && s.tasks[7].kind == Runnable && Truth(c, first, es, 7) == Running
      && r.spans == [] && Agrees(r, 7, Truth(c, first, es + [off], 7))
  {
    var c, first, e1 := Config(false, {}), Runnable, [OnCpu(10, 7, 7, 0, false)];
    var e2 := e1 + [Evict(15, 7)];
    var e3 := e2 + [Wakeup(20, 7, 7, 0, false)];
    var es := e3 + [OffCpu(30, 7, 7, 0, true, 0, 0, false)];
    assert e3 == [OnCpu(10, 7, 7, 0, false), Evict(15, 7), Wakeup(20, 7, 7, 0, false)];
    assert e1[..0] == [] && e2[..1] == e1 && e3[..2] == e2 && es[..3] == e3;
    assert Truth(c, first, e1, 7) == Truth(c, first, e2, 7) == Truth(c, first, e3, 7) == Running;
    assert Alternates(c, first, e1, 7) && Alternates(c, first, e2, 7) && Alternates(c, first, e3, 7);
    assert 7 !in Run(c, EMPTY, e2).tasks && Run(c, EMPTY, e2).spans == [];
    assert Run(c, EMPTY, e3).tasks[7] == Task(20, 0, 7, 0, Runnable, Woken, 0, false);
  }

  predicate Untouched(c: Config, es: seq<Event>, tid: nat) {
    es == [] || (Untouched(c, es[..|es| - 1], tid) && !Touches(c, es[|es| - 1], tid))
  }

  lemma {:induction false} UntouchedUnknown(c: Config, first: Kind, es: seq<Event>, tid: nat)
    requires Untouched(c, es, tid)
    ensures tid !in Run(c, EMPTY, es).tasks && Truth(c, first, es, tid) == first
    decreases |es|
  {
    hide Emit;
    if es != [] {
      UntouchedUnknown(c, first, es[..|es| - 1], tid);
    }
  }

  /** The thread runs when tracing starts, and a wakeup is the first the tracer
      hears of it. */
  predicate MetAwake(c: Config, first: Kind, es: seq<Event>, tid: nat) {
    es != [] &&
    (var init, e := es[..|es| - 1], es[|es| - 1];
     MetAwake(c, first, init, tid) || (first == Running && e.Wakeup? && Touches(c, e, tid) && Untouched(c, init, tid)))
  }

  /** About a thread whose entry is not evicted the tracer is misled if and only
      if it met it like that. */
  lemma {:induction false} UnevictedMisledIff(c: Config, first: Kind, es: seq<Event>, tid: nat)
    requires ExitsRunning(c, first, es, tid) && forall i | 0 <= i < |es| && es[i].tid == tid :: !es[i].Evict?
    ensures NeverMisled(c, first, es, tid) <==> !MetAwake(c, first, es, tid)
    ensures NeverMisled(c, first, es, tid) && tid !in Run(c, EMPTY, es).tasks ==>
      Truth(c, first, es, tid) != Running || Untouched(c, es, tid)
    decreases |es|
  {
    hide Emit;
    if es != [] {
      var init := es[..|es| - 1];
      UnevictedMisledIff(c, first, init, tid);
      if Untouched(c, init, tid) {
        UntouchedUnknown(c, first, init, tid);
      }
    }
  }

  // ------------------------------------------------------------------- tiling

  function Mine(spans: seq<Span>, tid: nat): seq<Span> {
    if spans == [] then []
    else
      var init, sp := Mine(spans[..|spans| - 1], tid), spans[|spans| - 1];
      if sp.tid == tid then init + [sp] else init
  }

  /** The spans cover `from` to `to` without gap or overlap. */
  predicate Tiles(spans: seq<Span>, from: nat, to: nat) {
    if spans == [] then from == to
    else
      var sp := spans[|spans| - 1];
      sp.start < sp.end && sp.end == to && Tiles(spans[..|spans| - 1], from, sp.start)
  }

  function Covered(spans: seq<Span>): int {
    if spans == [] then 0
    else Covered(spans[..|spans| - 1]) + spans[|spans| - 1].end - spans[|spans| - 1].start
  }

  /** A switch-out of a thread not known to run, or a switch-in of one that is:
      the time since its last transition is in no span. */
  predicate Disordered(c: Config, s: State, e: Event, tid: nat) {
    && Touches(c, e, tid) && tid in s.tasks
    && ((e.OffCpu? && s.tasks[tid].kind != Running) || (e.OnCpu? && s.tasks[tid].kind == Running))
  }

  function Lost(c: Config, s: State, es: seq<Event>, tid: nat): int {
    if es == [] then 0
    else
      var p, e := Run(c, s, es[..|es| - 1]), es[|es| - 1];
      Lost(c, s, es[..|es| - 1], tid) + if Disordered(c, p, e, tid) then e.now - p.tasks[tid].stamp else 0
  }

  /** The time of the thread's last transition, or of its removal. */
  function EndOf(s: State, tid: nat, now: nat): nat {
    if tid in s.tasks then s.tasks[tid].stamp else now
  }

  /** From a state that tracks `tid`, one lifetime: it stays tracked up to the
      last event, is not evicted, and none of its spans is refused. */
  predicate Lifetime(c: Config, s: State, es: seq<Event>, tid: nat) {
    && Orderly(es)
    && (forall i | 0 <= i < |es| :: tid in Run(c, s, es[..i]).tasks)
    && (forall i | 0 <= i < |es| && es[i].tid == tid :: !es[i].Evict? && !IsFull(es[i]))
  }

  lemma LifetimePrefix(c: Config, s: State, es: seq<Event>, tid: nat)
    requires Lifetime(c, s, es, tid) && es != []
    ensures Lifetime(c, s, es[..|es| - 1], tid) && tid in Run(c, s, es[..|es| - 1]).tasks
  {
    hide Run;
    var init := es[..|es| - 1];
    OrderlyPrefix(es, |es| - 1);
    forall i | 0 <= i < |init| ensures tid in Run(c, s, init[..i]).tasks {
      assert init[..i] == es[..i];
    }
  }

  lemma LostZero(c: Config, s: State, e: Event, tid: nat, before: nat)
    requires tid in s.tasks && s.tasks[tid].stamp <= before <= e.now && 0 < s.tasks[tid].stamp
    requires !(e.tid == tid && (e.Evict? || IsFull(e)))
    ensures var r := Step(c, s, e);
      var a, b := s.tasks[tid].stamp, EndOf(r, tid, e.now);
      && a <= b <= e.now && (tid in r.tasks ==> 0 < b)
      && (if Disordered(c, s, e, tid) then b == e.now && Mine(r.spans, tid) == Mine(s.spans, tid)
          else if a == b then Mine(r.spans, tid) == Mine(s.spans, tid)
          else
            && |r.spans| > 0 && Mine(r.spans, tid) == Mine(s.spans, tid) + [r.spans[|r.spans| - 1]]
            && r.spans[|r.spans| - 1].start == a && r.spans[|r.spans| - 1].end == b)
  {
    var r := Step(c, s, e);
    if |r.spans| > |s.spans| {
      assert r.spans[..|s.spans|] == s.spans;
    }
  }

  /** The thread's spans of a lifetime. */
  function During(c: Config, s: State, es: seq<Event>, tid: nat): seq<Span> {
    var all := Mine(Run(c, s, es).spans, tid);
    var before := Mine(s.spans, tid);
    if |before| <= |all| then all[|before|..] else []
  }

  /** Over one lifetime the spans and the lost time account for every moment
      from the first transition to the last, and the spans tile it exactly when
      nothing is lost. */
  lemma {:induction false} LifetimeAccounted(c: Config, s: State, es: seq<Event>, tid: nat)
    requires tid in s.tasks && Lifetime(c, s, es, tid) && 0 < s.tasks[tid].stamp
    requires es != [] ==> s.tasks[tid].stamp <= es[0].now
    ensures var r, from := Run(c, s, es), s.tasks[tid].stamp;
      var to := EndOf(r, tid, LastTime(es));
      && from <= to && (es != [] ==> to <= LastTime(es)) && (tid in r.tasks ==> 0 < to)
      && Mine(r.spans, tid) == Mine(s.spans, tid) + During(c, s, es, tid)
      && 0 <= Lost(c, s, es, tid)
      && Covered(During(c, s, es, tid)) + Lost(c, s, es, tid) == to - from
      && (Lost(c, s, es, tid) == 0 ==> Tiles(During(c, s, es, tid), from, to))
    decreases |es|
  {
    var from := s.tasks[tid].stamp;
    if es == [] {
      assert Mine(s.spans, tid) == Mine(s.spans, tid) + During(c, s, es, tid);
    } else {
      hide Step, Disordered, Mine;
      var init, e := es[..|es| - 1], es[|es| - 1];
      LifetimePrefix(c, s, es, tid);
      LifetimeAccounted(c, s, init, tid);
      var p, r := Run(c, s, init), Run(c, s, es);
      LostZero(c, p, e, tid, if init == [] then from else LastTime(init));
      AddSpan(c, s, es, tid);
    }
  }

  /** The lifetime's spans grow by the span of the last event, or not at all. */
  lemma AddSpan(c: Config, s: State, es: seq<Event>, tid: nat)
    requires es != []
    requires Mine(Run(c, s, es[..|es| - 1]).spans, tid) == Mine(s.spans, tid) + During(c, s, es[..|es| - 1], tid)
    ensures var p, r := Mine(Run(c, s, es[..|es| - 1]).spans, tid), Mine(Run(c, s, es).spans, tid);
      var d := During(c, s, es[..|es| - 1], tid);
      && (r == p ==> During(c, s, es, tid) == d && r == Mine(s.spans, tid) + During(c, s, es, tid))
      && (forall sp :: r == p + [sp] ==>
            && During(c, s, es, tid) == d + [sp] && r == Mine(s.spans, tid) + During(c, s, es, tid)
            && During(c, s, es, tid)[..|d|] == d)
  {
    hide Run, Mine;
  }

  lemma {:induction false} TilesCover(spans: seq<Span>, from: nat, to: nat)
    requires Tiles(spans, from, to)
    ensures Covered(spans) == to - from
    decreases |spans|
  {
    if spans != [] {
      TilesCover(spans[..|spans| - 1], from, spans[|spans| - 1].start);
    }
  }

  /** The spans of a lifetime tile it if and only if no switch of it finds the
      thread, some time after its last transition, in a state it does not close. */
  lemma TilesIffNothingLost(c: Config, s: State, es: seq<Event>, tid: nat)
    requires tid in s.tasks && Lifetime(c, s, es, tid) && 0 < s.tasks[tid].stamp
    requires es != [] ==> s.tasks[tid].stamp <= es[0].now
    ensures Tiles(During(c, s, es, tid), s.tasks[tid].stamp, EndOf(Run(c, s, es), tid, LastTime(es)))
      <==> NoneLoses(c, s, es, tid)
  {
    LostIff(c, s, es, tid);
    hide Run, NoneLoses, Lost;
    var from, to := s.tasks[tid].stamp, EndOf(Run(c, s, es), tid, LastTime(es));
    LifetimeAccounted(c, s, es, tid);
    if Tiles(During(c, s, es, tid), from, to) {
      TilesCover(During(c, s, es, tid), from, to);
    }
  }

  /** An event that loses time: a switch out of order some time after the
      thread's last transition. */
  predicate Loses(c: Config, s: State, e: Event, tid: nat) {
    Disordered(c, s, e, tid) && s.tasks[tid].stamp < e.now
  }

  predicate NoneLoses(c: Config, s: State, es: seq<Event>, tid: nat) {
    es == [] || (NoneLoses(c, s, es[..|es| - 1], tid) && !Loses(c, Run(c, s, es[..|es| - 1]), es[|es| - 1], tid))
  }

  /** Nothing is lost in a lifetime if and only if no event of it loses time. */
  lemma {:induction false} LostIff(c: Config, s: State, es: seq<Event>, tid: nat)
    requires tid in s.tasks && Lifetime(c, s, es, tid) && 0 < s.tasks[tid].stamp
    requires es != [] ==> s.tasks[tid].stamp <= es[0].now
    ensures Lost(c, s, es, tid) == 0 <==> NoneLoses(c, s, es, tid)
    decreases |es|
  {
    hide Step, Mine, Tiles, Covered, During;
    if es != [] {
      var init := es[..|es| - 1];
      LifetimePrefix(c, s, es, tid);
      LostIff(c, s, init, tid);
      LifetimeAccounted(c, s, init, tid);
      OrderlyPrefix(es, |es| - 1);
    }
  }

  lemma {:induction false} NothingLost(c: Config, s: State, es: seq<Event>, tid: nat)
    requires forall i | 0 <= i < |es| :: !Disordered(c, Run(c, s, es[..i]), es[i], tid)
    ensures Lost(c, s, es, tid) == 0
    decreases |es|
  {
    hide Run, Disordered;
    if es != [] {
      var init := es[..|es| - 1];
      forall i | 0 <= i < |init| ensures !Disordered(c, Run(c, s, init[..i]), init[i], tid) {
        assert init[..i] == es[..i];
      }
      NothingLost(c, s, init, tid);
    }
  }

  /** A thread's first appearance starts its clock. */
  lemma BornNow(c: Config, s: State, e: Event, tid: nat)
    requires tid !in s.tasks && tid in Step(c, s, e).tasks
    ensures Step(c, s, e).tasks[tid].stamp == e.now && Step(c, s, e).spans == s.spans
  {
  }

  /** From a thread's first event `b` on, if it only switches out while tracked
      as running and only switches in while not, its spans tile the time from
      that event to its last transition, so their durations add up to it. */
  lemma TrackedTimeTiled(c: Config, s: State, b: Event, es: seq<Event>, tid: nat)
    requires 0 < b.now && tid !in s.tasks && tid in Step(c, s, b).tasks
    requires var s1 := Step(c, s, b);
      && Lifetime(c, s1, es, tid) && (es != [] ==> b.now <= es[0].now)
      && forall i | 0 <= i < |es| :: !Disordered(c, Run(c, s1, es[..i]), es[i], tid)
    ensures var s1 := Step(c, s, b);
      var to := EndOf(Run(c, s1, es), tid, LastTime(es));
      && Tiles(During(c, s1, es, tid), b.now, to) && Covered(During(c, s1, es, tid)) == to - b.now
  {
    var s1 := Step(c, s, b);
    BornNow(c, s, b, tid);
    NothingLost(c, s1, es, tid);
    LifetimeAccounted(c, s1, es, tid);
  }
}
