/** What a run of tracepoints amounts to, told from the events alone: the life of
    every request with its attempts, and which completions, bytes, errors,
    requeues and losses a device has. The kernel program's counters are proved
    to say exactly this. */
module BlockHistory {
  import opened Wrappers
  import opened Naturals
  import opened BlockDepth
  import opened BlockRequests
  import Marks = BlockCounts
  import Service = BlockService

  // ------------------------------------------------------- the life of a request

  /** One attempt at a request, from its issue to its requeue. */
  datatype Attempt = Attempt(from: nat, to: nat)

  /** A request from first sight on: whether it waits in a queue, its closed
      attempts, when the open one began, and how many bytes are left to complete. */
  datatype Life = Life(first: nat, dev: nat, op: Op, waits: bool, attempts: seq<Attempt>, open: Option<nat>, left: nat)

  /** The configuration asks for this operation on this device. */
  predicate Selected(c: Config, dev: nat, op: Op) {
    dev > 0 && op in c.mask && (!c.filtered || dev in c.devices)
  }

  predicate Final(l: Life, e: Event)
    requires e.Complete?
  {
    e.error || l.left <= e.bytes
  }

  /** What one event makes of a request. A requeue closes the open attempt; one
      that does not come after its issue leaves it open and forgets its start. */
  function After(c: Config, l: Option<Life>, e: Event): Option<Life> {
    match e
    case Insert(now, _, dev, op, len, full, _) =>
      if !Selected(c, dev, op) || (l.None? && full) then l
      else if l.None? then Some(Life(now, dev, op, true, [], None, len))
      else Some(l.value.(waits := l.value.waits || l.value.open.None?,
                         left := if l.value.left < len then len else l.value.left))
    case Merge(_, _, len) => if l.None? then None else Some(l.value.(left := len))
    case Issue(now, _, dev, op, len, full, _) =>
      if !Selected(c, dev, op) || (l.None? && full) then l
      else if l.None? then Some(Life(now, dev, op, false, [], Some(now), len))
      else Some(l.value.(waits := false, open := Some(now), left := if l.value.left == 0 then len else l.value.left))
    case Requeue(now, _, dev, op, _) =>
      if !Selected(c, dev, op) || l.None? || l.value.open.None? then l
      else if l.value.open.value < now
      then Some(l.value.(open := None, attempts := l.value.attempts + [Attempt(l.value.open.value, now)]))
      else Some(l.value.(open := Some(0)))
    case Complete(_, _, dev, op, _, bytes, _) =>
      if !Selected(c, dev, op) || l.None? then l
      else if Final(l.value, e) then None
      else Some(l.value.(left := l.value.left - bytes))
  }

  /** The request under `id` after all events, if it is being tracked. */
  function Lives(c: Config, es: seq<Event>, id: nat): Option<Life> {
    if es == [] || !c.tracking then None
    else
      var before, e := Lives(c, es[..|es| - 1], id), es[|es| - 1];
      if e.id == id then After(c, before, e) else before
  }

  function Span(a: Attempt): nat {
    if a.from < a.to then a.to - a.from else 0
  }

  function Lasted(attempts: seq<Attempt>): nat {
    if attempts == [] then 0 else Lasted(attempts[..|attempts| - 1]) + Span(attempts[|attempts| - 1])
  }

  /** The time all attempts took, the open one up to `now`. */
  function Served(l: Life, now: nat): nat {
    Lasted(l.attempts) + if l.open.Some? then Span(Attempt(l.open.value, now)) else 0
  }

  // ------------------------------------------------------- what counts for a device

  datatype Done = Done(dev: nat, op: Op, latency: Latency)

  /** The completion an event stands for, if it is one: of a request that is not
      tracked nothing is known but that it completed. */
  function Completed(c: Config, es: seq<Event>, e: Event): Option<Done> {
    if !e.Complete? || !c.tracking || !Selected(c, e.dev, e.op) then None
    else
      var l := Lives(c, es, e.id);
      if l.None? then Some(Done(e.dev, e.op, Latency(0, 0)))
      else if !Final(l.value, e) then None
      else Some(Done(l.value.dev, l.value.op,
                     Latency(Served(l.value, e.now), Span(Attempt(l.value.first, e.now)))))
  }

  predicate Counts(c: Config, es: seq<Event>, e: Event, dev: nat) {
    && (c.operations || c.latency)
    && Completed(c, es, e).Some? && Completed(c, es, e).value.dev == dev
  }

  predicate CountsBytes(c: Config, e: Event, dev: nat) {
    e.Complete? && Selected(c, e.dev, e.op) && e.dev == dev && (c.bytes || (c.errors && e.error))
  }

  predicate CountsRequeue(c: Config, e: Event, dev: nat) {
    e.Requeue? && c.errors && Selected(c, e.dev, e.op) && e.dev == dev
  }

  /** A request that could not be tracked because there was no room for it. */
  predicate CountsLost(c: Config, es: seq<Event>, e: Event, dev: nat) {
    && (e.Insert? || e.Issue?) && c.errors && c.tracking && Selected(c, e.dev, e.op) && e.dev == dev
    && e.full && Lives(c, es, e.id).None?
  }

  predicate Writes(c: Config, es: seq<Event>, e: Event, dev: nat) {
    Counts(c, es, e, dev) || CountsBytes(c, e, dev) || CountsRequeue(c, e, dev) || CountsLost(c, es, e, dev)
  }

  /** A device has statistics from the first event on that counts for it and is
      not refused an entry. */
  predicate Known(c: Config, es: seq<Event>, dev: nat) {
    es != [] &&
    (var init, e := es[..|es| - 1], es[|es| - 1];
     Known(c, init, dev) || (!e.Merge? && Writes(c, init, e, dev) && !e.noStats))
  }

  /** Everything counted for one operation of a device, and for the device. */
  datatype Tally = Tally(bytes: nat, errors: nat, finished: seq<Latency>, requeues: nat, lost: nat)

  function WithBytes(c: Config, e: Event, t: Tally): Tally
    requires e.Complete?
  {
    t.(bytes := if c.bytes then t.bytes + e.bytes else t.bytes,
       errors := if c.errors && e.error then t.errors + 1 else t.errors)
  }

  /** What the last event adds to a tally. */
  function Added(c: Config, init: seq<Event>, e: Event, t: Tally, dev: nat, op: Op): Tally {
    var d := Completed(c, init, e);
    var t1 := if CountsBytes(c, e, dev) && e.op == op then WithBytes(c, e, t) else t;
    var t2 := if Counts(c, init, e, dev) && d.value.op == op
              then t1.(finished := t1.finished + [d.value.latency]) else t1;
    t2.(requeues := t2.requeues + (if CountsRequeue(c, e, dev) then 1 else 0),
        lost := t2.lost + (if CountsLost(c, init, e, dev) then 1 else 0))
  }

  function Tallied(c: Config, es: seq<Event>, dev: nat, op: Op): Tally {
    if es == [] then Tally(0, 0, [], 0, 0)
    else
      var init, e := es[..|es| - 1], es[|es| - 1];
      var t := Tallied(c, init, dev, op);
      if !Known(c, es, dev) then t
      else Added(c, init, e, t, dev, op)
  }

  // ---------------------------------------------------------- requests and lives

  /** A table entry holds what a life amounts to. */
  predicate Holds(r: Request, l: Life) {
    && r.firstSeen == l.first && r.dev == l.dev && r.op == l.op && r.remaining == l.left
    && r.serviceNs == Lasted(l.attempts) && r.inserted == l.waits
    && (r.issued <==> l.open.Some?) && (r.issued ==> r.issueNs == l.open.value)
  }

  lemma LastedMore(attempts: seq<Attempt>, a: Attempt)
    ensures Lasted(attempts + [a]) == Lasted(attempts) + Span(a)
  {
    assert (attempts + [a])[..|attempts|] == attempts;
  }

  /** The table entry under `id`, if there is one. */
  function Entry(m: map<nat, Request>, id: nat): Option<Request> {
    if id in m then Some(m[id]) else None
  }

  predicate Same(r: Option<Request>, l: Option<Life>) {
    (r.Some? <==> l.Some?) && (r.Some? ==> Holds(r.value, l.value))
  }

  lemma StepHolds(c: Config, s: State, e: Event, l: Option<Life>)
    requires c.tracking && Same(Entry(s.requests, e.id), l)
    ensures Same(Entry(Step(c, s, e).requests, e.id), After(c, l, e))
  {
    hide RecordBytes, RecordCompletion, RecordLost, RecordRequeue, AdjustDepth, Lasted;
    match e {
      case Insert(_, _, _, _, _, _, _) =>
      case Merge(_, _, _) =>
      case Issue(_, _, _, _, _, _, _) => NothingLasted();
      case Requeue(_, _, _, _, _) =>
        if l.Some? && l.value.open.Some? {
          LastedMore(l.value.attempts, Attempt(l.value.open.value, e.now));
        }
      case Complete(_, _, _, _, _, _, _) =>
    }
    NothingLasted();
  }

  lemma NothingLasted()
    ensures Lasted([]) == 0
  {
  }

  lemma StepOther(c: Config, s: State, e: Event, id: nat)
    requires e.id != id || !c.tracking
    ensures Entry(Step(c, s, e).requests, id) == Entry(s.requests, id)
  {
    hide RecordBytes, RecordCompletion, RecordLost, RecordRequeue, AdjustDepth;
  }

  /** The request table tells the lives of the requests, after every run. */
  lemma {:induction false} RunHolds(c: Config, devices: set<nat>, at: nat, es: seq<Event>, id: nat)
    ensures Same(Entry(Run(c, Boot(devices, at), es).requests, id), Lives(c, es, id))
    decreases |es|
  {
    hide Step, After, Holds;
    if es != [] {
      var init, e := es[..|es| - 1], es[|es| - 1];
      RunHolds(c, devices, at, init, id);
      if c.tracking && e.id == id {
        StepHolds(c, Run(c, Boot(devices, at), init), e, Lives(c, init, id));
      } else {
        StepOther(c, Run(c, Boot(devices, at), init), e, id);
      }
    }
  }

  /** So the requests the depth counters count are those that wait, and those
      with an open attempt. */
  lemma RunMarks(c: Config, devices: set<nat>, at: nat, es: seq<Event>, dev: nat, id: nat)
    ensures var m, l := Run(c, Boot(devices, at), es).requests, Lives(c, es, id);
      && (id in Marks.InQueue(m, dev) <==> l.Some? && l.value.dev == dev && l.value.waits)
      && (id in Marks.InFlight(m, dev) <==> l.Some? && l.value.dev == dev && l.value.open.Some?)
  {
    hide Run, Lives, Lasted;
    RunHolds(c, devices, at, es, id);
  }

  // ---------------------------------------------------- statistics and the tally

  const NOTHING: Tally := Tally(0, 0, [], 0, 0)

  /** What a device's statistics say of one operation. */
  function ReadingOf(d: DevStats, op: Op): Tally {
    Tally(OpOf(d, op).bytes, OpOf(d, op).errors, OpOf(d, op).finished, d.requeues, d.lost)
  }

  function Reading(stats: map<nat, DevStats>, dev: nat, op: Op): Tally {
    if dev in stats then ReadingOf(stats[dev], op) else NOTHING
  }

  lemma TouchReads(stats: map<nat, DevStats>, d: nat, now: nat, refused: bool, dev: nat, op: Op)
    ensures var r := Touch(stats, d, now, refused);
      && (dev in r <==> dev in stats || (dev == d && !refused))
      && Reading(r, dev, op) == Reading(stats, dev, op)
  {
  }

  lemma BytesRead(c: Config, stats: map<nat, DevStats>, e: Event, dev: nat, op: Op)
    requires e.Complete? && Selected(c, e.dev, e.op)
    ensures var r := RecordBytes(c, stats, e.dev, e.op, e.bytes, e.error, e.now, e.noStats);
      var t := Reading(stats, dev, op);
      && (dev in r <==> dev in stats || (CountsBytes(c, e, dev) && !e.noStats))
      && Reading(r, dev, op) == if dev in r && CountsBytes(c, e, dev) && e.op == op then WithBytes(c, e, t) else t
  {
    hide Touch, Reading;
    TouchReads(stats, e.dev, e.now, e.noStats, dev, op);
    var t := Touch(stats, e.dev, e.now, e.noStats);
    if e.dev in t {
      var o := OpOf(t[e.dev], e.op);
      PutReads(t, e.dev, e.op, o.(bytes := if c.bytes then o.bytes + e.bytes else o.bytes,
                                  errors := if c.errors && e.error then o.errors + 1 else o.errors), e.now, dev, op);
    }
  }

  /** Storing the counters of one operation changes only what is read of it. */
  lemma PutReads(stats: map<nat, DevStats>, d: nat, k: Op, o: OpStats, now: nat, dev: nat, op: Op)
    requires d in stats
    ensures var r, t := PutOp(stats, d, k, o, now), Reading(stats, dev, op);
      && r.Keys == stats.Keys
      && Reading(r, dev, op) ==
         if dev == d && op == k then t.(bytes := o.bytes, errors := o.errors, finished := o.finished) else t
    ensures var o := OpOf(stats[d], k); var t := Reading(stats, d, k);
      o.bytes == t.bytes && o.errors == t.errors && o.finished == t.finished
  {
  }

  lemma CompletionRead(c: Config, stats: map<nat, DevStats>, d: Done, q: nat, now: nat, refused: bool, dev: nat, op: Op)
    ensures var r := RecordCompletion(c, stats, d.dev, d.op, q, d.latency, now, refused);
      var t, counts := Reading(stats, dev, op), (c.operations || c.latency) && d.dev == dev;
      && (dev in r <==> dev in stats || (counts && !refused))
      && Reading(r, dev, op) ==
         if dev in r && counts && d.op == op then t.(finished := t.finished + [d.latency]) else t
  {
    hide Touch, Reading;
    TouchReads(stats, d.dev, now, refused, dev, op);
    var t := Touch(stats, d.dev, now, refused);
    if d.dev in t {
      PutReads(t, d.dev, d.op, Finish(c, OpOf(t[d.dev], d.op), q, d.latency), now, dev, op);
    }
  }

  lemma CountersRead(c: Config, stats: map<nat, DevStats>, d: nat, now: nat, refused: bool, dev: nat, op: Op)
    ensures var r, t := RecordRequeue(c, stats, d, now, refused), Reading(stats, dev, op);
      && (dev in r <==> dev in stats || (c.errors && d == dev && !refused))
      && Reading(r, dev, op) == if dev in r && c.errors && d == dev then t.(requeues := t.requeues + 1) else t
    ensures var r, t := RecordLost(c, stats, d, now, refused), Reading(stats, dev, op);
      && (dev in r <==> dev in stats || (c.errors && d == dev && !refused))
      && Reading(r, dev, op) == if dev in r && c.errors && d == dev then t.(lost := t.lost + 1) else t
  {
    hide Touch;
    TouchReads(stats, d, now, refused, dev, op);
  }

  /** One event adds to the statistics what it stands for. */
  predicate Adds(c: Config, a: map<nat, DevStats>, b: map<nat, DevStats>, init: seq<Event>, e: Event,
                 dev: nat, op: Op)
  {
    && (dev in b <==> dev in a || (!e.Merge? && Writes(c, init, e, dev) && !e.noStats))
    && Reading(b, dev, op) ==
       if dev in b then Added(c, init, e, Reading(a, dev, op), dev, op) else Reading(a, dev, op)
  }

  lemma StepAdds(c: Config, s: State, init: seq<Event>, e: Event, dev: nat, op: Op)
    requires Same(Entry(s.requests, e.id), Lives(c, init, e.id))
    ensures Adds(c, s.stats, Step(c, s, e).stats, init, e, dev, op)
  {
    hide Adds, Same, Step;
    if e.Complete? {
      CompleteStats(c, s, init, e);
      CompleteAdds(c, s.stats, Step(c, s, e).stats, init, e, dev, op);
    } else {
      OtherStats(c, s, init, e);
      OtherAdds(c, s.stats, Step(c, s, e).stats, init, e, dev, op);
    }
  }

  /** The statistics after an event other than a completion. */
  function Counted(c: Config, stats: map<nat, DevStats>, init: seq<Event>, e: Event): map<nat, DevStats> {
    if e.Requeue? && Selected(c, e.dev, e.op) then RecordRequeue(c, stats, e.dev, e.now, e.noStats)
    else if (e.Insert? || e.Issue?) && c.tracking && Selected(c, e.dev, e.op) && e.full && Lives(c, init, e.id).None?
    then RecordLost(c, stats, e.dev, e.now, e.noStats)
    else stats
  }

  lemma OtherStats(c: Config, s: State, init: seq<Event>, e: Event)
    requires !e.Complete? && Same(Entry(s.requests, e.id), Lives(c, init, e.id))
    ensures Step(c, s, e).stats == Counted(c, s.stats, init, e)
  {
    hide Lives, AdjustDepth, Holds, Touch;
  }

  lemma OtherAdded(c: Config, init: seq<Event>, e: Event, t: Tally, dev: nat, op: Op)
    requires !e.Complete?
    ensures Writes(c, init, e, dev) <==> CountsRequeue(c, e, dev) || CountsLost(c, init, e, dev)
    ensures Added(c, init, e, t, dev, op) ==
      t.(requeues := t.requeues + (if CountsRequeue(c, e, dev) then 1 else 0),
         lost := t.lost + (if CountsLost(c, init, e, dev) then 1 else 0))
  {
    hide Lives, Selected;
  }

  lemma OtherAdds(c: Config, a: map<nat, DevStats>, b: map<nat, DevStats>, init: seq<Event>, e: Event,
                  dev: nat, op: Op)
    requires !e.Complete? && b == Counted(c, a, init, e)
    ensures Adds(c, a, b, init, e, dev, op)
  {
    hide Lives, Selected, Reading, RecordLost, RecordRequeue, Added, Writes;
    OtherAdded(c, init, e, Reading(a, dev, op), dev, op);
    if !e.Merge? {
      CountersRead(c, a, e.dev, e.now, e.noStats, dev, op);
    }
  }

  /** The statistics after a completion. */
  function Concluded(c: Config, stats: map<nat, DevStats>, init: seq<Event>, e: Event): map<nat, DevStats>
    requires e.Complete?
  {
    if !Selected(c, e.dev, e.op) then stats
    else
      var b, d := RecordBytes(c, stats, e.dev, e.op, e.bytes, e.error, e.now, e.noStats), Completed(c, init, e);
      if d.None? then b
      else
        var l := d.value.latency;
        RecordCompletion(c, b, d.value.dev, d.value.op, SatSub(l.total, l.service), l, e.now, e.noStats)
  }

  lemma CompleteStats(c: Config, s: State, init: seq<Event>, e: Event)
    requires e.Complete? && Same(Entry(s.requests, e.id), Lives(c, init, e.id))
    ensures Step(c, s, e).stats == Concluded(c, s.stats, init, e)
  {
    hide Lives, Lasted, AdjustDepth, RecordBytes, RecordCompletion;
    if e.id in s.requests && Completed(c, init, e).Some? {
      FinalLatency(c, s, init, e);
    }
  }

  lemma CompleteAdds(c: Config, a: map<nat, DevStats>, b: map<nat, DevStats>, init: seq<Event>, e: Event,
                     dev: nat, op: Op)
    requires e.Complete? && b == Concluded(c, a, init, e)
    ensures Adds(c, a, b, init, e, dev, op)
  {
    hide Reading, RecordBytes, RecordCompletion, CountsBytes, Completed, WithBytes, Selected;
    var d := Completed(c, init, e);
    if Selected(c, e.dev, e.op) {
      BytesRead(c, a, e, dev, op);
      if d.Some? {
        var m, l := RecordBytes(c, a, e.dev, e.op, e.bytes, e.error, e.now, e.noStats), d.value.latency;
        CompletionRead(c, m, d.value, SatSub(l.total, l.service), e.now, e.noStats, dev, op);
      }
    } else {
      NotSelected(c, init, e, dev);
    }
  }

  lemma NotSelected(c: Config, init: seq<Event>, e: Event, dev: nat)
    requires e.Complete? && !Selected(c, e.dev, e.op)
    ensures !CountsBytes(c, e, dev) && Completed(c, init, e).None?
  {
  }

  /** What the program reports of a final completion is what the request's life
      amounts to. */
  lemma FinalLatency(c: Config, s: State, init: seq<Event>, e: Event)
    requires e.Complete? && Same(Entry(s.requests, e.id), Lives(c, init, e.id))
    requires Completed(c, init, e).Some? && e.id in s.requests
    ensures var r := s.requests[e.id];
      && Finishes(r, e) && Completed(c, init, e) == Some(Done(r.dev, r.op, LatencyAt(r, e.now)))
  {
    hide Lives, Lasted;
  }

  /** After every run whatsoever, the statistics of a device and operation are
      what the events amount to: its bytes, its errors, its final completions in
      order, each with the sum of its attempts as service and the time since first
      sight as total, and the device's requeues and losses. A device has
      statistics from the first counted event that was not refused an entry. */
  lemma {:induction false} RunTallies(c: Config, devices: set<nat>, at: nat, es: seq<Event>, dev: nat, op: Op)
    ensures var stats := Run(c, Boot(devices, at), es).stats;
      (dev in stats <==> Known(c, es, dev)) && Reading(stats, dev, op) == Tallied(c, es, dev, op)
    decreases |es|
  {
    hide Step, Reading, Writes, Completed, Counts, CountsBytes, CountsRequeue, CountsLost, Same, Entry;
    if es == [] {
      NothingRead(devices, at, dev, op);
    } else {
      var init, e := es[..|es| - 1], es[|es| - 1];
      RunTallies(c, devices, at, init, dev, op);
      RunHolds(c, devices, at, init, e.id);
      StepAdds(c, Run(c, Boot(devices, at), init), init, e, dev, op);
    }
  }

  lemma NothingRead(devices: set<nat>, at: nat, dev: nat, op: Op)
    ensures dev !in Boot(devices, at).stats && Reading(Boot(devices, at).stats, dev, op) == NOTHING
  {
  }

  /** So, after every run, every number userspace can read of a device and
      operation is that of the completions told from the events. */
  lemma RunCounters(c: Config, devices: set<nat>, at: nat, es: seq<Event>, dev: nat, op: Op)
    requires Known(c, es, dev)
    ensures var stats, t := Run(c, Boot(devices, at), es).stats, Tallied(c, es, dev, op);
      && dev in stats && stats[dev].requeues == t.requeues && stats[dev].lost == t.lost
      && var o := OpOf(stats[dev], op);
         o.finished == t.finished && o.bytes == t.bytes && o.errors == t.errors && Service.Exact(c, o)
  {
    hide Run, Known, Tallied, Service.Exact, NoOps;
    RunTallies(c, devices, at, es, dev, op);
    Service.RunExact(c, devices, at, es);
    Service.NoOpsExact(c);
    assert Service.DevExact(c, Run(c, Boot(devices, at), es).stats[dev]);
  }
}
