/** The block tracker's kernel program: one entry per request in flight, and
    per-device depth counters and completion statistics driven by the insert,
    merge, issue, requeue and complete tracepoints. */
module BlockRequests {
  import opened Naturals
  import opened BlockDepth
  import opened BlockLatency

  datatype Op = Read | Write | Flush | Trim | Other

  datatype Config = Config(
    bytes: bool, operations: bool, latency: bool, saturation: bool, errors: bool, tracking: bool,
    mask: set<Op>, filtered: bool, devices: set<nat>)

  predicate ShouldTrack(c: Config, dev: nat, op: Op) {
    dev != 0 && op in c.mask && (c.filtered ==> dev in c.devices)
  }

  datatype Request = Request(
    firstSeen: nat, insertNs: nat, issueNs: nat, serviceNs: nat, bytes: nat, remaining: nat,
    dev: nat, op: Op, requeues: nat, inserted: bool, issued: bool)

  /** One recorded completion, in nanoseconds. */
  datatype Latency = Latency(service: nat, total: nat)

  /** `finished` is history: the completions behind the counters. */
  datatype OpStats = OpStats(
    bytes: nat, operations: nat, errors: nat, queueNs: nat, serviceNs: nat, totalNs: nat,
    serviceHist: seq<nat>, totalHist: seq<nat>, finished: seq<Latency>)

  datatype DevStats = DevStats(ops: map<Op, OpStats>, requeues: nat, lost: nat, firstSeen: nat, lastSeen: nat)

  datatype State = State(requests: map<nat, Request>, depths: map<nat, Depth>, stats: map<nat, DevStats>)

  /** `full` and `noStats` say whether the kernel refused a new request entry
      or a new statistics entry; the program cannot know beforehand. */
  datatype Event =
    | Insert(now: nat, id: nat, dev: nat, op: Op, len: nat, full: bool, noStats: bool)
    | Merge(now: nat, id: nat, len: nat)
    | Issue(now: nat, id: nat, dev: nat, op: Op, len: nat, full: bool, noStats: bool)
    | Requeue(now: nat, id: nat, dev: nat, op: Op, noStats: bool)
    | Complete(now: nat, id: nat, dev: nat, op: Op, error: bool, bytes: nat, noStats: bool)

  // ------------------------------------------------------------- statistics

  function NoHistogram(): (h: seq<nat>)
    ensures |h| == HISTOGRAM_BUCKETS
  {
    seq(HISTOGRAM_BUCKETS, b => 0)
  }

  function NoOps(): OpStats {
    OpStats(0, 0, 0, 0, 0, 0, NoHistogram(), NoHistogram(), [])
  }

  function NewStats(now: nat): DevStats {
    DevStats(map[Read := NoOps(), Write := NoOps(), Flush := NoOps(), Trim := NoOps(), Other := NoOps()],
             0, 0, now, now)
  }

  /** `get_device_stats`: the entry of `dev`, created if there is room. */
  function Touch(stats: map<nat, DevStats>, dev: nat, now: nat, refused: bool): map<nat, DevStats> {
    if dev in stats then
      if stats[dev].firstSeen == 0 then stats[dev := stats[dev].(firstSeen := now)] else stats
    else if refused then stats
    else stats[dev := NewStats(now)]
  }

  function OpOf(d: DevStats, op: Op): OpStats {
    if op in d.ops then d.ops[op] else NoOps()
  }

  function PutOp(stats: map<nat, DevStats>, dev: nat, op: Op, o: OpStats, now: nat): map<nat, DevStats>
    requires dev in stats
  {
    stats[dev := stats[dev].(ops := stats[dev].ops[op := o], lastSeen := now)]
  }

  function RecordBytes(c: Config, stats: map<nat, DevStats>, dev: nat, op: Op, bytes: nat, error: bool,
                       now: nat, refused: bool): map<nat, DevStats>
  {
    if !c.bytes && (!c.errors || !error) then stats
    else
      var t := Touch(stats, dev, now, refused);
      if dev !in t then t
      else
        var o := OpOf(t[dev], op);
        PutOp(t, dev, op, o.(bytes := if c.bytes then o.bytes + bytes else o.bytes,
                             errors := if c.errors && error then o.errors + 1 else o.errors), now)
  }

  /** Counts one completion. */
  function Finish(c: Config, o: OpStats, queueNs: nat, l: Latency): OpStats {
    var counted := o.(operations := if c.operations then o.operations + 1 else o.operations,
                      finished := o.finished + [l]);
    if !c.latency then counted
    else
      counted.(queueNs := o.queueNs + queueNs, serviceNs := o.serviceNs + l.service,
               totalNs := o.totalNs + l.total,
               serviceHist := Bump(o.serviceHist, Bucket(l.service / 1000)),
               totalHist := Bump(o.totalHist, Bucket(l.total / 1000)))
  }

  function RecordCompletion(c: Config, stats: map<nat, DevStats>, dev: nat, op: Op, queueNs: nat, l: Latency,
                            now: nat, refused: bool): map<nat, DevStats>
  {
    if !c.operations && !c.latency then stats
    else
      var t := Touch(stats, dev, now, refused);
      if dev !in t then t else PutOp(t, dev, op, Finish(c, OpOf(t[dev], op), queueNs, l), now)
  }

  function RecordLost(c: Config, stats: map<nat, DevStats>, dev: nat, now: nat, refused: bool): map<nat, DevStats> {
    if !c.errors then stats
    else
      var t := Touch(stats, dev, now, refused);
      if dev !in t then t else t[dev := t[dev].(lost := t[dev].lost + 1)]
  }

  function RecordRequeue(c: Config, stats: map<nat, DevStats>, dev: nat, now: nat, refused: bool): map<nat, DevStats> {
    if !c.errors then stats
    else
      var t := Touch(stats, dev, now, refused);
      if dev !in t then t else t[dev := t[dev].(requeues := t[dev].requeues + 1)]
  }

  // --------------------------------------------------------------- handlers

  function AdjustDepth(c: Config, depths: map<nat, Depth>, dev: nat, dq: int, di: int, now: nat): (r: map<nat, Depth>)
    ensures r.Keys == depths.Keys
  {
    if c.saturation && dev in depths then depths[dev := Adjust(depths[dev], dq, di, now)] else depths
  }

  function NewRequest(now: nat, dev: nat, op: Op, len: nat, inserted: bool): Request {
    Request(now, if inserted then now else 0, 0, 0, len, len, dev, op, 0, inserted, false)
  }

  function OnInsert(c: Config, s: State, e: Event): State
    requires e.Insert?
  {
    if !c.tracking || !ShouldTrack(c, e.dev, e.op) then s
    else if e.id !in s.requests then
      if e.full then s.(stats := RecordLost(c, s.stats, e.dev, e.now, e.noStats))
      else s.(requests := s.requests[e.id := NewRequest(e.now, e.dev, e.op, e.len, true)],
              depths := AdjustDepth(c, s.depths, e.dev, 1, 0, e.now))
    else
      var r := s.requests[e.id];
      var grown := r.(bytes := e.len, remaining := Max(r.remaining, e.len));
      if r.inserted || r.issued then s.(requests := s.requests[e.id := grown])
      else s.(requests := s.requests[e.id := grown.(insertNs := e.now, inserted := true)],
              depths := AdjustDepth(c, s.depths, e.dev, 1, 0, e.now))
  }

  function OnMerge(c: Config, s: State, e: Event): State
    requires e.Merge?
  {
    if !c.tracking || e.id !in s.requests then s
    else s.(requests := s.requests[e.id := s.requests[e.id].(bytes := e.len, remaining := e.len)])
  }

  /** The part of the issue handler that runs once the request is tracked. */
  function Issued(c: Config, s: State, r: Request, e: Event): State
    requires e.Issue?
  {
    var d1 := if r.inserted then AdjustDepth(c, s.depths, e.dev, -1, 0, e.now) else s.depths;
    var d2 := if !r.issued then AdjustDepth(c, d1, e.dev, 0, 1, e.now) else d1;
    s.(depths := d2,
       requests := s.requests[e.id := r.(inserted := false, issued := true, issueNs := e.now, bytes := e.len,
                                         remaining := if r.remaining == 0 then e.len else r.remaining)])
  }

  function OnIssue(c: Config, s: State, e: Event): State
    requires e.Issue?
  {
    if !c.tracking || !ShouldTrack(c, e.dev, e.op) then s
    else if e.id !in s.requests && e.full then s.(stats := RecordLost(c, s.stats, e.dev, e.now, e.noStats))
    else
      var r := if e.id in s.requests then s.requests[e.id] else NewRequest(e.now, e.dev, e.op, e.len, false);
      Issued(c, s, r, e)
  }

  function OnRequeue(c: Config, s: State, e: Event): State
    requires e.Requeue?
  {
    if (!c.errors && !c.tracking) || !ShouldTrack(c, e.dev, e.op) then s
    else
      var t := s.(stats := RecordRequeue(c, s.stats, e.dev, e.now, e.noStats));
      if !c.tracking || e.id !in s.requests then t
      else
        var r := s.requests[e.id];
        var back := r.(requeues := r.requeues + 1, issueNs := 0);
        if r.issued && e.now > r.issueNs then
          t.(depths := AdjustDepth(c, s.depths, r.dev, 0, -1, e.now),
             requests := s.requests[e.id := back.(serviceNs := r.serviceNs + (e.now - r.issueNs), issued := false)])
        else t.(requests := s.requests[e.id := back])
  }

  predicate Finishes(r: Request, e: Event)
    requires e.Complete?
  {
    e.error || e.bytes >= r.remaining
  }

  /** Service and total time a completion reports. */
  function LatencyAt(r: Request, now: nat): Latency {
    Latency(if r.issued && now > r.issueNs then r.serviceNs + (now - r.issueNs) else r.serviceNs,
            SatSub(now, r.firstSeen))
  }

  function OnComplete(c: Config, s: State, e: Event): State
    requires e.Complete?
  {
    if !ShouldTrack(c, e.dev, e.op) then s
    else
      var t := s.(stats := RecordBytes(c, s.stats, e.dev, e.op, e.bytes, e.error, e.now, e.noStats));
      if !c.tracking then t
      else if e.id !in s.requests then
        t.(stats := RecordCompletion(c, t.stats, e.dev, e.op, 0, Latency(0, 0), e.now, e.noStats))
      else
        var r := s.requests[e.id];
        if !Finishes(r, e) then
          t.(requests := s.requests[e.id := r.(remaining := r.remaining - e.bytes)])
        else
          var d1 := if r.issued && e.now > r.issueNs
                    then AdjustDepth(c, s.depths, r.dev, 0, -1, e.now) else s.depths;
          var d2 := if r.inserted then AdjustDepth(c, d1, r.dev, -1, 0, e.now) else d1;
          var l := LatencyAt(r, e.now);
          State(s.requests - {e.id}, d2,
                RecordCompletion(c, t.stats, r.dev, r.op, SatSub(l.total, l.service), l, e.now, e.noStats))
  }

  function Step(c: Config, s: State, e: Event): State {
    match e
    case Insert(_, _, _, _, _, _, _) => OnInsert(c, s, e)
    case Merge(_, _, _) => OnMerge(c, s, e)
    case Issue(_, _, _, _, _, _, _) => OnIssue(c, s, e)
    case Requeue(_, _, _, _, _) => OnRequeue(c, s, e)
    case Complete(_, _, _, _, _, _, _) => OnComplete(c, s, e)
  }

  function Run(c: Config, s: State, es: seq<Event>): State {
    if es == [] then s else Step(c, Run(c, s, es[..|es| - 1]), es[|es| - 1])
  }

  /** The state before the first tracepoint: every device of interest has been
      registered at time `at`. */
  function Boot(devices: set<nat>, at: nat): State {
    State(map[], map d | d in devices :: Registered(at), map[])
  }

  /** Timestamps start at `at` and never go back. */
  predicate Orderly(es: seq<Event>, at: nat) {
    && (forall i | 0 <= i < |es| :: at <= es[i].now)
    && (forall i, j | 0 <= i < j < |es| :: es[i].now <= es[j].now)
  }

  function LastTime(es: seq<Event>, at: nat): nat {
    if es == [] then at else es[|es| - 1].now
  }
}
