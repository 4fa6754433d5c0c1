/** Conversion of trace messages into a Perfetto packet log: tracks get a uuid
    the first time they matter, and everything else refers to them by uuid. */
module TrackConversion {
  import opened Wrappers

  datatype TrackId = Cpu(cpu: nat) | Thread(tid: int, pid: int) | Process(pid: int) | Custom(id: nat) | Counter(id: nat)

  datatype Message =
    | Track(id: TrackId, name: string, unit: Option<string>, parent: Option<TrackId>)
    | Span(id: TrackId, name: string, start: nat, end: nat)
    | Instant(id: TrackId, name: string, at: nat)
    | CounterValue(id: TrackId, value: real, at: nat)

  /** What a track descriptor says the track is. */
  datatype What =
    | ProcessTrack(pid: int)
    | ThreadTrack(pid: int, tid: int)
    | GenericTrack
    | CounterTrack(unit: Option<string>)

  /** `parent` is 0 where the descriptor names none. */
  datatype Packet =
    | Descriptor(uuid: nat, parent: nat, what: What, title: Option<string>)
    | SliceBegin(uuid: nat, name: string, at: nat)
    | SliceEnd(uuid: nat, at: nat)
    | InstantEvent(uuid: nat, name: string, at: nat)
    | CounterEvent(uuid: nat, value: real, at: nat)

  datatype Conv = Conv(tracks: map<TrackId, nat>, next: nat, log: seq<Packet>)

  const FIRST_UUID: nat := 1000

  const NEW: Conv := Conv(map[], FIRST_UUID, [])

  /** A fresh uuid and its descriptor, bound to `id`. */
  function Describe(c: Conv, id: TrackId, parent: nat, what: What, name: Option<string>): Conv {
    Conv(c.tracks[id := c.next], c.next + 1, c.log + [Descriptor(c.next, parent, what, name)])
  }

  function EnsureProcess(c: Conv, pid: int, name: Option<string>): (r: Conv)
    ensures Process(pid) in r.tracks
  {
    if Process(pid) in c.tracks then c else Describe(c, Process(pid), 0, ProcessTrack(pid), name)
  }

  function EnsureThread(c: Conv, pid: int, tid: int, name: Option<string>): (r: Conv)
    ensures Thread(tid, pid) in r.tracks
  {
    var p := EnsureProcess(c, pid, None);
    var parent := p.tracks[Process(pid)];
    if Thread(tid, pid) !in c.tracks then Describe(p, Thread(tid, pid), parent, ThreadTrack(pid, tid), name)
    else if name.None? then c
    else p.(log := p.log + [Descriptor(c.tracks[Thread(tid, pid)], parent, ThreadTrack(pid, tid), name)])
  }

  /** Makes a thread or process known; other tracks cannot be made up. */
  function Ensure(c: Conv, id: TrackId): Conv {
    match id
    case Thread(tid, pid) => if id in c.tracks then c else EnsureThread(c, pid, tid, None)
    case Process(pid) => EnsureProcess(c, pid, None)
    case _ => c
  }

  function UuidOr0(c: Conv, id: TrackId): nat {
    if id in c.tracks then c.tracks[id] else 0
  }

  function OnTrack(c: Conv, m: Message): Conv
    requires m.Track?
  {
    if m.id in c.tracks then c
    else
      var p := if m.parent.Some? then Ensure(c, m.parent.value) else c;
      var parent := if m.parent.Some? then UuidOr0(p, m.parent.value) else 0;
      match m.id
      case Cpu(_) => Describe(p, m.id, parent, GenericTrack, Some(m.name))
      case Custom(_) => Describe(p, m.id, parent, GenericTrack, Some(m.name))
      case Counter(_) => Describe(p, m.id, parent, CounterTrack(m.unit), Some(m.name))
      case Thread(tid, pid) => EnsureThread(p, pid, tid, Some(m.name))
      case Process(pid) => EnsureProcess(p, pid, Some(m.name))
  }

  function Append(c: Conv, ps: seq<Packet>): Conv {
    c.(log := c.log + ps)
  }

  function Step(c: Conv, m: Message): Conv {
    match m
    case Track(_, _, _, _) => OnTrack(c, m)
    case Span(id, name, start, end) =>
      var d := Ensure(c, id);
      if id !in d.tracks then d
      else Append(d, [SliceBegin(d.tracks[id], name, start), SliceEnd(d.tracks[id], end)])
    case Instant(id, name, at) =>
      var d := Ensure(c, id);
      if id !in d.tracks then d else Append(d, [InstantEvent(d.tracks[id], name, at)])
    case CounterValue(id, value, at) =>
      if id !in c.tracks then c else Append(c, [CounterEvent(c.tracks[id], value, at)])
  }

  function Run(ms: seq<Message>): Conv {
    if ms == [] then NEW else Step(Run(ms[..|ms| - 1]), ms[|ms| - 1])
  }

  // -------------------------------------------------------- reading the log

  /** What is known of each described uuid. */
  datatype Node = Node(parent: nat, what: What)

  type Forest = map<nat, Node>

  function Described(log: seq<Packet>): Forest {
    if log == [] then map[]
    else
      var f, p := Described(log[..|log| - 1]), log[|log| - 1];
      if p.Descriptor? then f[p.uuid := Node(p.parent, p.what)] else f
  }

  /** A packet fits a log that has described `f`: events refer to a described
      track, a parent is 0 or a described track with a smaller uuid, and a track
      described again is described alike. */
  predicate Fits(f: Forest, p: Packet) {
    if p.Descriptor? then
      && 0 < p.uuid && (p.parent == 0 || (p.parent in f && p.parent < p.uuid))
      && (p.uuid in f ==> f[p.uuid] == Node(p.parent, p.what))
    else p.uuid in f
  }

  predicate DefinedBeforeUse(log: seq<Packet>) {
    log == [] || (DefinedBeforeUse(log[..|log| - 1]) && Fits(Described(log[..|log| - 1]), log[|log| - 1]))
  }

  datatype Item =
    | SpanItem(uuid: nat, name: string, start: nat, end: nat)
    | InstantItem(uuid: nat, name: string, at: nat)
    | CounterItem(uuid: nat, value: real, at: nat)

  /** Reads the events back; fails unless every slice begin is followed at once
      by its end on the same track. */
  function Decode(log: seq<Packet>): Option<seq<Item>> {
    if log == [] then Some([])
    else
      var n, p := |log|, log[|log| - 1];
      match p
      case Descriptor(_, _, _, _) => Decode(log[..n - 1])
      case SliceBegin(_, _, _) => None
      case SliceEnd(u, at) =>
        if n < 2 || !log[n - 2].SliceBegin? || log[n - 2].uuid != u then None
        else With(Decode(log[..n - 2]), SpanItem(u, log[n - 2].name, log[n - 2].at, at))
      case InstantEvent(u, name, at) => With(Decode(log[..n - 1]), InstantItem(u, name, at))
      case CounterEvent(u, value, at) => With(Decode(log[..n - 1]), CounterItem(u, value, at))
  }

  function With(items: Option<seq<Item>>, i: Item): Option<seq<Item>> {
    if items.Some? then Some(items.value + [i]) else None
  }

  // --------------------------------------------------------------- invariant

  predicate Matches(c: Conv, id: TrackId, node: Node) {
    match id
    case Process(pid) => node == Node(0, ProcessTrack(pid))
    case Thread(tid, pid) => Process(pid) in c.tracks && node == Node(c.tracks[Process(pid)], ThreadTrack(pid, tid))
    case Counter(_) => node.what.CounterTrack?
    case _ => node.what.GenericTrack?
  }

  predicate Bound(c: Conv, f: Forest, id: TrackId)
    requires id in c.tracks
  {
    FIRST_UUID <= c.tracks[id] < c.next && c.tracks[id] in f && Matches(c, id, f[c.tracks[id]])
  }

  predicate Injective(tracks: map<TrackId, nat>) {
    forall a, b | a in tracks && b in tracks :: tracks[a] == tracks[b] ==> a == b
  }

  predicate Inv(c: Conv) {
    && FIRST_UUID <= c.next && Injective(c.tracks)
    && (forall id | id in c.tracks :: Bound(c, Described(c.log), id))
    && (forall u | u in Described(c.log) :: u < c.next)
    && DefinedBeforeUse(c.log)
  }

  /** What was known stays as it was. */
  predicate Grows(a: Conv, b: Conv) {
    && a.next <= b.next && a.log <= b.log
    && (forall id | id in a.tracks :: id in b.tracks && b.tracks[id] == a.tracks[id])
  }

  lemma LogMore(log: seq<Packet>, p: Packet)
    requires DefinedBeforeUse(log) && Fits(Described(log), p)
    ensures DefinedBeforeUse(log + [p])
    ensures Described(log + [p])
      == if p.Descriptor? then Described(log)[p.uuid := Node(p.parent, p.what)] else Described(log)
  {
    assert (log + [p])[..|log|] == log;
  }

  lemma DescribeKeeps(c: Conv, id: TrackId, parent: nat, what: What, name: Option<string>)
    requires Inv(c) && id !in c.tracks && (parent == 0 || parent in Described(c.log))
    requires Matches(c, id, Node(parent, what))
    ensures Inv(Describe(c, id, parent, what, name)) && Grows(c, Describe(c, id, parent, what, name))
  {
    var d, f := Describe(c, id, parent, what, name), Described(c.log);
    LogMore(c.log, Descriptor(c.next, parent, what, name));
    forall k | k in d.tracks ensures Bound(d, Described(d.log), k) {
      if k != id {
        assert Bound(c, f, k);
      }
    }
    forall k | k in c.tracks ensures c.tracks[k] < c.next {
      assert Bound(c, f, k);
    }
  }

  lemma ProcessKeeps(c: Conv, pid: int, name: Option<string>)
    requires Inv(c)
    ensures Inv(EnsureProcess(c, pid, name)) && Grows(c, EnsureProcess(c, pid, name))
  {
    hide Inv;
    if Process(pid) !in c.tracks {
      DescribeKeeps(c, Process(pid), 0, ProcessTrack(pid), name);
    }
  }

  /** The uuid a track is known by has been described. */
  lemma KnownDescribed(c: Conv, id: TrackId)
    requires Inv(c) && id in c.tracks
    ensures c.tracks[id] in Described(c.log) && Matches(c, id, Described(c.log)[c.tracks[id]])
  {
    assert Bound(c, Described(c.log), id);
  }

  lemma ThreadKeeps(c: Conv, pid: int, tid: int, name: Option<string>)
    requires Inv(c)
    ensures Inv(EnsureThread(c, pid, tid, name)) && Grows(c, EnsureThread(c, pid, tid, name))
  {
    hide Inv;
    var p := EnsureProcess(c, pid, None);
    ProcessKeeps(c, pid, None);
    KnownDescribed(p, Process(pid));
    if Thread(tid, pid) !in c.tracks {
      DescribeKeeps(p, Thread(tid, pid), p.tracks[Process(pid)], ThreadTrack(pid, tid), name);
    } else if name.Some? {
      KnownDescribed(p, Thread(tid, pid));
      AgainKeeps(p, Thread(tid, pid), name);
    }
  }

  /** Describing a track again with what is already known of it. */
  lemma AgainKeeps(c: Conv, id: TrackId, name: Option<string>)
    requires Inv(c) && id in c.tracks
    ensures c.tracks[id] in Described(c.log)
    ensures var node := Described(c.log)[c.tracks[id]];
      Inv(Append(c, [Descriptor(c.tracks[id], node.parent, node.what, name)]))
  {
    assert Bound(c, Described(c.log), id);
    var node := Described(c.log)[c.tracks[id]];
    var p := Descriptor(c.tracks[id], node.parent, node.what, name);
    NodeFits(c.log, c.tracks[id]);
    LogMore(c.log, p);
    assert Described(c.log + [p]) == Described(c.log);
    forall k | k in c.tracks ensures Bound(Append(c, [p]), Described(c.log), k) {
      assert Bound(c, Described(c.log), k);
    }
  }

  /** Parents come before and below their children. */
  predicate IsForest(f: Forest) {
    forall u | u in f :: 0 < u && (f[u].parent == 0 || (f[u].parent in f && f[u].parent < u))
  }

  lemma {:induction false} LogForest(log: seq<Packet>)
    requires DefinedBeforeUse(log)
    ensures IsForest(Described(log))
    decreases |log|
  {
    if log != [] {
      LogForest(log[..|log| - 1]);
    }
  }

  lemma NodeFits(log: seq<Packet>, u: nat)
    requires DefinedBeforeUse(log) && u in Described(log)
    ensures var node := Described(log)[u];
      0 < u && (node.parent == 0 || (node.parent in Described(log) && node.parent < u))
  {
    LogForest(log);
  }

  lemma EnsureKeeps(c: Conv, id: TrackId)
    requires Inv(c)
    ensures Inv(Ensure(c, id)) && Grows(c, Ensure(c, id))
  {
    hide Inv, EnsureThread, EnsureProcess;
    match id {
      case Thread(tid, pid) => ThreadKeeps(c, pid, tid, None);
      case Process(pid) => ProcessKeeps(c, pid, None);
      case Cpu(_) =>
      case Custom(_) =>
      case Counter(_) =>
    }
  }

  lemma TrackKeeps(c: Conv, m: Message)
    requires Inv(c) && m.Track?
    ensures Inv(OnTrack(c, m)) && Grows(c, OnTrack(c, m))
  {
    hide Inv, EnsureThread, EnsureProcess, Ensure, Describe;
    if m.id !in c.tracks {
      var p := if m.parent.Some? then Ensure(c, m.parent.value) else c;
      var parent := if m.parent.Some? then UuidOr0(p, m.parent.value) else 0;
      if m.parent.Some? {
        EnsureKeeps(c, m.parent.value);
        if m.parent.value in p.tracks {
          KnownDescribed(p, m.parent.value);
        }
        EnsureOnly(c, m.parent.value, m.id);
      }
      match m.id {
        case Cpu(_) => DescribeKeeps(p, m.id, parent, GenericTrack, Some(m.name));
        case Custom(_) => DescribeKeeps(p, m.id, parent, GenericTrack, Some(m.name));
        case Counter(_) => DescribeKeeps(p, m.id, parent, CounterTrack(m.unit), Some(m.name));
        case Thread(tid, pid) => ThreadKeeps(p, pid, tid, Some(m.name));
        case Process(pid) => ProcessKeeps(p, pid, Some(m.name));
      }
    }
  }

  /** Making a track known adds only threads and processes. */
  lemma EnsureOnly(c: Conv, id: TrackId, other: TrackId)
    ensures other !in c.tracks && !other.Thread? && !other.Process? ==> other !in Ensure(c, id).tracks
  {
  }

  lemma EventKeeps(c: Conv, p: Packet)
    requires Inv(c) && !p.Descriptor? && p.uuid in Described(c.log)
    ensures Inv(Append(c, [p]))
  {
    LogMore(c.log, p);
    forall k | k in c.tracks ensures Bound(Append(c, [p]), Described(c.log), k) {
      assert Bound(c, Described(c.log), k);
    }
  }

  lemma StepKeeps(c: Conv, m: Message)
    requires Inv(c)
    ensures Inv(Step(c, m)) && Grows(c, Step(c, m))
  {
    hide Inv, Ensure, OnTrack, Described;
    match m {
      case Track(_, _, _, _) => TrackKeeps(c, m);
      case Span(id, name, start, end) =>
        var d := Ensure(c, id);
        EnsureKeeps(c, id);
        if id in d.tracks {
          KnownDescribed(d, id);
          var u := d.tracks[id];
          var d1 := Append(d, [SliceBegin(u, name, start)]);
          EventKeeps(d, SliceBegin(u, name, start));
          KnownDescribed(d1, id);
          EventKeeps(d1, SliceEnd(u, end));
          assert d.log + [SliceBegin(u, name, start)] + [SliceEnd(u, end)]
            == d.log + [SliceBegin(u, name, start), SliceEnd(u, end)];
        }
      case Instant(id, name, at) =>
        var d := Ensure(c, id);
        EnsureKeeps(c, id);
        if id in d.tracks {
          KnownDescribed(d, id);
          EventKeeps(d, InstantEvent(d.tracks[id], name, at));
        }
      case CounterValue(id, value, at) =>
        if id in c.tracks {
          KnownDescribed(c, id);
          EventKeeps(c, CounterEvent(c.tracks[id], value, at));
        }
    }
  }

  /** After any sequence of messages the track map is injective, every event
      refers to a track described before it, every parent is 0 or an earlier
      smaller uuid, and each known track is described as what it is, threads
      under their process. */
  lemma {:induction false} RunKeeps(ms: seq<Message>)
    ensures Inv(Run(ms))
    decreases |ms|
  {
    hide Step;
    if ms != [] {
      RunKeeps(ms[..|ms| - 1]);
      StepKeeps(Run(ms[..|ms| - 1]), ms[|ms| - 1]);
    }
  }

  /** A uuid, once given, is never taken back or given to another track. */
  lemma {:induction false} NeverReassigned(ms: seq<Message>, n: nat)
    requires n <= |ms|
    ensures Grows(Run(ms[..n]), Run(ms))
    decreases |ms|
  {
    hide Step, Inv;
    if n == |ms| {
      assert ms[..n] == ms;
    } else {
      var init := ms[..|ms| - 1];
      NeverReassigned(init, n);
      assert init[..n] == ms[..n];
      RunKeeps(init);
      StepKeeps(Run(init), ms[|ms| - 1]);
    }
  }

  /** The top of a track's chain of parents; that it exists makes the described
      tracks a forest. */
  function Root(f: Forest, u: nat): (r: nat)
    requires IsForest(f) && u in f
    ensures r in f && f[r].parent == 0 && r <= u
    decreases u
  {
    if f[u].parent == 0 then u else Root(f, f[u].parent)
  }

  /** Every thread's track hangs directly below its process's track, which is
      the root of its tree. */
  lemma ThreadsUnderProcess(ms: seq<Message>, tid: int, pid: int)
    requires Thread(tid, pid) in Run(ms).tracks
    ensures var c := Run(ms);
      && Process(pid) in c.tracks && IsForest(Described(c.log))
      && c.tracks[Thread(tid, pid)] in Described(c.log)
      && Root(Described(c.log), c.tracks[Thread(tid, pid)]) == c.tracks[Process(pid)]
  {
    var c := Run(ms);
    RunKeeps(ms);
    LogForest(c.log);
    KnownDescribed(c, Thread(tid, pid));
    KnownDescribed(c, Process(pid));
    hide Run;
    ParentRoot(Described(c.log), c.tracks[Thread(tid, pid)]);
  }

  lemma ParentRoot(f: Forest, u: nat)
    requires IsForest(f) && u in f && f[u].parent != 0 && f[f[u].parent].parent == 0
    ensures Root(f, u) == f[u].parent
  {
  }
}
