/** What a reader of the packet log gets back: exactly the messages that could be
    shown, in order, each on its own track. */
module TrackReadback {
  import opened Wrappers
  import opened TrackConversion

  // --------------------------------------------------------- which tracks are known

  /** The tracks a thread or process brings with it. */
  function Implied(id: TrackId): set<TrackId> {
    match id
    case Thread(_, pid) => {id, Process(pid)}
    case Process(_) => {id}
    case _ => {}
  }

  /** The tracks known after `ms`, from the messages alone. */
  function Known(ms: seq<Message>): set<TrackId> {
    if ms == [] then {}
    else
      var k, m := Known(ms[..|ms| - 1]), ms[|ms| - 1];
      if m.CounterValue? || m.id in k then k
      else if m.Track? then
        k + {m.id} + Implied(m.id) + (if m.parent.Some? && m.parent.value !in k then Implied(m.parent.value) else {})
      else k + Implied(m.id)
  }

  lemma ThreadKeys(c: Conv, pid: int, tid: int, name: Option<string>)
    requires name.Some? || Thread(tid, pid) !in c.tracks
    ensures EnsureThread(c, pid, tid, name).tracks.Keys == c.tracks.Keys + Implied(Thread(tid, pid))
  {
  }

  lemma ProcessKeys(c: Conv, pid: int, name: Option<string>)
    ensures EnsureProcess(c, pid, name).tracks.Keys == c.tracks.Keys + {Process(pid)}
  {
  }

  lemma EnsureKeys(c: Conv, id: TrackId)
    ensures Ensure(c, id).tracks.Keys
      == if id in c.tracks then c.tracks.Keys else c.tracks.Keys + Implied(id)
  {
    hide EnsureThread, EnsureProcess;
    match id {
      case Thread(tid, pid) => if id !in c.tracks { ThreadKeys(c, pid, tid, None); }
      case Process(pid) => ProcessKeys(c, pid, None);
      case Cpu(_) =>
      case Custom(_) =>
      case Counter(_) =>
    }
  }

  lemma TrackKeys(c: Conv, m: Message)
    requires m.Track? && m.id !in c.tracks
    ensures OnTrack(c, m).tracks.Keys == c.tracks.Keys + {m.id} + Implied(m.id)
      + (if m.parent.Some? && m.parent.value !in c.tracks then Implied(m.parent.value) else {})
  {
    hide Ensure, EnsureThread, EnsureProcess;
    var p := if m.parent.Some? then Ensure(c, m.parent.value) else c;
    if m.parent.Some? {
      EnsureKeys(c, m.parent.value);
    }
    match m.id {
      case Thread(tid, pid) => ThreadKeys(p, pid, tid, Some(m.name));
      case Process(pid) => ProcessKeys(p, pid, Some(m.name));
      case Cpu(_) =>
      case Custom(_) =>
      case Counter(_) =>
    }
  }

  lemma StepKnown(c: Conv, m: Message)
    ensures Step(c, m).tracks.Keys ==
      (var k := c.tracks.Keys;
       if m.CounterValue? || m.id in k then k
       else if m.Track? then
         k + {m.id} + Implied(m.id) + (if m.parent.Some? && m.parent.value !in k then Implied(m.parent.value) else {})
       else k + Implied(m.id))
  {
    EnsureKeys(c, m.id);
    if m.Track? && m.id !in c.tracks {
      TrackKeys(c, m);
    }
    hide Ensure, Implied;
  }

  /** The converter knows exactly the tracks the messages so far imply. */
  lemma {:induction false} KnownExactly(ms: seq<Message>)
    ensures Run(ms).tracks.Keys == Known(ms)
    decreases |ms|
  {
    hide Step;
    if ms != [] {
      var init := ms[..|ms| - 1];
      KnownExactly(init);
      StepKnown(Run(init), ms[|ms| - 1]);
    }
  }

  // ------------------------------------------------------------- reading back

  /** The events that can be shown: spans and instants of threads and processes
      always, anything else once its track is known. */
  function Shown(ms: seq<Message>): (r: seq<Message>)
    ensures forall i | 0 <= i < |r| :: !r[i].Track?
  {
    if ms == [] then []
    else
      var before, m := Shown(ms[..|ms| - 1]), ms[|ms| - 1];
      if m.Track? || m.id !in Known(ms) then before else before + [m]
  }

  function Item(tracks: map<TrackId, nat>, m: Message): Item
    requires !m.Track?
  {
    var u := if m.id in tracks then tracks[m.id] else 0;
    match m
    case Span(_, name, start, end) => SpanItem(u, name, start, end)
    case Instant(_, name, at) => InstantItem(u, name, at)
    case CounterValue(_, value, at) => CounterItem(u, value, at)
  }

  function Items(tracks: map<TrackId, nat>, ms: seq<Message>): seq<Item>
    requires forall i | 0 <= i < |ms| :: !ms[i].Track?
  {
    if ms == [] then [] else Items(tracks, ms[..|ms| - 1]) + [Item(tracks, ms[|ms| - 1])]
  }

  lemma DecodeDescriptor(log: seq<Packet>, p: Packet)
    requires p.Descriptor?
    ensures Decode(log + [p]) == Decode(log)
  {
    assert (log + [p])[..|log|] == log;
  }

  lemma DecodeProcess(c: Conv, pid: int, name: Option<string>)
    ensures Decode(EnsureProcess(c, pid, name).log) == Decode(c.log)
  {
    hide Decode;
    DecodeDescriptor(c.log, Descriptor(c.next, 0, ProcessTrack(pid), name));
  }

  lemma DecodeThread(c: Conv, pid: int, tid: int, name: Option<string>)
    ensures Decode(EnsureThread(c, pid, tid, name).log) == Decode(c.log)
  {
    hide Decode, EnsureProcess;
    var p := EnsureProcess(c, pid, None);
    var parent := p.tracks[Process(pid)];
    DecodeProcess(c, pid, None);
    DecodeDescriptor(p.log, Descriptor(p.next, parent, ThreadTrack(pid, tid), name));
    if Thread(tid, pid) in c.tracks {
      DecodeDescriptor(p.log, Descriptor(c.tracks[Thread(tid, pid)], parent, ThreadTrack(pid, tid), name));
    }
  }

  lemma DecodeEnsure(c: Conv, id: TrackId)
    ensures Decode(Ensure(c, id).log) == Decode(c.log)
  {
    hide Decode, EnsureProcess, EnsureThread;
    match id {
      case Thread(tid, pid) => DecodeThread(c, pid, tid, None);
      case Process(pid) => DecodeProcess(c, pid, None);
      case Cpu(_) =>
      case Custom(_) =>
      case Counter(_) =>
    }
  }

  lemma DecodeTrack(c: Conv, m: Message)
    requires m.Track?
    ensures Decode(OnTrack(c, m).log) == Decode(c.log)
  {
    hide Decode, EnsureProcess, EnsureThread, Ensure;
    var p := if m.parent.Some? then Ensure(c, m.parent.value) else c;
    var parent := if m.parent.Some? then UuidOr0(p, m.parent.value) else 0;
    if m.parent.Some? {
      DecodeEnsure(c, m.parent.value);
    }
    match m.id {
      case Cpu(_) => DecodeDescriptor(p.log, Descriptor(p.next, parent, GenericTrack, Some(m.name)));
      case Custom(_) => DecodeDescriptor(p.log, Descriptor(p.next, parent, GenericTrack, Some(m.name)));
      case Counter(_) => DecodeDescriptor(p.log, Descriptor(p.next, parent, CounterTrack(m.unit), Some(m.name)));
      case Thread(tid, pid) => DecodeThread(p, pid, tid, Some(m.name));
      case Process(pid) => DecodeProcess(p, pid, Some(m.name));
    }
  }

  lemma DecodeSlice(log: seq<Packet>, u: nat, name: string, start: nat, end: nat)
    ensures Decode(log + [SliceBegin(u, name, start), SliceEnd(u, end)])
      == With(Decode(log), SpanItem(u, name, start, end))
  {
    assert (log + [SliceBegin(u, name, start), SliceEnd(u, end)])[..|log|] == log;
  }

  lemma DecodeOne(log: seq<Packet>, p: Packet)
    ensures p.InstantEvent? ==> Decode(log + [p]) == With(Decode(log), InstantItem(p.uuid, p.name, p.at))
    ensures p.CounterEvent? ==> Decode(log + [p]) == With(Decode(log), CounterItem(p.uuid, p.value, p.at))
  {
    assert (log + [p])[..|log|] == log;
  }

  /** One message adds its own event to what is read back, or nothing. */
  lemma StepDecodes(c: Conv, m: Message)
    ensures Decode(Step(c, m).log)
      == if m.Track? || m.id !in Step(c, m).tracks then Decode(c.log)
         else With(Decode(c.log), Item(Step(c, m).tracks, m))
  {
    hide Decode, Ensure, OnTrack;
    match m {
      case Track(_, _, _, _) => DecodeTrack(c, m);
      case Span(id, name, start, end) =>
        DecodeEnsure(c, id);
        var d := Ensure(c, id);
        if id in d.tracks {
          DecodeSlice(d.log, d.tracks[id], name, start, end);
        }
      case Instant(id, name, at) =>
        DecodeEnsure(c, id);
        var d := Ensure(c, id);
        if id in d.tracks {
          DecodeOne(d.log, InstantEvent(d.tracks[id], name, at));
        }
      case CounterValue(id, value, at) =>
        if id in c.tracks {
          DecodeOne(c.log, CounterEvent(c.tracks[id], value, at));
        }
    }
  }

  lemma {:induction false} ShownKnown(ms: seq<Message>)
    ensures forall i | 0 <= i < |Shown(ms)| :: Shown(ms)[i].id in Known(ms)
    decreases |ms|
  {
    if ms != [] {
      ShownKnown(ms[..|ms| - 1]);
    }
  }

  lemma {:induction false} ItemsStable(a: map<TrackId, nat>, b: map<TrackId, nat>, ms: seq<Message>)
    requires forall i | 0 <= i < |ms| :: !ms[i].Track?
    requires forall i | 0 <= i < |ms| :: ms[i].id in a && ms[i].id in b && a[ms[i].id] == b[ms[i].id]
    ensures Items(a, ms) == Items(b, ms)
    decreases |ms|
  {
    if ms != [] {
      ItemsStable(a, b, ms[..|ms| - 1]);
    }
  }

  /** Reading the log of any run gives exactly the events that could be shown, in
      the order of the messages, each on the uuid its track ends up with; in
      particular every slice begin is closed at once on its own track. */
  lemma {:induction false} EventsReadBack(ms: seq<Message>)
    ensures Decode(Run(ms).log) == Some(Items(Run(ms).tracks, Shown(ms)))
    decreases |ms|
  {
    if ms != [] {
      hide Step, Decode, Inv, Item, Known;
      var init, m := ms[..|ms| - 1], ms[|ms| - 1];
      var c, d := Run(init), Run(ms);
      EventsReadBack(init);
      KnownExactly(init);
      KnownExactly(ms);
      StepDecodes(c, m);
      RunKeeps(init);
      StepKeeps(c, m);
      ShownKnown(init);
      ItemsStable(c.tracks, d.tracks, Shown(init));
      if Shown(ms) == Shown(init) + [m] {
        assert Shown(ms)[..|Shown(init)|] == Shown(init);
      }
    }
  }

  /** Slices are well bracketed wherever the log can be read. */
  lemma {:induction false} SlicesPaired(log: seq<Packet>, i: nat)
    requires Decode(log).Some? && i < |log|
    ensures log[i].SliceBegin? ==> i + 1 < |log| && log[i + 1].SliceEnd? && log[i + 1].uuid == log[i].uuid
    ensures log[i].SliceEnd? ==> i > 0 && log[i - 1].SliceBegin? && log[i - 1].uuid == log[i].uuid
    decreases |log|
  {
    var n := |log|;
    if log[n - 1].SliceEnd? {
      if i < n - 2 {
        SlicesPaired(log[..n - 2], i);
      }
    } else if i < n - 1 {
      SlicesPaired(log[..n - 1], i);
    }
  }
}
