/** What the packet log says of a track: its parent, its kind and its title are
    those the first message about it asked for. */
module TrackLabels {
  import opened Wrappers
  import opened TrackConversion
  import opened TrackReadback

  /** The parent, the kind and the title a track is to have. */
  datatype Wanted = Wanted(parent: Option<TrackId>, what: What, title: Option<string>)

  /** What a message asks for the track it introduces. A parent that is neither
      known nor a thread or process is none; a process that its own parent brings
      along has no title. */
  function Asked(known: set<TrackId>, m: Message): Wanted
    requires m.Track?
  {
    var possible := m.parent.Some? && (m.parent.value in known || Implied(m.parent.value) != {});
    var parent := if possible then m.parent else None;
    match m.id
    case Cpu(_) => Wanted(parent, GenericTrack, Some(m.name))
    case Custom(_) => Wanted(parent, GenericTrack, Some(m.name))
    case Counter(_) => Wanted(parent, CounterTrack(m.unit), Some(m.name))
    case Thread(tid, pid) => Wanted(Some(Process(pid)), ThreadTrack(pid, tid), Some(m.name))
    case Process(pid) =>
      Wanted(None, ProcessTrack(pid),
             if m.parent.Some? && m.id in Implied(m.parent.value) then None else Some(m.name))
  }

  /** What a thread or process is when something else brings it along. */
  function Brought(id: TrackId): Wanted {
    match id
    case Thread(tid, pid) => Wanted(Some(Process(pid)), ThreadTrack(pid, tid), None)
    case Process(pid) => Wanted(None, ProcessTrack(pid), None)
    case _ => Wanted(None, GenericTrack, None)
  }

  function NewlyWanted(known: set<TrackId>, m: Message, id: TrackId): Wanted {
    if m.Track? && m.id == id then Asked(known, m) else Brought(id)
  }

  /** What the message that made a track known asked for it. */
  function WantedFor(ms: seq<Message>, id: TrackId): Wanted {
    if ms == [] then Brought(id)
    else
      var init := ms[..|ms| - 1];
      if id in Known(init) then WantedFor(init, id) else NewlyWanted(Known(init), ms[|ms| - 1], id)
  }

  // -------------------------------------------------------------- the last word

  /** The last descriptor of a uuid. */
  function Label(log: seq<Packet>, u: nat): Option<Packet> {
    if log == [] then None
    else
      var p := log[|log| - 1];
      if p.Descriptor? && p.uuid == u then Some(p) else Label(log[..|log| - 1], u)
  }

  lemma LabelMore(log: seq<Packet>, p: Packet, u: nat)
    ensures Label(log + [p], u) == if p.Descriptor? && p.uuid == u then Some(p) else Label(log, u)
  {
    assert (log + [p])[..|log|] == log;
  }

  function Uuid(c: Conv, id: Option<TrackId>): nat {
    if id.Some? then UuidOr0(c, id.value) else 0
  }

  /** The log says of the track what is wanted. */
  predicate Says(c: Conv, id: TrackId, w: Wanted) {
    && id in c.tracks
    && Label(c.log, c.tracks[id]) == Some(Descriptor(c.tracks[id], Uuid(c, w.parent), w.what, w.title))
  }

  predicate Below(c: Conv) {
    forall id | id in c.tracks :: c.tracks[id] < c.next
  }

  /** Tracks keep their uuid and label. */
  predicate Keeps(a: Conv, b: Conv, id: TrackId) {
    id in a.tracks ==>
      id in b.tracks && b.tracks[id] == a.tracks[id] && Label(b.log, b.tracks[id]) == Label(a.log, a.tracks[id])
  }

  /** From `a` to `b` a track known before stays, and a new one is as `w` has it. */
  predicate Comes(a: Conv, b: Conv, id: TrackId, w: Wanted) {
    Keeps(a, b, id) && Below(b) && (id in b.tracks && id !in a.tracks ==> Says(b, id, w))
  }

  lemma DescribeComes(c: Conv, id: TrackId, parent: nat, what: What, name: Option<string>, other: TrackId)
    requires Below(c) && id !in c.tracks
    ensures var r := Describe(c, id, parent, what, name);
      && Below(r) && Keeps(c, r, other) && r.tracks.Keys == c.tracks.Keys + {id}
      && id in r.tracks && Label(r.log, r.tracks[id]) == Some(Descriptor(r.tracks[id], parent, what, name))
  {
    hide Label;
    LabelMore(c.log, Descriptor(c.next, parent, what, name), c.next);
    if other in c.tracks {
      LabelMore(c.log, Descriptor(c.next, parent, what, name), c.tracks[other]);
    }
  }

  lemma ProcessComes(c: Conv, pid: int, name: Option<string>, id: TrackId)
    requires Below(c)
    ensures Comes(c, EnsureProcess(c, pid, name), id, Wanted(None, ProcessTrack(pid), name))
    ensures Process(pid) in EnsureProcess(c, pid, name).tracks
    ensures EnsureProcess(c, pid, name).tracks.Keys == c.tracks.Keys + {Process(pid)}
  {
    hide Label, Describe;
    if Process(pid) !in c.tracks {
      DescribeComes(c, Process(pid), 0, ProcessTrack(pid), name, id);
    }
  }

  /** A thread that is new, with its process. */
  lemma ThreadComes(c: Conv, pid: int, tid: int, name: Option<string>, id: TrackId)
    requires Below(c) && Thread(tid, pid) !in c.tracks
    ensures Comes(c, EnsureThread(c, pid, tid, name), id,
                  if id == Thread(tid, pid) then Wanted(Some(Process(pid)), ThreadTrack(pid, tid), name)
                  else Brought(id))
  {
    hide Label, Describe, EnsureProcess;
    var p := EnsureProcess(c, pid, None);
    ProcessComes(c, pid, None, id);
    ProcessComes(c, pid, None, Process(pid));
    DescribeComes(p, Thread(tid, pid), p.tracks[Process(pid)], ThreadTrack(pid, tid), name, id);
    DescribeComes(p, Thread(tid, pid), p.tracks[Process(pid)], ThreadTrack(pid, tid), name, Process(pid));
  }

  lemma EnsureComes(c: Conv, k: TrackId, id: TrackId)
    requires Below(c)
    ensures Comes(c, Ensure(c, k), id, Brought(id))
    ensures Ensure(c, k).tracks.Keys == if k in c.tracks then c.tracks.Keys else c.tracks.Keys + Implied(k)
  {
    hide Label, EnsureThread, EnsureProcess;
    EnsureKeys(c, k);
    match k {
      case Thread(tid, pid) => if k !in c.tracks { ThreadComes(c, pid, tid, None, id); }
      case Process(pid) => ProcessComes(c, pid, None, id);
      case Cpu(_) =>
      case Custom(_) =>
      case Counter(_) =>
    }
  }

  /** A thread named in the message that already brought it along as its own
      parent is described once more, with its title. */
  lemma AgainComes(c: Conv, pid: int, tid: int, name: string, id: TrackId)
    requires Below(c) && Thread(tid, pid) in c.tracks && Process(pid) in c.tracks && Injective(c.tracks)
    ensures var r := EnsureThread(c, pid, tid, Some(name));
      && Below(r) && r.tracks == c.tracks
      && Says(r, Thread(tid, pid), Wanted(Some(Process(pid)), ThreadTrack(pid, tid), Some(name)))
      && (id != Thread(tid, pid) ==> Keeps(c, r, id))
  {
    hide Label;
    var p := Descriptor(c.tracks[Thread(tid, pid)], c.tracks[Process(pid)], ThreadTrack(pid, tid), Some(name));
    LabelMore(c.log, p, c.tracks[Thread(tid, pid)]);
    if id in c.tracks {
      LabelMore(c.log, p, c.tracks[id]);
    }
  }

  /** A track brought along stays as it is, because its process does. */
  lemma BroughtStays(a: Conv, b: Conv, id: TrackId)
    requires Says(a, id, Brought(id)) && Keeps(a, b, id)
    requires id.Thread? ==> Process(id.pid) in a.tracks && Keeps(a, b, Process(id.pid))
    ensures Says(b, id, Brought(id))
  {
  }

  /** Only threads and processes are brought along, threads with their process. */
  lemma ImpliedKinds(k: TrackId, id: TrackId)
    requires id in Implied(k)
    ensures id.Thread? || id.Process?
    ensures id.Thread? ==> Process(id.pid) in Implied(k)
  {
  }

  /** The tracks a message's parent brings along. */
  function WithParent(c: Conv, m: Message): Conv
    requires m.Track?
  {
    if m.parent.Some? then Ensure(c, m.parent.value) else c
  }

  lemma ParentComes(c: Conv, m: Message, id: TrackId)
    requires Below(c) && m.Track?
    ensures var p := WithParent(c, m);
      && Comes(c, p, id, Brought(id))
      && (id in p.tracks && id !in c.tracks ==>
            && m.parent.Some? && id in Implied(m.parent.value) && (id.Thread? || id.Process?)
            && (id.Thread? ==> Process(id.pid) in p.tracks))
  {
    hide Label, Ensure, Implied;
    if m.parent.Some? {
      EnsureComes(c, m.parent.value, id);
      if id in Implied(m.parent.value) {
        ImpliedKinds(m.parent.value, id);
      }
    }
  }

  /** The second half of a track message keeps what the first half brought. */
  lemma AfterParent(c: Conv, m: Message, r: Conv, id: TrackId)
    requires Below(c) && m.Track? && Below(r)
    requires forall k :: k != m.id ==> Keeps(WithParent(c, m), r, k)
    requires id != m.id && id in WithParent(c, m).tracks
    requires id.Thread? ==> m.id != Process(id.pid) || Keeps(WithParent(c, m), r, m.id)
    ensures Comes(c, r, id, Brought(id))
  {
    hide Label, WithParent;
    var p := WithParent(c, m);
    ParentComes(c, m, id);
    assert Keeps(p, r, id);
    if id !in c.tracks {
      if id.Thread? {
        assert Keeps(p, r, Process(id.pid));
      }
      BroughtStays(p, r, id);
    }
  }

  lemma GenericComes(c: Conv, m: Message, id: TrackId)
    requires Below(c) && m.Track? && m.id !in c.tracks && !m.id.Thread? && !m.id.Process?
    ensures Comes(c, OnTrack(c, m), id, NewlyWanted(c.tracks.Keys, m, id))
  {
    hide Label, Ensure, Describe, Implied;
    var p := WithParent(c, m);
    var parent := if m.parent.Some? then UuidOr0(p, m.parent.value) else 0;
    var what := if m.id.Counter? then CounterTrack(m.unit) else GenericTrack;
    var r := OnTrack(c, m);
    assert r == Describe(p, m.id, parent, what, Some(m.name));
    ParentComes(c, m, m.id);
    ParentComes(c, m, id);
    forall k ensures Keeps(p, r, k) {
      DescribeComes(p, m.id, parent, what, Some(m.name), k);
    }
    DescribeComes(p, m.id, parent, what, Some(m.name), m.id);
    if id == m.id {
      ParentUuid(c, m, r);
    } else if id in p.tracks {
      AfterParent(c, m, r, id);
    }
  }

  /** The parent a generic track is given is the one asked for, if it can be had. */
  lemma ParentUuid(c: Conv, m: Message, r: Conv)
    requires m.Track? && m.id !in WithParent(c, m).tracks && !m.id.Thread? && !m.id.Process?
    requires r.tracks.Keys == WithParent(c, m).tracks.Keys + {m.id}
    requires forall k :: Keeps(WithParent(c, m), r, k)
    ensures Uuid(r, Asked(c.tracks.Keys, m).parent)
         == if m.parent.Some? then UuidOr0(WithParent(c, m), m.parent.value) else 0
  {
    hide Label, Ensure;
    if m.parent.Some? {
      EnsureKeys(c, m.parent.value);
      assert Keeps(WithParent(c, m), r, m.parent.value);
    }
  }

  lemma ProcessTrackComes(c: Conv, m: Message, id: TrackId)
    requires Below(c) && m.Track? && m.id !in c.tracks && m.id.Process? && Housed(c)
    ensures Comes(c, OnTrack(c, m), id, NewlyWanted(c.tracks.Keys, m, id))
  {
    hide Label, Ensure, EnsureProcess, Implied;
    var p, r := WithParent(c, m), OnTrack(c, m);
    ParentComes(c, m, m.id);
    ParentComes(c, m, id);
    forall k ensures Keeps(p, r, k) {
      ProcessComes(p, m.id.pid, Some(m.name), k);
    }
    ProcessComes(p, m.id.pid, Some(m.name), m.id);
    ProcessComes(p, m.id.pid, Some(m.name), id);
    if m.id in p.tracks {
      SameProcess(p, m.id.pid, m.name);
    } else if m.parent.Some? {
      EnsureComes(c, m.parent.value, m.id);
      if m.parent.value in c.tracks {
        NotBrought(c, m.parent.value, m.id.pid);
      }
    }
    if id != m.id && id in p.tracks {
      AfterParent(c, m, r, id);
    }
  }

  /** Every known thread has its process. */
  predicate Housed(c: Conv) {
    forall id | id in c.tracks :: id.Thread? ==> Process(id.pid) in c.tracks
  }

  lemma NotBrought(c: Conv, k: TrackId, pid: int)
    requires Housed(c) && Process(pid) !in c.tracks && k in c.tracks
    ensures Process(pid) !in Implied(k)
  {
  }

  lemma SameProcess(c: Conv, pid: int, name: string)
    requires Process(pid) in c.tracks
    ensures EnsureProcess(c, pid, Some(name)) == c
  {
  }

  lemma ThreadTrackComes(c: Conv, m: Message, id: TrackId)
    requires Below(c) && m.Track? && m.id !in c.tracks && m.id.Thread? && Injective(WithParent(c, m).tracks)
    ensures Comes(c, OnTrack(c, m), id, NewlyWanted(c.tracks.Keys, m, id))
  {
    hide Label, Ensure, EnsureThread, Implied;
    var p, r := WithParent(c, m), OnTrack(c, m);
    ParentComes(c, m, m.id);
    ParentComes(c, m, id);
    if m.id in p.tracks {
      forall k ensures k != m.id ==> Keeps(p, r, k) {
        AgainComes(p, m.id.pid, m.id.tid, m.name, k);
      }
      AgainComes(p, m.id.pid, m.id.tid, m.name, id);
    } else {
      forall k ensures Keeps(p, r, k) {
        ThreadComes(p, m.id.pid, m.id.tid, Some(m.name), k);
      }
      ThreadComes(p, m.id.pid, m.id.tid, Some(m.name), id);
    }
    if id != m.id && id in p.tracks {
      AfterParent(c, m, r, id);
    }
  }

  // ------------------------------------------------------------------ whole runs

  lemma InvBelow(c: Conv)
    requires Inv(c)
    ensures Below(c) && Injective(c.tracks) && Housed(c)
  {
    forall id | id in c.tracks ensures c.tracks[id] < c.next && (id.Thread? ==> Process(id.pid) in c.tracks) {
      assert Bound(c, Described(c.log), id);
    }
  }

  lemma TrackComes(c: Conv, m: Message, id: TrackId)
    requires Inv(c) && m.Track?
    ensures Comes(c, OnTrack(c, m), id, NewlyWanted(c.tracks.Keys, m, id))
  {
    hide Inv, Label, NewlyWanted, Ensure, Injective, Housed;
    InvBelow(c);
    if m.id in c.tracks {
      Stays(c, id, NewlyWanted(c.tracks.Keys, m, id));
    } else if m.id.Thread? {
      if m.parent.Some? {
        EnsureKeeps(c, m.parent.value);
        InvBelow(Ensure(c, m.parent.value));
      }
      ThreadTrackComes(c, m, id);
    } else if m.id.Process? {
      ProcessTrackComes(c, m, id);
    } else {
      GenericComes(c, m, id);
    }
  }

  lemma Stays(c: Conv, id: TrackId, w: Wanted)
    requires Below(c)
    ensures Comes(c, c, id, w)
  {
  }

  lemma EventComes(c: Conv, d: Conv, p: Packet, id: TrackId, w: Wanted)
    requires Comes(c, d, id, w) && !p.Descriptor?
    ensures Comes(c, Append(d, [p]), id, w)
  {
    hide Label;
    if id in d.tracks {
      LabelMore(d.log, p, d.tracks[id]);
    }
  }

  lemma StepComes(c: Conv, m: Message, id: TrackId)
    requires Inv(c)
    ensures Comes(c, Step(c, m), id, NewlyWanted(c.tracks.Keys, m, id))
  {
    hide Inv, Comes, Ensure, OnTrack;
    var w := NewlyWanted(c.tracks.Keys, m, id);
    InvBelow(c);
    Stays(c, id, w);
    if m.Track? {
      TrackComes(c, m, id);
    } else {
      EnsureComes(c, m.id, id);
      var d := Ensure(c, m.id);
      if m.CounterValue? {
        if m.id in c.tracks {
          EventComes(c, c, CounterEvent(c.tracks[m.id], m.value, m.at), id, w);
        }
      } else if m.id in d.tracks {
        if m.Instant? {
          EventComes(c, d, InstantEvent(d.tracks[m.id], m.name, m.at), id, w);
        } else {
          var u := d.tracks[m.id];
          EventComes(c, d, SliceBegin(u, m.name, m.start), id, w);
          EventComes(c, Append(d, [SliceBegin(u, m.name, m.start)]), SliceEnd(u, m.end), id, w);
          assert d.log + [SliceBegin(u, m.name, m.start)] + [SliceEnd(u, m.end)]
            == d.log + [SliceBegin(u, m.name, m.start), SliceEnd(u, m.end)];
        }
      }
    }
  }

  /** After any sequence of messages, the last descriptor of every known track
      gives the parent, the kind and the title that the message which introduced
      the track asked for. */
  lemma {:induction false} LabelledAsAsked(ms: seq<Message>, id: TrackId)
    requires id in Known(ms)
    ensures Says(Run(ms), id, WantedFor(ms, id))
    ensures var p := WantedFor(ms, id).parent; p.Some? ==> p.value in Known(ms)
    decreases |ms|
  {
    hide Step, Inv, Known, Label, NewlyWanted;
    NoneKnown(ms);
    var init, m := ms[..|ms| - 1], ms[|ms| - 1];
    RunKeeps(init);
    KnownExactly(init);
    KnownExactly(ms);
    StepComes(Run(init), m, id);
    StepKeeps(Run(init), m);
    if id in Known(init) {
      LabelledAsAsked(init, id);
    } else {
      ParentKnown(ms, id);
    }
  }

  lemma NoneKnown(ms: seq<Message>)
    ensures ms == [] ==> Known(ms) == {}
  {
  }

  /** The parent of a new track is known with it. */
  lemma ParentKnown(ms: seq<Message>, id: TrackId)
    requires ms != [] && id in Known(ms) && id !in Known(ms[..|ms| - 1])
    ensures var p := NewlyWanted(Known(ms[..|ms| - 1]), ms[|ms| - 1], id).parent; p.Some? ==> p.value in Known(ms)
  {
    hide Implied;
    var k, m := Known(ms[..|ms| - 1]), ms[|ms| - 1];
    ImpliesItself(m.id);
    WithProcess(m.id, id);
    if m.Track? && m.parent.Some? {
      ImpliesItself(m.parent.value);
      WithProcess(m.parent.value, id);
    }
  }

  lemma ImpliesItself(id: TrackId)
    ensures Implied(id) != {} ==> id in Implied(id)
    ensures id.Thread? ==> Process(id.pid) in Implied(id)
  {
  }

  lemma WithProcess(k: TrackId, id: TrackId)
    ensures id in Implied(k) && id.Thread? ==> Process(id.pid) in Implied(k)
  {
  }
}
