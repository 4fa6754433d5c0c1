/** The converter as it runs: a stream writer that hands out uuids and appends
    packets, and a converter that keeps the track map beside it. */
module PerfettoConverter {
  import opened Wrappers
  import opened TrackConversion

  class StreamWriter {
    var trackUuidCounter: nat
    var log: seq<Packet>

    constructor ()
      ensures trackUuidCounter == FIRST_UUID && log == []
    {
      trackUuidCounter, log := FIRST_UUID, [];
    }

    method NextTrackUuid() returns (uuid: nat)
      modifies this`trackUuidCounter
      ensures uuid == old(trackUuidCounter) && trackUuidCounter == uuid + 1
    {
      uuid := trackUuidCounter;
      trackUuidCounter := trackUuidCounter + 1;
    }

    method WritePacket(p: Packet)
      modifies this`log
      ensures log == old(log) + [p]
    {
      log := log + [p];
    }

    method WriteDescriptor(parent: nat, what: What, name: Option<string>) returns (uuid: nat)
      modifies this
      ensures uuid == old(trackUuidCounter) && trackUuidCounter == uuid + 1
      ensures log == old(log) + [Descriptor(uuid, parent, what, name)]
    {
      uuid := NextTrackUuid();
      WritePacket(Descriptor(uuid, parent, what, name));
    }
  }

  class Converter {
    const writer: StreamWriter
    var trackMap: map<TrackId, nat>

    constructor (w: StreamWriter)
      ensures writer == w && trackMap == map[]
    {
      writer, trackMap := w, map[];
    }

    ghost function View(): Conv
      reads this, writer
    {
      Conv(trackMap, writer.trackUuidCounter, writer.log)
    }

    method EnsureProcessTrack(pid: int, name: Option<string>) returns (uuid: nat)
      modifies this, writer
      ensures View() == EnsureProcess(old(View()), pid, name) && uuid == trackMap[Process(pid)]
    {
      if Process(pid) in trackMap {
        return trackMap[Process(pid)];
      }
      uuid := writer.WriteDescriptor(0, ProcessTrack(pid), name);
      trackMap := trackMap[Process(pid) := uuid];
    }

    method EnsureThreadTrack(pid: int, tid: int, name: Option<string>) returns (uuid: nat)
      modifies this, writer
      ensures View() == EnsureThread(old(View()), pid, tid, name) && uuid == trackMap[Thread(tid, pid)]
    {
      var id := Thread(tid, pid);
      if id in trackMap {
        uuid := trackMap[id];
        if name.Some? {
          var processUuid := EnsureProcessTrack(pid, None);
          writer.WritePacket(Descriptor(uuid, processUuid, ThreadTrack(pid, tid), name));
        }
      } else {
        var processUuid := EnsureProcessTrack(pid, None);
        uuid := writer.WriteDescriptor(processUuid, ThreadTrack(pid, tid), name);
        trackMap := trackMap[id := uuid];
      }
    }

    /** The uuid of a track, made up if it is an unknown thread or process. */
    method Resolve(id: TrackId) returns (uuid: Option<nat>)
      modifies this, writer
      ensures View() == Ensure(old(View()), id)
      ensures uuid == if id in trackMap then Some(trackMap[id]) else None
    {
      if id in trackMap {
        return Some(trackMap[id]);
      }
      match id {
        case Thread(tid, pid) =>
          var u := EnsureThreadTrack(pid, tid, None);
          trackMap := trackMap[id := u];
          return Some(u);
        case Process(pid) =>
          var u := EnsureProcessTrack(pid, None);
          trackMap := trackMap[id := u];
          return Some(u);
        case Cpu(_) => return None;
        case Custom(_) => return None;
        case Counter(_) => return None;
      }
    }

    method ConvertCounter(id: TrackId, value: real, at: nat)
      modifies this, writer
      ensures View() == Step(old(View()), CounterValue(id, value, at))
    {
      if id in trackMap {
        writer.WritePacket(CounterEvent(trackMap[id], value, at));
      }
    }

    method ConvertSpan(id: TrackId, name: string, start: nat, end: nat)
      modifies this, writer
      ensures View() == Step(old(View()), Span(id, name, start, end))
    {
      hide Ensure;
      var uuid := Resolve(id);
      if uuid.None? {
        return;
      }
      ghost var log := writer.log;
      writer.WritePacket(SliceBegin(uuid.value, name, start));
      writer.WritePacket(SliceEnd(uuid.value, end));
      assert writer.log == log + [SliceBegin(uuid.value, name, start), SliceEnd(uuid.value, end)];
    }

    method ConvertInstant(id: TrackId, name: string, at: nat)
      modifies this, writer
      ensures View() == Step(old(View()), Instant(id, name, at))
    {
      hide Ensure;
      var uuid := Resolve(id);
      if uuid.None? {
        return;
      }
      writer.WritePacket(InstantEvent(uuid.value, name, at));
    }

    method ConvertTrack(m: Message)
      requires m.Track?
      modifies this, writer
      ensures View() == Step(old(View()), m)
    {
      hide Ensure, EnsureThread, EnsureProcess;
      if m.id in trackMap {
        return;
      }
      var parent := 0;
      if m.parent.Some? {
        var uuid := Resolve(m.parent.value);
        if uuid.Some? {
          parent := uuid.value;
        }
      }
      var uuid: nat;
      match m.id {
        case Cpu(_) => uuid := writer.WriteDescriptor(parent, GenericTrack, Some(m.name));
        case Custom(_) => uuid := writer.WriteDescriptor(parent, GenericTrack, Some(m.name));
        case Counter(_) => uuid := writer.WriteDescriptor(parent, CounterTrack(m.unit), Some(m.name));
        case Thread(tid, pid) => uuid := EnsureThreadTrack(pid, tid, Some(m.name));
        case Process(pid) => uuid := EnsureProcessTrack(pid, Some(m.name));
      }
      trackMap := trackMap[m.id := uuid];
    }
  }
}
