/** The agent's session protocol: clients connect, at most one of them starts a
    recording, and clients that fall silent are dropped. One step of the machine
    is one event of the loop: the handler, the actions it queued, and the removal
    of the clients it gave up on. */
module AgentSession {
  import opened Wrappers

  datatype Phase = Pending | Started

  datatype Client = Client(phase: Phase, stamp: nat)

  datatype ExtCall = ExtStart | ExtStop

  /** The agent's fields; `ext` is the history of successful extension starts
      and of the stops. */
  datatype Core = Core(
    clients: map<nat, Client>, started: Option<nat>, nextId: nat, anotherStarted: bool,
    timeout: nat, hasExtension: bool, extensionActive: bool, ext: seq<ExtCall>)

  datatype Reply = Ack | Nack | VersionResponse

  datatype Action = SendMessage(id: nat, reply: Reply) | DeleteEpoll(id: nat)

  /** What a start request brings: whether it asks for anything, which of its
      descriptors are valid, and how the producer and the extension respond. */
  datatype Message =
    | Version
    | Start(hasArgs: bool, fds: seq<bool>, producerOk: bool, extensionOk: bool)
    | Stop
    | Continue
    | Unexpected

  datatype Note = Accepted(id: nat, now: nat) | Sent(id: nat, reply: Reply, now: nat)

  datatype World = World(core: Core, sockets: set<nat>, log: seq<Note>)

  /** A tick reads the clock once per client, `lag` later than `now`. */
  datatype Event =
    | Accept(now: nat)
    | HangUp(id: nat)
    | Receive(id: nat, msg: Message, now: nat)
    | ReadError(id: nat)
    | Tick(now: nat, lag: map<nat, nat>)

  function Init(timeoutMs: nat, hasExtension: bool): World {
    World(Core(map[], None, 1, false, timeoutMs * 1_000_000, hasExtension, false, []), {}, [])
  }

  // ---------------------------------------------------------------- handlers

  function StopExtension(c: Core): Core {
    if c.extensionActive && c.hasExtension then c.(ext := c.ext + [ExtStop], extensionActive := false) else c
  }

  function Release(c: Core): Core {
    StopExtension(c).(anotherStarted := false, started := None)
  }

  function Disconnect(c: Core, id: nat): Core {
    if c.started == Some(id) then Release(c) else c
  }

  /** Whether a start request can be granted; otherwise it is refused, except
      that a producer failure drops the client. */
  predicate WellFormed(c: Core, msg: Message)
    requires msg.Start?
  {
    !c.anotherStarted && msg.hasArgs && |msg.fds| >= 2 && msg.fds[0] && msg.fds[1]
  }

  predicate Granted(c: Core, msg: Message)
    requires msg.Start?
  {
    WellFormed(c, msg) && msg.producerOk && (c.hasExtension ==> msg.extensionOk)
  }

  function StartClient(c: Core, id: nat, now: nat): Core {
    var e := if c.hasExtension then c.(ext := c.ext + [ExtStart], extensionActive := true) else c;
    e.(anotherStarted := true, started := Some(id), clients := c.clients[id := Client(Started, now)])
  }

  datatype Handled = Handled(core: Core, actions: seq<Action>)

  function OnMessage(c: Core, id: nat, msg: Message, now: nat): Handled {
    if msg.Version? then Handled(c, [SendMessage(id, VersionResponse)])
    else if id !in c.clients then Handled(c, [])
    else match c.clients[id].phase
      case Pending =>
        if !msg.Start? then Handled(c, [])
        else if WellFormed(c, msg) && !msg.producerOk then Handled(Disconnect(c, id), [DeleteEpoll(id)])
        else if !Granted(c, msg) then Handled(c, [SendMessage(id, Nack)])
        else Handled(StartClient(c, id, now), [SendMessage(id, Ack)])
      case Started =>
        if msg.Stop? then Handled(Disconnect(c, id), [SendMessage(id, Ack), DeleteEpoll(id)])
        else if msg.Continue? then
          Handled(c.(clients := c.clients[id := c.clients[id].(stamp := now)]), [SendMessage(id, Ack)])
        else Handled(c, [])
  }

  function Reading(e: Event, id: nat): nat
    requires e.Tick?
  {
    if id in e.lag then e.now + e.lag[id] else e.now
  }

  predicate Alive(c: Core, e: Event, id: nat)
    requires e.Tick? && id in c.clients
  {
    Reading(e, id) <= c.clients[id].stamp + c.timeout
  }

  function Expired(c: Core, e: Event): set<nat>
    requires e.Tick?
  {
    set id | id in c.clients && !Alive(c, e, id)
  }

  function OnTick(c: Core, e: Event): Core
    requires e.Tick?
  {
    if c.started.Some? && c.started.value in Expired(c, e) then Release(c) else c
  }

  // ------------------------------------------------------------ one loop step

  function Deleted(actions: seq<Action>): set<nat> {
    set i | 0 <= i < |actions| && actions[i].DeleteEpoll? :: actions[i].id
  }

  function SentBy(actions: seq<Action>, sockets: set<nat>, now: nat): seq<Note> {
    if actions == [] then []
    else
      var a := actions[0];
      (if a.SendMessage? && a.id in sockets then [Sent(a.id, a.reply, now)] else [])
      + SentBy(actions[1..], sockets, now)
  }

  function Drop(w: World, gone: set<nat>): World {
    w.(core := w.core.(clients := w.core.clients - gone), sockets := w.sockets - gone)
  }

  function Settle(w: World, h: Handled, now: nat): World {
    Drop(World(h.core, w.sockets, w.log + SentBy(h.actions, w.sockets, now)), Deleted(h.actions))
  }

  function Connect(w: World, now: nat): World {
    var id := w.core.nextId;
    World(w.core.(nextId := id + 1, clients := w.core.clients[id := Client(Pending, now)]),
          w.sockets + {id}, w.log + [Accepted(id, now)])
  }

  function Step(w: World, e: Event): World {
    match e
    case Accept(now) => Connect(w, now)
    case HangUp(id) => Drop(w.(core := Disconnect(w.core, id)), {id})
    case Receive(id, msg, now) => if id in w.sockets then Settle(w, OnMessage(w.core, id, msg, now), now) else w
    case ReadError(id) => if id in w.sockets then Drop(w.(core := Disconnect(w.core, id)), {id}) else w
    case Tick(_, _) => Drop(w.(core := OnTick(w.core, e)), Expired(w.core, e))
  }

  function Run(w: World, es: seq<Event>): World {
    if es == [] then w else Step(Run(w, es[..|es| - 1]), es[|es| - 1])
  }

  // --------------------------------------------------------------- invariants

  predicate Slot(c: Core) {
    && (c.anotherStarted <==> c.started.Some?)
    && (c.started.Some? ==> c.started.value in c.clients)
    && (forall id | id in c.clients :: c.clients[id].phase == Started <==> c.started == Some(id))
    && (c.extensionActive ==> c.started.Some? && c.hasExtension)
  }

  predicate Keys(w: World) {
    && w.core.clients.Keys == w.sockets && w.core.nextId >= 1
    && (forall id | id in w.sockets :: 0 < id < w.core.nextId)
  }

  /** Starts and stops alternate, beginning with a start. */
  predicate Alternates(ext: seq<ExtCall>) {
    forall i | 0 <= i < |ext| :: ext[i] == if i % 2 == 0 then ExtStart else ExtStop
  }

  predicate Extension(c: Core) {
    Alternates(c.ext) && (c.extensionActive <==> |c.ext| % 2 == 1)
  }

  /** When a client was last accepted, or last told that its request was
      granted. */
  function LastSeen(log: seq<Note>, id: nat): Option<nat> {
    if log == [] then None
    else
      var n := log[|log| - 1];
      if n.id == id && (n.Accepted? || n.reply == Ack) then Some(n.now) else LastSeen(log[..|log| - 1], id)
  }

  predicate Stamps(w: World) {
    forall id | id in w.core.clients :: LastSeen(w.log, id) == Some(w.core.clients[id].stamp)
  }

  predicate Inv(w: World) {
    Slot(w.core) && Keys(w) && Extension(w.core) && Stamps(w)
  }

  // ------------------------------------------------------------- preservation

  lemma ExtendedLog(c: Core, call: ExtCall, active: bool)
    requires Extension(c) && active == (call == ExtStart) && c.extensionActive != active
    ensures Extension(c.(ext := c.ext + [call], extensionActive := active))
  {
  }

  lemma ReleaseKeeps(c: Core)
    requires Slot(c) && Extension(c)
    ensures Extension(Release(c)) && !Release(c).extensionActive
  {
    if c.extensionActive {
      ExtendedLog(c, ExtStop, false);
    }
  }

  /** Dropping the clients in `gone` keeps the slot consistent when the slot was
      given up in case its holder is among them. */
  lemma DropSlot(c: Core, gone: set<nat>)
    requires Slot(c) && Extension(c)
    ensures var d := if c.started.Some? && c.started.value in gone then Release(c) else c;
      var r := d.(clients := d.clients - gone);
      Slot(r) && Extension(r)
  {
    ReleaseKeeps(c);
  }

  lemma LastSeenMore(log: seq<Note>, n: Note, id: nat)
    ensures LastSeen(log + [n], id)
      == if n.id == id && (n.Accepted? || n.reply == Ack) then Some(n.now) else LastSeen(log, id)
  {
    assert (log + [n])[..|log|] == log;
  }

  lemma DropKeeps(w: World, gone: set<nat>)
    requires Inv(w)
    ensures var c := w.core;
      var d := if c.started.Some? && c.started.value in gone then Release(c) else c;
      Inv(Drop(w.(core := d), gone))
  {
    DropSlot(w.core, gone);
  }

  lemma ConnectKeeps(w: World, now: nat)
    requires Inv(w)
    ensures Inv(Connect(w, now))
  {
    var v := Connect(w, now);
    forall id | id in v.core.clients ensures LastSeen(v.log, id) == Some(v.core.clients[id].stamp) {
      LastSeenMore(w.log, Accepted(w.core.nextId, now), id);
    }
  }

  lemma ReplyKeeps(w: World, id: nat, reply: Reply, now: nat)
    requires Inv(w) && reply != Ack
    ensures Inv(w.(log := w.log + [Sent(id, reply, now)]))
  {
    forall k | k in w.core.clients ensures LastSeen(w.log + [Sent(id, reply, now)], k) == LastSeen(w.log, k) {
      LastSeenMore(w.log, Sent(id, reply, now), k);
    }
  }

  /** An acknowledged refresh: the client's stamp is the time of the reply. */
  lemma RefreshKeeps(w: World, c: Core, id: nat, now: nat)
    requires Inv(w) && id in w.core.clients && Slot(c) && Extension(c) && c.nextId == w.core.nextId
    requires c.clients.Keys == w.core.clients.Keys && c.clients[id].stamp == now
    requires forall k | k in c.clients && k != id :: c.clients[k] == w.core.clients[k]
    ensures Inv(w.(core := c, log := w.log + [Sent(id, Ack, now)]))
  {
    var v := w.(core := c, log := w.log + [Sent(id, Ack, now)]);
    forall k | k in c.clients ensures LastSeen(v.log, k) == Some(c.clients[k].stamp) {
      LastSeenMore(w.log, Sent(id, Ack, now), k);
    }
  }

  lemma StartKeeps(c: Core, id: nat, now: nat)
    requires Slot(c) && Extension(c) && id in c.clients && !c.anotherStarted
    ensures Slot(StartClient(c, id, now)) && Extension(StartClient(c, id, now))
  {
    if c.hasExtension {
      ExtendedLog(c, ExtStart, true);
    }
  }

  lemma OneReply(id: nat, reply: Reply, sockets: set<nat>, now: nat)
    requires id in sockets
    ensures SentBy([SendMessage(id, reply)], sockets, now) == [Sent(id, reply, now)]
    ensures Deleted([SendMessage(id, reply)]) == {}
    ensures SentBy([SendMessage(id, reply), DeleteEpoll(id)], sockets, now) == [Sent(id, reply, now)]
    ensures Deleted([SendMessage(id, reply), DeleteEpoll(id)]) == {id}
    ensures SentBy([DeleteEpoll(id)], sockets, now) == []
    ensures Deleted([DeleteEpoll(id)]) == {id}
    ensures SentBy([], sockets, now) == [] && Deleted([]) == {}
  {
    var two := [SendMessage(id, reply), DeleteEpoll(id)];
    assert two[1..] == [DeleteEpoll(id)] && [DeleteEpoll(id)][1..] == [] && [SendMessage(id, reply)][1..] == [];
    assert two[1].DeleteEpoll? && [DeleteEpoll(id)][0].DeleteEpoll?;
  }

  lemma ReceiveKeeps(w: World, id: nat, msg: Message, now: nat)
    requires Inv(w) && id in w.sockets
    ensures Inv(Settle(w, OnMessage(w.core, id, msg, now), now))
  {
    hide Inv, SentBy, Deleted, LastSeen, Alternates;
    var c, h := w.core, OnMessage(w.core, id, msg, now);
    Parts(w);
    forall reply ensures h.actions == [SendMessage(id, reply)] ==>
      SentBy(h.actions, w.sockets, now) == [Sent(id, reply, now)] && Deleted(h.actions) == {} {
      OneReply(id, reply, w.sockets, now);
    }
    OneReply(id, Ack, w.sockets, now);
    NothingDropped(w);
    if msg.Version? {
      ReplyKeeps(w, id, VersionResponse, now);
      NothingDropped(w.(log := w.log + [Sent(id, VersionResponse, now)]));
    } else if c.clients[id].phase.Pending? && msg.Start? {
      StartMessageKeeps(w, id, msg, now);
    } else if c.clients[id].phase.Started? && msg.Stop? {
      StopMessageKeeps(w, id, now);
    } else if c.clients[id].phase.Started? && msg.Continue? {
      var d := c.(clients := c.clients[id := c.clients[id].(stamp := now)]);
      RefreshKeeps(w, d, id, now);
      NothingDropped(w.(core := d, log := w.log + [Sent(id, Ack, now)]));
    } else {
      assert w.log + [] == w.log;
    }
  }

  lemma Parts(w: World)
    requires Inv(w)
    ensures Slot(w.core) && Keys(w) && Extension(w.core)
  {
  }

  lemma NothingDropped(w: World)
    ensures Drop(w, {}) == w
  {
    assert w.core.clients - {} == w.core.clients && w.sockets - {} == w.sockets;
  }

  lemma StartMessageKeeps(w: World, id: nat, msg: Message, now: nat)
    requires Inv(w) && id in w.sockets && msg.Start? && id in w.core.clients && w.core.clients[id].phase.Pending?
    ensures Inv(Settle(w, OnMessage(w.core, id, msg, now), now))
  {
    hide Inv, SentBy, Deleted, LastSeen, Alternates;
    Parts(w);
    var c := w.core;
    OneReply(id, Nack, w.sockets, now);
    OneReply(id, Ack, w.sockets, now);
    if WellFormed(c, msg) && !msg.producerOk {
      assert w.log + [] == w.log;
      DropKeeps(w, {id});
    } else if !Granted(c, msg) {
      ReplyKeeps(w, id, Nack, now);
      NothingDropped(w.(log := w.log + [Sent(id, Nack, now)]));
    } else {
      StartKeeps(c, id, now);
      RefreshKeeps(w, StartClient(c, id, now), id, now);
      NothingDropped(w.(core := StartClient(c, id, now), log := w.log + [Sent(id, Ack, now)]));
    }
  }

  lemma StopMessageKeeps(w: World, id: nat, now: nat)
    requires Inv(w) && id in w.core.clients && w.core.clients[id].phase.Started?
    ensures Inv(Drop(w.(core := Disconnect(w.core, id), log := w.log + [Sent(id, Ack, now)]), {id}))
  {
    var c := w.core;
    var d := c.(clients := c.clients[id := c.clients[id].(stamp := now)]);
    var v := w.(core := d, log := w.log + [Sent(id, Ack, now)]);
    RefreshKeeps(w, d, id, now);
    DropKeeps(v, {id});
    assert Drop(w.(core := Disconnect(c, id), log := v.log), {id}) == Drop(v.(core := Release(d)), {id}) by {
      assert c.clients - {id} == d.clients - {id};
    }
  }

  lemma StepKeeps(w: World, e: Event)
    requires Inv(w)
    ensures Inv(Step(w, e))
  {
    hide Inv, Settle, Drop, Connect;
    Parts(w);
    match e {
      case Accept(now) => ConnectKeeps(w, now);
      case HangUp(id) => DropKeeps(w, {id}); SlotOf(w.core, id);
      case Receive(id, msg, now) => if id in w.sockets { ReceiveKeeps(w, id, msg, now); }
      case ReadError(id) => DropKeeps(w, {id}); SlotOf(w.core, id);
      case Tick(_, _) => DropKeeps(w, Expired(w.core, e));
    }
  }

  lemma SlotOf(c: Core, id: nat)
    ensures Disconnect(c, id) == if c.started.Some? && c.started.value in {id} then Release(c) else c
  {
  }

  lemma {:induction false} RunKeeps(w: World, es: seq<Event>)
    requires Inv(w)
    ensures Inv(Run(w, es))
    decreases |es|
  {
    hide Inv, Step;
    if es != [] {
      RunKeeps(w, es[..|es| - 1]);
      StepKeeps(Run(w, es[..|es| - 1]), es[|es| - 1]);
    }
  }

  // ----------------------------------------------------------------- theorems

  lemma {:induction false} SettingsKept(w: World, es: seq<Event>)
    ensures var c := Run(w, es).core; c.timeout == w.core.timeout && c.hasExtension == w.core.hasExtension
    decreases |es|
  {
    hide Step;
    if es != [] {
      SettingsKept(w, es[..|es| - 1]);
      StepSettings(Run(w, es[..|es| - 1]), es[|es| - 1]);
    }
  }

  lemma StepSettings(w: World, e: Event)
    ensures var c := Step(w, e).core; c.timeout == w.core.timeout && c.hasExtension == w.core.hasExtension
  {
    hide SentBy, Deleted, Expired, WellFormed, Granted;
  }

  /** At every loop boundary of every run: clients and sockets agree, ids are
      non-zero and below the next one, the slot names the one started client,
      the extension runs only while it is taken, extension starts and stops
      alternate, and every stamp is the client's last accept or grant; the timeout
      stays what was configured, in nanoseconds. */
  lemma AlwaysConsistent(timeoutMs: nat, hasExtension: bool, es: seq<Event>)
    ensures Inv(Run(Init(timeoutMs, hasExtension), es))
    ensures var c := Run(Init(timeoutMs, hasExtension), es).core;
      c.timeout == timeoutMs * 1_000_000 && c.hasExtension == hasExtension
  {
    SettingsKept(Init(timeoutMs, hasExtension), es);
    hide Run;
    RunKeeps(Init(timeoutMs, hasExtension), es);
  }

  /** A connection becomes a pending client under the next id, stamped with the
      time it was accepted at. */
  lemma Connected(w: World, now: nat)
    ensures var v, id := Step(w, Accept(now)), w.core.nextId;
      && v.core == w.core.(clients := w.core.clients[id := Client(Pending, now)], nextId := id + 1)
      && v.sockets == w.sockets + {id} && v.log == w.log + [Accepted(id, now)]
  {
  }

  /** What is left when a client goes: if it held the slot, that is free, and an
      extension that ran is stopped. */
  predicate Gone(w: World, v: World, id: nat) {
    && v.core.clients == w.core.clients - {id} && v.sockets == w.sockets - {id}
    && v.core.nextId == w.core.nextId && v.core.timeout == w.core.timeout
    && v.core.hasExtension == w.core.hasExtension
    && (if w.core.started == Some(id) then
          && v.core.started == None && !v.core.anotherStarted && !v.core.extensionActive
          && v.core.ext == w.core.ext + (if w.core.extensionActive then [ExtStop] else [])
        else
          && v.core.started == w.core.started && v.core.anotherStarted == w.core.anotherStarted
          && v.core.extensionActive == w.core.extensionActive && v.core.ext == w.core.ext)
  }

  /** A client that hangs up, or whose socket fails, goes without a word. */
  lemma Departed(w: World, id: nat, e: Event)
    requires Inv(w) && (e == HangUp(id) || (e == ReadError(id) && id in w.sockets))
    ensures Gone(w, Step(w, e), id) && Step(w, e).log == w.log
  {
    hide LastSeen, Alternates;
  }

  /** Nothing is heard from a socket that is not there. */
  lemma UnknownIgnored(w: World, id: nat, msg: Message, now: nat)
    requires id !in w.sockets
    ensures Step(w, Receive(id, msg, now)) == w && Step(w, ReadError(id)) == w
  {
  }

  lemma VersionAnswered(w: World, id: nat, now: nat)
    requires id in w.sockets
    ensures Step(w, Receive(id, Version, now)) == w.(log := w.log + [Sent(id, VersionResponse, now)])
  {
    OneReply(id, VersionResponse, w.sockets, now);
    NothingDropped(w.(log := w.log + [Sent(id, VersionResponse, now)]));
  }

  /** A pending client that asks for something, sends two valid descriptors and
      finds the slot free, with a producer that can be made and an extension that
      is absent or starts, becomes the holder and is told so. */
  lemma StartGranted(w: World, id: nat, fds: seq<bool>, extensionOk: bool, now: nat)
    requires Inv(w) && id in w.core.clients && w.core.clients[id].phase == Pending && w.core.started.None?
    requires |fds| >= 2 && fds[0] && fds[1] && (w.core.hasExtension ==> extensionOk)
    ensures var c := w.core;
      Step(w, Receive(id, Start(true, fds, true, extensionOk), now)) ==
        World(Core(c.clients[id := Client(Started, now)], Some(id), c.nextId, true, c.timeout, c.hasExtension,
                   c.hasExtension, c.ext + (if c.hasExtension then [ExtStart] else [])),
              w.sockets, w.log + [Sent(id, Ack, now)])
  {
    hide LastSeen, Alternates;
    var c, v := w.core, Step(w, Receive(id, Start(true, fds, true, extensionOk), now));
    OneReply(id, Ack, w.sockets, now);
    NothingDropped(World(StartClient(c, id, now), w.sockets, w.log + [Sent(id, Ack, now)]));
  }

  /** Each single condition that is missing, but the producer, gets a refusal and
      changes nothing. */
  lemma StartRefused(w: World, id: nat, hasArgs: bool, fds: seq<bool>, producerOk: bool, extensionOk: bool, now: nat)
    requires Inv(w) && id in w.core.clients && w.core.clients[id].phase == Pending
    requires w.core.started.Some? || !hasArgs || |fds| < 2 || !fds[0] || !fds[1]
          || (producerOk && w.core.hasExtension && !extensionOk)
    ensures Step(w, Receive(id, Start(hasArgs, fds, producerOk, extensionOk), now))
         == w.(log := w.log + [Sent(id, Nack, now)])
  {
    hide LastSeen, Alternates;
    OneReply(id, Nack, w.sockets, now);
    NothingDropped(w.(log := w.log + [Sent(id, Nack, now)]));
  }

  /** Without a producer the client is dropped, unanswered. */
  lemma StartWithoutProducer(w: World, id: nat, fds: seq<bool>, extensionOk: bool, now: nat)
    requires Inv(w) && id in w.core.clients && w.core.clients[id].phase == Pending && w.core.started.None?
    requires |fds| >= 2 && fds[0] && fds[1]
    ensures var v := Step(w, Receive(id, Start(true, fds, false, extensionOk), now));
      Gone(w, v, id) && v.log == w.log
  {
    hide LastSeen, Alternates;
    OneReply(id, Ack, w.sockets, now);
    assert w.log + [] == w.log;
  }

  /** The holder's stop is acknowledged, and the holder goes. */
  lemma StopAnswered(w: World, id: nat, now: nat)
    requires Inv(w) && w.core.started == Some(id)
    ensures var v := Step(w, Receive(id, Stop, now)); Gone(w, v, id) && v.log == w.log + [Sent(id, Ack, now)]
  {
    hide LastSeen, Alternates;
    OneReply(id, Ack, w.sockets, now);
  }

  /** The holder's continue is acknowledged and restarts its clock. */
  lemma ContinueAnswered(w: World, id: nat, now: nat)
    requires Inv(w) && w.core.started == Some(id)
    ensures Step(w, Receive(id, Continue, now)) ==
      World(w.core.(clients := w.core.clients[id := Client(Started, now)]), w.sockets, w.log + [Sent(id, Ack, now)])
  {
    hide LastSeen, Alternates;
    OneReply(id, Ack, w.sockets, now);
    NothingDropped(World(w.core.(clients := w.core.clients[id := Client(Started, now)]), w.sockets,
                         w.log + [Sent(id, Ack, now)]));
  }

  /** Anything else a client says changes nothing. */
  lemma OtherIgnored(w: World, id: nat, msg: Message, now: nat)
    requires Inv(w) && id in w.core.clients && !msg.Version?
    requires if w.core.started == Some(id) then !msg.Stop? && !msg.Continue? else !msg.Start?
    ensures Step(w, Receive(id, msg, now)) == w
  {
    hide LastSeen, Alternates;
    OneReply(id, Ack, w.sockets, now);
    NothingDropped(w);
    assert w.log + [] == w.log;
  }

  /** A tick removes a client if and only if more than the timeout has passed
      since it was last seen, stops the recording if and only if its client is
      removed, and touches nothing else. */
  lemma TickExact(w: World, e: Event, id: nat)
    requires Inv(w) && e.Tick?
    ensures var v := Step(w, e);
      && (id in v.core.clients ==> id in w.core.clients && v.core.clients[id] == w.core.clients[id])
      && (id in w.core.clients ==>
          && LastSeen(w.log, id).Some?
          && (id !in v.core.clients <==>
                e.now + (if id in e.lag then e.lag[id] else 0) > LastSeen(w.log, id).value + w.core.timeout))
      && (w.core.started.Some? ==>
            v.core.started == if w.core.started.value in v.core.clients then w.core.started else None)
      && v.core.ext == w.core.ext + (if w.core.extensionActive && v.core.started.None? then [ExtStop] else [])
      && v.core.nextId == w.core.nextId && v.log == w.log
  {
  }

  /** The reasons other than a tick for which a client is dropped. */
  predicate Leaves(w: World, e: Event, id: nat) {
    match e
    case Accept(_) => false
    case HangUp(k) => k == id
    case ReadError(k) => k == id && id in w.sockets
    case Receive(k, msg, _) =>
      && k == id && id in w.sockets && id in w.core.clients
      && (match w.core.clients[id].phase
          case Pending =>
            && msg.Start? && w.core.started.None?
            && msg.hasArgs && |msg.fds| >= 2 && msg.fds[0] && msg.fds[1] && !msg.producerOk
          case Started => msg.Stop?)
    case Tick(_, _) => false
  }

  predicate InTime(w: World, e: Event, id: nat) {
    e.Tick? && LastSeen(w.log, id).Some? ==> Reading(e, id) <= LastSeen(w.log, id).value + w.core.timeout
  }

  /** One step drops a client exactly when the client leaves or is late. */
  lemma DroppedIff(w: World, e: Event, id: nat)
    requires Inv(w) && id in w.core.clients
    ensures id !in Step(w, e).core.clients <==> Leaves(w, e, id) || !InTime(w, e, id)
  {
    hide SentBy, Alternates, LastSeen;
    match e {
      case Accept(_) =>
      case HangUp(k) =>
      case Receive(k, msg, now) =>
        if k in w.sockets {
          forall reply ensures Deleted([SendMessage(k, reply)]) == {} {
            OneReply(k, reply, w.sockets, now);
          }
          OneReply(k, Ack, w.sockets, now);
        }
      case ReadError(k) =>
      case Tick(_, _) =>
    }
  }

  /** Over any run, a client that never leaves and is in time at every tick is
      still there at the end. */
  lemma {:induction false} StaysConnected(w: World, es: seq<Event>, id: nat)
    requires Inv(w) && id in w.core.clients
    requires forall i | 0 <= i < |es| :: !Leaves(Run(w, es[..i]), es[i], id) && InTime(Run(w, es[..i]), es[i], id)
    ensures id in Run(w, es).core.clients
    decreases |es|
  {
    hide Inv, Step, Leaves, InTime;
    if es != [] {
      var init, e := es[..|es| - 1], es[|es| - 1];
      forall i | 0 <= i < |init|
        ensures !Leaves(Run(w, init[..i]), init[i], id) && InTime(Run(w, init[..i]), init[i], id)
      {
        assert init[..i] == es[..i];
      }
      StaysConnected(w, init, id);
      RunKeeps(w, init);
      assert es[..|es| - 1] == init;
      DroppedIff(Run(w, init), e, id);
    }
  }

  /** Ids are never reused: a client that is gone stays gone. */
  lemma {:induction false} GoneForGood(w: World, es: seq<Event>, id: nat)
    requires Inv(w) && id < w.core.nextId && id !in w.core.clients
    ensures id !in Run(w, es).core.clients && w.core.nextId <= Run(w, es).core.nextId
    decreases |es|
  {
    hide Inv, Step;
    if es != [] {
      GoneForGood(w, es[..|es| - 1], id);
      OnlyAcceptAdds(Run(w, es[..|es| - 1]), es[|es| - 1]);
    }
  }

  lemma OnlyAcceptAdds(w: World, e: Event)
    ensures var v := Step(w, e);
      && w.core.nextId <= v.core.nextId
      && forall id | id in v.core.clients && id !in w.core.clients :: id == w.core.nextId
  {
    hide SentBy, Deleted;
  }

  /** Nobody can start while another client's recording runs: the request is
      refused and nothing about the session changes. */
  lemma SecondStartRefused(w: World, id: nat, msg: Message, now: nat)
    requires Inv(w) && id in w.sockets && msg.Start? && w.core.started.Some? && w.core.started != Some(id)
    ensures Step(w, Receive(id, msg, now)) == w.(log := w.log + [Sent(id, Nack, now)])
  {
    OneReply(id, Nack, w.sockets, now);
    NothingDropped(w.(log := w.log + [Sent(id, Nack, now)]));
  }
}
