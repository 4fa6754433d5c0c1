/** The agent as it runs: its fields, the handlers that queue actions, and the
    loop that drains the queue and removes clients. Each event is shown to be
    exactly one step of the session machine. */
module AgentLoop {
  import opened Wrappers
  import opened Naturals
  import opened AgentSession

  class AgentState {
    var clients: map<nat, Client>
    var startedClient: Option<nat>
    var nextClientId: nat
    var anotherStarted: bool
    const timeoutNs: nat
    const hasExtension: bool
    var extensionActive: bool
    var ext: seq<ExtCall>

    constructor (timeoutMs: nat, extension: bool)
      ensures View() == Init(timeoutMs, extension).core
    {
      clients, startedClient, nextClientId, anotherStarted := map[], None, 1, false;
      timeoutNs, hasExtension, extensionActive, ext := timeoutMs * 1_000_000, extension, false, [];
    }

    ghost function View(): Core
      reads this
    {
      Core(clients, startedClient, nextClientId, anotherStarted, timeoutNs, hasExtension, extensionActive, ext)
    }

    method RemoveClient(token: nat)
      modifies this`clients
      ensures clients == old(clients) - {token}
    {
      clients := clients - {token};
    }

    method GetNextClientId() returns (id: nat)
      modifies this`nextClientId
      ensures id == old(nextClientId) && nextClientId == id + 1
    {
      id := nextClientId;
      nextClientId := nextClientId + 1;
    }

    method RegisterClient(id: nat, now: nat)
      modifies this`clients
      ensures clients == old(clients)[id := Client(Pending, now)]
    {
      clients := clients[id := Client(Pending, now)];
    }

    method StopExtensionIfActive()
      modifies this`extensionActive, this`ext
      ensures View() == StopExtension(old(View()))
    {
      if extensionActive {
        if hasExtension {
          ext := ext + [ExtStop];
          extensionActive := false;
        }
      }
    }

    method HandleDisconnect(id: nat, actions: seq<Action>) returns (actions': seq<Action>)
      modifies this
      ensures View() == Disconnect(old(View()), id) && actions' == actions + [DeleteEpoll(id)]
    {
      if startedClient == Some(id) {
        StopExtensionIfActive();
        anotherStarted := false;
        startedClient := None;
      }
      actions' := actions + [DeleteEpoll(id)];
    }

    method HandleMessage(id: nat, msg: Message, now: nat) returns (actions: seq<Action>)
      modifies this
      ensures Handled(View(), actions) == OnMessage(old(View()), id, msg, now)
    {
      actions := [];
      if msg.Version? {
        actions := actions + [SendMessage(id, VersionResponse)];
        return;
      }
      if id !in clients {
        return;
      }
      if clients[id].phase.Pending? {
        if msg.Start? {
          actions := HandleStart(id, msg, now);
        }
      } else {
        if msg.Stop? {
          actions := actions + [SendMessage(id, Ack)];
          actions := HandleDisconnect(id, actions);
        } else if msg.Continue? {
          clients := clients[id := clients[id].(stamp := now)];
          actions := actions + [SendMessage(id, Ack)];
        }
      }
    }

    method HandleStart(id: nat, msg: Message, now: nat) returns (actions: seq<Action>)
      requires id in clients && clients[id].phase.Pending? && msg.Start?
      modifies this
      ensures Handled(View(), actions) == OnMessage(old(View()), id, msg, now)
    {
      actions := [];
      if anotherStarted || !msg.hasArgs || |msg.fds| < 2 || !msg.fds[0] || !msg.fds[1] {
        actions := actions + [SendMessage(id, Nack)];
        return;
      }
      if !msg.producerOk {
        actions := HandleDisconnect(id, actions);
        return;
      }
      if hasExtension {
        if !msg.extensionOk {
          actions := actions + [SendMessage(id, Nack)];
          return;
        }
        ext := ext + [ExtStart];
        extensionActive := true;
      }
      actions := actions + [SendMessage(id, Ack)];
      anotherStarted := true;
      startedClient := Some(id);
      clients := clients[id := clients[id].(phase := Started)];
      clients := clients[id := clients[id].(stamp := now)];
    }

    /** The pending clients among `ids` that are late. */
    ghost function Late(e: Event, ids: set<nat>): set<nat>
      requires e.Tick?
      reads this
    {
      set id | id in ids && id in clients && Some(id) != startedClient && !Alive(View(), e, id)
    }

    method LookAt(e: Event, id: nat, actions: seq<Action>, ghost ids: set<nat>) returns (actions': seq<Action>)
      requires e.Tick? && id in clients && Deleted(actions) == Late(e, ids)
      requires forall i | 0 <= i < |actions| :: actions[i].DeleteEpoll?
      ensures Deleted(actions') == Late(e, ids + {id})
      ensures forall i | 0 <= i < |actions'| :: actions'[i].DeleteEpoll?
    {
      actions' := actions;
      if Some(id) == startedClient {
        return;
      }
      if SatSub(Reading(e, id), clients[id].stamp) > timeoutNs {
        actions' := actions + [DeleteEpoll(id)];
        MoreDeleted(actions, DeleteEpoll(id));
      }
    }

    method Timer(e: Event) returns (actions: seq<Action>)
      requires e.Tick? && (startedClient.Some? ==> startedClient.value in clients)
      modifies this
      ensures View() == OnTick(old(View()), e) && Deleted(actions) == Expired(old(View()), e)
      ensures forall i | 0 <= i < |actions| :: actions[i].DeleteEpoll?
    {
      actions := CheckPending(e);
      if startedClient.Some? {
        var id := startedClient.value;
        if SatSub(Reading(e, id), clients[id].stamp) > timeoutNs {
          if id in clients {
            MoreDeleted(actions, DeleteEpoll(id));
            actions := actions + [DeleteEpoll(id)];
          }
          StopExtensionIfActive();
          startedClient := None;
          anotherStarted := false;
        }
      }
    }

    method CheckPending(e: Event) returns (actions: seq<Action>)
      requires e.Tick?
      ensures Deleted(actions) == Late(e, clients.Keys)
      ensures forall i | 0 <= i < |actions| :: actions[i].DeleteEpoll?
    {
      hide Deleted;
      actions := [];
      NoneDeleted();
      var todo := clients.Keys;
      ghost var done: set<nat> := {};
      while todo != {}
        invariant todo <= clients.Keys && done == clients.Keys - todo
        invariant Deleted(actions) == Late(e, done)
        invariant forall i | 0 <= i < |actions| :: actions[i].DeleteEpoll?
        decreases todo
      {
        var id :| id in todo;
        actions := LookAt(e, id, actions, done);
        todo, done := todo - {id}, done + {id};
      }
    }
  }

  lemma NoneDeleted()
    ensures Deleted([]) == {}
  {
  }

  lemma MoreDeleted(actions: seq<Action>, a: Action)
    ensures Deleted(actions + [a]) == if a.DeleteEpoll? then Deleted(actions) + {a.id} else Deleted(actions)
  {
    var more := actions + [a];
    forall x | x in Deleted(actions) ensures x in Deleted(more) {
      var i :| 0 <= i < |actions| && actions[i].DeleteEpoll? && actions[i].id == x;
      assert more[i] == actions[i];
    }
    assert more[|actions|] == a;
  }

  lemma {:induction false} OnlyDeletes(actions: seq<Action>, sockets: set<nat>, now: nat)
    requires forall i | 0 <= i < |actions| :: actions[i].DeleteEpoll?
    ensures SentBy(actions, sockets, now) == []
  {
    if actions != [] {
      OnlyDeletes(actions[1..], sockets, now);
    }
  }

  lemma FirstAction(actions: seq<Action>)
    requires actions != []
    ensures Deleted(actions)
      == (if actions[0].DeleteEpoll? then {actions[0].id} else {}) + Deleted(actions[1..])
  {
    forall x | x in Deleted(actions)
      ensures x in (if actions[0].DeleteEpoll? then {actions[0].id} else {}) + Deleted(actions[1..])
    {
      var i :| 0 <= i < |actions| && actions[i].DeleteEpoll? && actions[i].id == x;
      if i > 0 {
        assert actions[1..][i - 1] == actions[i];
      }
    }
    forall x | x in Deleted(actions[1..]) ensures x in Deleted(actions) {
      var i :| 0 <= i < |actions[1..]| && actions[1..][i].DeleteEpoll? && actions[1..][i].id == x;
      assert actions[i + 1] == actions[1..][i];
    }
  }

  function Members(ids: seq<nat>): set<nat> {
    set i | 0 <= i < |ids| :: ids[i]
  }

  class EventLoop {
    const agent: AgentState
    var sockets: set<nat>
    var log: seq<Note>

    constructor (a: AgentState)
      ensures agent == a && sockets == {} && log == []
    {
      agent, sockets, log := a, {}, [];
    }

    ghost function View(): World
      reads this, agent
    {
      World(agent.View(), sockets, log)
    }

    /** Drains the queue: replies go out, deletions are collected. */
    method ProcessActions(queue: seq<Action>, now: nat) returns (ids: seq<nat>)
      modifies this`log
      ensures log == old(log) + SentBy(queue, sockets, now) && Members(ids) == Deleted(queue)
    {
      hide Deleted, SentBy;
      ids := [];
      var actions := queue;
      NoneDeleted();
      while actions != []
        invariant log + SentBy(actions, sockets, now) == old(log) + SentBy(queue, sockets, now)
        invariant Members(ids) + Deleted(actions) == Deleted(queue)
        decreases |actions|
      {
        var action := actions[0];
        FirstAction(actions);
        FirstSent(log, actions, sockets, now);
        actions := actions[1..];
        match action {
          case SendMessage(id, reply) =>
            if id in sockets {
              log := log + [Sent(id, reply, now)];
            }
          case DeleteEpoll(id) =>
            OneMore(ids, id);
            ids := ids + [id];
        }
      }
      NothingSent(sockets, now);
    }

    method RemoveAll(ids: seq<nat>)
      modifies agent`clients, this`sockets
      ensures View() == Drop(old(View()), Members(ids))
    {
      var i := 0;
      while i < |ids|
        invariant 0 <= i <= |ids|
        invariant agent.clients == old(agent.clients) - Members(ids[..i])
        invariant sockets == old(sockets) - Members(ids[..i])
      {
        OneMore(ids[..i], ids[i]);
        assert ids[..i + 1] == ids[..i] + [ids[i]];
        hide Members;
        agent.RemoveClient(ids[i]);
        sockets := sockets - {ids[i]};
        i := i + 1;
      }
      assert ids[..i] == ids;
    }

    method OnAccept(now: nat)
      modifies this, agent
      ensures View() == Step(old(View()), Accept(now))
    {
      var id := agent.GetNextClientId();
      sockets := sockets + {id};
      agent.RegisterClient(id, now);
      log := log + [Accepted(id, now)];
      var ids := ProcessActions([], now);
      NothingSent(sockets, now);
      NoneDeleted();
      ghost var settled := View();
      RemoveAll(ids);
      NothingDropped(settled);
    }

    method OnHangUp(id: nat)
      modifies this, agent
      ensures View() == Step(old(View()), HangUp(id))
    {
      var actions := agent.HandleDisconnect(id, []);
      var ids := ProcessActions(actions, 0);
      OnlyDeletes(actions, sockets, 0);
      FirstAction(actions);
      RemoveAll(ids);
    }

    method OnReadable(id: nat, msg: Message, now: nat)
      modifies this, agent
      ensures View() == Step(old(View()), Receive(id, msg, now))
    {
      if id in sockets {
        hide OnMessage;
        var actions := agent.HandleMessage(id, msg, now);
        var ids := ProcessActions(actions, now);
        RemoveAll(ids);
      }
    }

    method OnReadError(id: nat)
      modifies this, agent
      ensures View() == Step(old(View()), ReadError(id))
    {
      if id in sockets {
        OnHangUp(id);
      }
    }

    /** The end of each round: the timer, whose `unwrap` needs the invariant. */
    method OnTimer(e: Event)
      requires e.Tick? && Inv(View())
      modifies this, agent
      ensures View() == Step(old(View()), e)
    {
      hide Alternates, LastSeen, Expired, OnTick;
      var actions := agent.Timer(e);
      var ids := ProcessActions(actions, 0);
      OnlyDeletes(actions, sockets, 0);
      RemoveAll(ids);
    }
  }

  lemma NothingSent(sockets: set<nat>, now: nat)
    ensures SentBy([], sockets, now) == []
  {
  }

  lemma FirstSent(log: seq<Note>, actions: seq<Action>, sockets: set<nat>, now: nat)
    requires actions != []
    ensures var a := actions[0];
      log + SentBy(actions, sockets, now)
        == log + (if a.SendMessage? && a.id in sockets then [Sent(a.id, a.reply, now)] else [])
           + SentBy(actions[1..], sockets, now)
  {
  }

  lemma OneMore(ids: seq<nat>, id: nat)
    ensures Members(ids + [id]) == Members(ids) + {id}
  {
    var more := ids + [id];
    forall x | x in Members(ids) ensures x in Members(more) {
      var i :| 0 <= i < |ids| && ids[i] == x;
      assert more[i] == x;
    }
    assert more[|ids|] == id;
  }
}
