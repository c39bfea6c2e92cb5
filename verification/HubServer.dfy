/** The hub as the object it is: each locked section a method, proved against its function in Hub
    (internal/platform/ws/hub.go). */
module HubServer {
  import opened Wrappers
  import opened Hub

  class Server {
    var clients: map<ClientId, Client>
    var rooms: map<Room, set<ClientId>>
    var channels: map<ClientId, Channel>

    constructor ()
      ensures View() == EMPTY_HUB
    {
      clients, rooms, channels := map[], map[], map[];
    }

    function View(): HubState
      reads this
    {
      HubState(clients, rooms, channels)
    }

    method Join(room: Room, id: ClientId)
      modifies this`rooms
      ensures rooms == old(rooms)[room := MembersOf(old(rooms), room) + {id}]
    {
      if room !in rooms {
        rooms := rooms[room := {}];
      }
      rooms := rooms[room := rooms[room] + {id}];
    }

    method Register(id: ClientId, c: Client)
      modifies this
      ensures View() == Hub.Register(old(View()), id, c)
    {
      clients := clients[id := c];
      channels := channels[id := Channel([], 0)];
      Join(SignalRoom(c.user), id);
    }

    method Subscribe(id: ClientId, room: Room)
      modifies this`rooms
      ensures View() == Hub.Subscribe(old(View()), id, room)
    {
      if id in clients {
        Join(room, id);
      }
    }

    method Unsubscribe(id: ClientId, room: Room)
      modifies this`rooms
      ensures View() == Hub.Unsubscribe(old(View()), id, room)
    {
      if room !in rooms {
        return;
      }
      var members := rooms[room] - {id};
      if members == {} {
        rooms := rooms - {room};
      } else {
        rooms := rooms[room := members];
      }
    }

    /** The loop of removeClientLocked over the rooms. */
    method LeaveRooms(id: ClientId)
      modifies this`rooms
      ensures rooms == Without(old(rooms), {id})
    {
      var todo := rooms.Keys;
      while todo != {}
        invariant todo <= old(rooms).Keys
        invariant forall r :: r in rooms <==> r in old(rooms) && (r in todo || old(rooms)[r] - {id} != {})
        invariant forall r :: r in rooms ==> rooms[r] == if r in todo then old(rooms)[r] else old(rooms)[r] - {id}
      {
        var r :| r in todo;
        var members := rooms[r] - {id};
        if members == {} {
          rooms := rooms - {r};
        } else {
          rooms := rooms[r := members];
        }
        todo := todo - {r};
      }
    }

    method RemoveClient(id: ClientId) returns (removed: bool)
      modifies this
      ensures removed == (id in old(clients))
      ensures View() == RemoveAll(old(View()), {id})
    {
      removed := id in clients;
      if removed {
        assert {id} * clients.Keys == {id};
        clients := clients - {id};
        if id in channels {
          channels := channels[id := channels[id].(closes := channels[id].closes + 1)];
        }
        LeaveRooms(id);
      } else {
        assert {id} * clients.Keys == {};
      }
    }

    /** Removing a set of clients one after the other. */
    method RemoveEach(ids: set<ClientId>)
      modifies this
      ensures View() == RemoveAll(old(View()), ids)
    {
      ghost var done: set<ClientId> := {};
      var todo := ids;
      RemoveNone(View());
      while todo != {}
        invariant done + todo == ids && done !! todo
        invariant View() == RemoveAll(old(View()), done)
      {
        var id :| id in todo;
        RemoveOneMore(old(View()), done, id);
        var removed := RemoveClient(id);
        done, todo := done + {id}, todo - {id};
      }
      assert done == ids;
    }

    /** Run's shutdown section. */
    method Shutdown()
      modifies this
      ensures View() == RemoveAll(old(View()), old(clients).Keys)
    {
      RemoveEach(clients.Keys);
    }

    /** The sessions' clients are removed while the clients are scanned. */
    method EvictSession(session: SessionId)
      modifies this
      ensures View() == Hub.EvictSession(old(View()), session)
    {
      if session.name == "" {
        return;
      }
      ghost var done: set<ClientId> := {};
      var todo := clients.Keys;
      RemoveNone(View());
      while todo != {}
        invariant todo <= old(clients).Keys
        invariant forall id :: id in done <==> id in OfSession(old(View()), session) && id !in todo
        invariant View() == RemoveAll(old(View()), done)
      {
        var id :| id in todo;
        if clients[id].session == session {
          RemoveOneMore(old(View()), done, id);
          var removed := RemoveClient(id);
          done := done + {id};
        }
        todo := todo - {id};
      }
      assert done == OfSession(old(View()), session);
    }

    /** One non-blocking send; `slow` says whether the client is to be evicted. */
    method Send(id: ClientId, data: Data) returns (slow: bool)
      requires id in clients && id in channels
      modifies this`clients, this`channels
      ensures View() == Scan(old(View()), {id}, data)
      ensures slow == (id in Slow(old(View()), {id}))
    {
      slow := false;
      if |channels[id].queue| < SEND_BUF_SIZE {
        channels := channels[id := channels[id].(queue := channels[id].queue + [data])];
        clients := clients[id := clients[id].(drops := 0)];
      } else {
        var drops := clients[id].drops + 1;
        clients := clients[id := clients[id].(drops := drops)];
        slow := drops >= MAX_SLOW_DROPS;
      }
    }

    /** The read-locked loop over the targets, then evictSlowClients. Ids that are not registered are
        skipped. */
    method DeliverTo(targets: set<ClientId>, data: Data)
      requires forall id :: id in clients ==> id in channels
      modifies this
      ensures View() == Deliver(old(View()), targets, data)
    {
      var toEvict: set<ClientId> := {};
      ghost var done: set<ClientId> := {};
      var todo := targets;
      ScanNone(View(), data);
      while todo != {}
        invariant todo <= targets && done == targets - todo
        invariant clients.Keys == old(clients).Keys && forall id :: id in clients ==> id in channels
        invariant View() == Scan(old(View()), done, data)
        invariant toEvict == Slow(old(View()), done)
      {
        var id :| id in todo;
        ScanOneMore(old(View()), done, id, data);
        SlowOneMore(old(View()), done, id, data);
        if id in clients {
          var slow := Send(id, data);
          if slow {
            toEvict := toEvict + {id};
          }
        }
        done, todo := done + {id}, todo - {id};
      }
      assert done == targets;
      RemoveEach(toEvict);
    }

    method BroadcastToRoom(room: Room, data: Data)
      requires forall id :: id in clients ==> id in channels
      modifies this
      ensures View() == Broadcast(old(View()), room, data)
    {
      if room !in rooms {
        NobodyToDeliverTo(View(), data);
        return;
      }
      DeliverTo(rooms[room], data);
    }

    method SendToUser(workspace: Option<nat>, user: UserId, data: Data)
      requires forall id :: id in clients ==> id in channels
      modifies this
      ensures View() == Hub.SendToUser(old(View()), workspace, user, data)
    {
      var targets: set<ClientId> := {};
      var todo := clients.Keys;
      while todo != {}
        invariant todo <= clients.Keys
        invariant targets == UserTargets(View(), workspace, user) - todo
      {
        var id :| id in todo;
        if clients[id].user == user && !(workspace.Some? && clients[id].workspace != workspace.value) {
          targets := targets + {id};
        }
        todo := todo - {id};
      }
      assert targets == UserTargets(View(), workspace, user);
      DeliverTo(targets, data);
    }
  }

  lemma RemoveNone(h: HubState)
    ensures RemoveAll(h, {}) == h
  {}

  lemma RemoveOneMore(h: HubState, ids: set<ClientId>, id: ClientId)
    requires id !in ids
    ensures RemoveAll(RemoveAll(h, ids), {id}) == RemoveAll(h, ids + {id})
  {
    var a, b := ids * h.clients.Keys, {id} * (h.clients - ids * h.clients.Keys).Keys;
    assert a + b == (ids + {id}) * h.clients.Keys;
    WithoutTwice(h.rooms, a, b);
    CloseTwice(h.channels, a, b);
    if b == {} {
      assert a + b == a;
    }
    if a == {} {
      assert a + b == b;
    }
  }

  lemma ScanNone(h: HubState, data: Data)
    ensures Scan(h, {}, data) == h
  {}

  /** Sending to one more client, registered or not. */
  lemma ScanOneMore(h: HubState, ids: set<ClientId>, id: ClientId, data: Data)
    requires id !in ids
    ensures Scan(Scan(h, ids, data), {id}, data) == Scan(h, ids + {id}, data)
    ensures id !in h.clients ==> Scan(h, ids + {id}, data) == Scan(h, ids, data)
  {}

  lemma SlowOneMore(h: HubState, ids: set<ClientId>, id: ClientId, data: Data)
    requires id !in ids
    ensures Slow(h, ids + {id}) == Slow(h, ids) + Slow(Scan(h, ids, data), {id})
  {}

  lemma NobodyToDeliverTo(h: HubState, data: Data)
    ensures Deliver(h, {}, data) == h
  {}
}
