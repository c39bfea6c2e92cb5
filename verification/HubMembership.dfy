/** Who is in which room, and who gets a message. */
module HubMembership {
  import opened Wrappers
  import opened Hub
  import opened HubRuns

  // ---- Registration --------------------------------------------------------------------

  /** The move takes a registered client out: by itself, with its session, with everyone, or because a scan
      found it too slow. */
  predicate Removes(w: World, m: Move, id: ClientId)
    requires id in w.h.clients
  {
    match m
    case DoUnregister(x) => x == id
    case DoEvictSession(s) => s.name != "" && w.h.clients[id].session == s
    case DoShutdown => true
    case EvictSlow(r) => r in w.doomed && id in w.doomed[r]
    case _ => false
  }

  /** A client is registered after a move exactly if it was and is not taken out, or the move registers it;
      it keeps its user, session and workspace. */
  lemma RegisteredExactly(w: World, m: Move, id: ClientId)
    requires Enabled(w, m)
    ensures var t := Do(w, m);
            && (id in t.h.clients <==>
                (id in w.h.clients && !Removes(w, m, id)) || (m.DoRegister? && m.id == id))
            && (id in t.h.clients ==>
                  var was := if m.DoRegister? && m.id == id then m.c else w.h.clients[id];
                  t.h.clients[id] == was.(drops := t.h.clients[id].drops))
  {}

  /** What waits in a client's channel: nothing when it registers; then each message a scan sends it while fewer
      than 256 wait, behind the others; and the write pump takes the first. */
  lemma QueueExactly(w: World, m: Move, id: ClientId)
    requires Safe(w) && Enabled(w, m) && id in Do(w, m).h.channels
    ensures var after := Do(w, m).h.channels[id].queue;
            if m.DoRegister? && m.id == id then after == []
            else
              && id in w.h.channels
              && var before := w.h.channels[id].queue;
                 after == if m.SendNext? && m.id == id && |before| < 256 then before + [m.data]
                          else if m == DoDrain(id) && before != [] then before[1..]
                          else before
  {}

  // ---- Rooms ----------------------------------------------------------------------------

  /** The room every client of a user starts in. */
  predicate IsSignalRoom(room: Room, user: UserId) {
    room.name == "aloqa.signal." + user.name
  }

  predicate HasRegistered(moves: seq<Move>, id: ClientId) {
    exists i :: 0 <= i < |moves| && moves[i].DoRegister? && moves[i].id == id
  }

  /** Whether the last of the client's moves about the room asked to be in it. */
  predicate AsksFor(moves: seq<Move>, id: ClientId, room: Room) {
    if moves == [] then false
    else
      var front, last := moves[..|moves| - 1], moves[|moves| - 1];
      match last
      case DoRegister(x, c) => if x == id then IsSignalRoom(room, c.user) else AsksFor(front, id, room)
      case DoSubscribe(x, r) => if x == id && r == room then HasRegistered(front, id) else AsksFor(front, id, room)
      case DoUnsubscribe(x, r) => if x == id && r == room then false else AsksFor(front, id, room)
      case _ => AsksFor(front, id, room)
  }

  lemma StillMember(h: HubState, ids: set<ClientId>, id: ClientId, room: Room)
    requires RoomsSound(h) && id in RemoveAll(h, ids).clients
    ensures id in MembersOf(RemoveAll(h, ids).rooms, room) <==> id in MembersOf(h.rooms, room)
  {}

  lemma RegisteredMember(h: HubState, x: ClientId, c: Client, id: ClientId, room: Room)
    requires RoomsSound(h) && x !in h.clients
    ensures id in MembersOf(Register(h, x, c).rooms, room) <==>
            if x == id then IsSignalRoom(room, c.user) else id in MembersOf(h.rooms, room)
  {}

  lemma SubscribedMember(h: HubState, x: ClientId, r: Room, id: ClientId, room: Room)
    requires id in h.clients
    ensures id in MembersOf(Subscribe(h, x, r).rooms, room) <==> (x == id && r == room) || id in MembersOf(h.rooms, room)
  {}

  lemma UnsubscribedMember(h: HubState, x: ClientId, r: Room, id: ClientId, room: Room)
    ensures id in MembersOf(Unsubscribe(h, x, r).rooms, room) <==> !(x == id && r == room) && id in MembersOf(h.rooms, room)
  {}

  lemma MemberAfter(w: World, m: Move, id: ClientId, room: Room)
    requires Safe(w) && Enabled(w, m) && id in Do(w, m).h.clients
    ensures id in MembersOf(Do(w, m).h.rooms, room) <==>
            match m
            case DoRegister(x, c) => if x == id then IsSignalRoom(room, c.user) else id in MembersOf(w.h.rooms, room)
            case DoSubscribe(x, r) => (x == id && r == room) || id in MembersOf(w.h.rooms, room)
            case DoUnsubscribe(x, r) => !(x == id && r == room) && id in MembersOf(w.h.rooms, room)
            case _ => id in MembersOf(w.h.rooms, room)
  {
    match m
    case DoUnregister(x) => StillMember(w.h, {x}, id, room);
    case DoEvictSession(s) =>
      if s.name != "" { StillMember(w.h, OfSession(w.h, s), id, room); }
    case DoShutdown => StillMember(w.h, w.h.clients.Keys, id, room);
    case EvictSlow(r) => StillMember(w.h, w.doomed[r], id, room);
    case DoRegister(x, c) => RegisteredMember(w.h, x, c, id, room);
    case DoSubscribe(x, r) => SubscribedMember(w.h, x, r, id, room);
    case DoUnsubscribe(x, r) => UnsubscribedMember(w.h, x, r, id, room);
    case OpenBroadcast(_, _) =>
    case OpenSendToUser(_, _, _) =>
    case SendNext(_, _, _) =>
    case CloseScan(_) =>
    case DoDrain(_) =>
  }

  /** Under every interleaving: a registered client is in exactly the rooms its last subscribe or unsubscribe
      asked for, its signal room counting as asked for when it registered; whoever is not registered is in
      none. */
  lemma {:induction false} MembersAsked(moves: seq<Move>, w: World, id: ClientId, room: Room)
    requires Reached(moves, w)
    ensures id in w.h.clients ==> HasRegistered(moves, id)
    ensures id in MembersOf(w.h.rooms, room) <==> id in w.h.clients && AsksFor(moves, id, room)
  {
    EveryRunIsSafe(moves, w);
    if moves != [] {
      var front, last := moves[..|moves| - 1], moves[|moves| - 1];
      var v :| ReachedFrom(moves, v, w);
      MembersAsked(front, v, id, room);
      EveryRunIsSafe(front, v);
      RegisteredExactly(v, last, id);
      if id in w.h.clients {
        MemberAfter(v, last, id, room);
      }
    }
  }

  // ---- Deliveries --------------------------------------------------------------------------

  /** What a delivery to `to` does to one client: with fewer than 256 messages waiting it gets the message at
      the end and its count of drops starts again; with a full buffer it gets nothing, and the fifth drop in a
      row removes it. */
  ghost predicate Served(h: HubState, t: HubState, id: ClientId, to: bool, data: Data)
    requires id in h.clients && id in h.channels && id in t.channels
  {
    var waiting, drops := h.channels[id].queue, h.clients[id].drops;
    if !to then t.channels[id].queue == waiting && Get(t.clients, id) == Some(h.clients[id])
    else if |waiting| < 256 then
      t.channels[id].queue == waiting + [data] && Get(t.clients, id) == Some(h.clients[id].(drops := 0))
    else
      && t.channels[id].queue == waiting
      && Get(t.clients, id) == if drops == 4 then None else Some(h.clients[id].(drops := drops + 1))
  }

  lemma DeliveredServes(h: HubState, targets: set<ClientId>, data: Data, id: ClientId)
    requires Sound(h) && BelowLimit(h) && id in h.clients
    ensures id in Deliver(h, targets, data).channels
    ensures Served(h, Deliver(h, targets, data), id, id in targets, data)
  {
    DeliverExactly(h, targets, data);
  }

  /** A message to a user reaches exactly the user's clients, those of one workspace if one is named. */
  lemma SendToUserReaches(h: HubState, workspace: Option<nat>, user: UserId, data: Data, id: ClientId)
    requires Sound(h) && BelowLimit(h) && id in h.clients
    ensures id in SendToUser(h, workspace, user, data).channels
    ensures var c := h.clients[id];
            Served(h, SendToUser(h, workspace, user, data), id,
                   c.user == user && (workspace == None || workspace == Some(c.workspace)), data)
  {
    DeliveredServes(h, UserTargets(h, workspace, user), data, id);
  }

  /** A broadcast reaches exactly the room's members. */
  lemma BroadcastReaches(h: HubState, room: Room, data: Data, id: ClientId)
    requires Sound(h) && BelowLimit(h) && id in h.clients
    ensures id in Broadcast(h, room, data).channels
    ensures Served(h, Broadcast(h, room, data), id, room in h.rooms && id in h.rooms[room], data)
  {
    DeliveredServes(h, MembersOf(h.rooms, room), data, id);
  }

  /** What the open scans of an interleaving still have to try, and messages leave a channel in the order they
      came. */
  lemma ScansTargetExactly(w: World, m: Move, id: ClientId)
    requires Safe(w) && Enabled(w, m) && id in w.h.clients
    ensures m.OpenBroadcast? ==>
              (id in Do(w, m).readers[m.reader].todo <==> m.room in w.h.rooms && id in w.h.rooms[m.room])
    ensures m.OpenSendToUser? ==>
              (id in Do(w, m).readers[m.reader].todo <==>
               w.h.clients[id].user == m.user && (m.workspace == None || m.workspace == Some(w.h.clients[id].workspace)))
    ensures m == DoDrain(id) && w.h.channels[id].queue != [] ==>
              [w.h.channels[id].queue[0]] + Do(w, m).h.channels[id].queue == w.h.channels[id].queue
  {}
}
