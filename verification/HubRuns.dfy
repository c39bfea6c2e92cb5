/** What every interleaving of the hub's locked sections keeps. Broadcasts scan under the read lock,
    one send at a time and possibly several at once; everything else needs the write lock. */
module HubRuns {
  import opened Wrappers
  import opened Hub

  /** A scan that holds the read lock: the targets still to try and its eviction list. */
  datatype Reader = Reader(todo: set<ClientId>, slow: set<ClientId>)

  /** `doomed` holds the eviction lists of scans that are over and wait for the write lock. */
  datatype World = World(h: HubState, readers: map<nat, Reader>, doomed: map<nat, set<ClientId>>)

  datatype Move =
    | DoRegister(id: ClientId, c: Client)
    | DoUnregister(id: ClientId)
    | DoEvictSession(session: SessionId)
    | DoSubscribe(id: ClientId, room: Room)
    | DoUnsubscribe(id: ClientId, room: Room)
    | DoShutdown
    | OpenBroadcast(reader: nat, room: Room)
    | OpenSendToUser(reader: nat, workspace: Option<nat>, user: UserId)
    | SendNext(reader: nat, id: ClientId, data: Data)
    | CloseScan(reader: nat)
    | EvictSlow(reader: nat)
    | DoDrain(id: ClientId)

  /** The write lock waits for all readers; client ids are fresh and register with no drops; a scan
      closes when it has tried all its targets. */
  predicate Enabled(w: World, m: Move) {
    match m
    case DoRegister(id, c) => w.readers == map[] && id !in w.h.channels && c.drops == 0
    case DoUnregister(_) => w.readers == map[]
    case DoEvictSession(_) => w.readers == map[]
    case DoSubscribe(_, _) => w.readers == map[]
    case DoUnsubscribe(_, _) => w.readers == map[]
    case DoShutdown => w.readers == map[]
    case OpenBroadcast(r, _) => r !in w.readers && r !in w.doomed
    case OpenSendToUser(r, _, _) => r !in w.readers && r !in w.doomed
    case SendNext(r, id, _) => r in w.readers && id in w.readers[r].todo
    case CloseScan(r) => r in w.readers && w.readers[r].todo == {}
    case EvictSlow(r) => w.readers == map[] && r in w.doomed
    case DoDrain(_) => true
  }

  function Open(w: World, r: nat, targets: set<ClientId>): World {
    w.(readers := w.readers[r := Reader(targets, {})])
  }

  function Do(w: World, m: Move): World
    requires Enabled(w, m)
  {
    match m
    case DoRegister(id, c) => w.(h := Register(w.h, id, c))
    case DoUnregister(id) => w.(h := RemoveAll(w.h, {id}))
    case DoEvictSession(s) => w.(h := EvictSession(w.h, s))
    case DoSubscribe(id, room) => w.(h := Subscribe(w.h, id, room))
    case DoUnsubscribe(id, room) => w.(h := Unsubscribe(w.h, id, room))
    case DoShutdown => w.(h := RemoveAll(w.h, w.h.clients.Keys))
    case OpenBroadcast(r, room) => Open(w, r, MembersOf(w.h.rooms, room))
    case OpenSendToUser(r, workspace, user) => Open(w, r, UserTargets(w.h, workspace, user))
    case SendNext(r, id, data) =>
      var rd := w.readers[r];
      w.(h := Scan(w.h, {id}, data),
         readers := w.readers[r := Reader(rd.todo - {id}, rd.slow + Slow(w.h, {id}))])
    case CloseScan(r) => w.(readers := w.readers - {r}, doomed := w.doomed[r := w.readers[r].slow])
    case EvictSlow(r) => w.(h := RemoveAll(w.h, w.doomed[r]), doomed := w.doomed - {r})
    case DoDrain(id) => w.(h := Drain(w.h, id))
  }

  // ---- Rooms and channels ------------------------------------------------------------

  /** Rooms are non-empty and hold only registered clients. */
  ghost predicate RoomsSound(h: HubState) {
    forall r :: r in h.rooms ==> h.rooms[r] != {} && h.rooms[r] <= h.clients.Keys
  }

  /** A registered client's channel is open; every other channel was closed exactly once. */
  ghost predicate ChannelsSound(h: HubState) {
    && (forall id :: id in h.clients ==> id in h.channels)
    && (forall id :: id in h.channels ==> h.channels[id].closes == if id in h.clients then 0 else 1)
  }

  ghost predicate Sound(h: HubState) {
    RoomsSound(h) && ChannelsSound(h)
  }

  lemma RegisterSound(h: HubState, id: ClientId, c: Client)
    requires Sound(h) && id !in h.channels
    ensures Sound(Register(h, id, c))
  {}

  lemma SubscribeSound(h: HubState, id: ClientId, room: Room)
    requires Sound(h)
    ensures Sound(Subscribe(h, id, room))
  {}

  lemma UnsubscribeSound(h: HubState, id: ClientId, room: Room)
    requires Sound(h)
    ensures Sound(Unsubscribe(h, id, room))
  {}

  lemma RemoveSound(h: HubState, ids: set<ClientId>)
    requires Sound(h)
    ensures Sound(RemoveAll(h, ids))
  {}

  lemma ScanSound(h: HubState, ids: set<ClientId>, data: Data)
    requires Sound(h)
    ensures Sound(Scan(h, ids, data))
  {}

  lemma DrainSound(h: HubState, id: ClientId)
    requires Sound(h)
    ensures Sound(Drain(h, id))
  {}

  // ---- Readers -----------------------------------------------------------------------

  /** The targets an open scan has still to try are all registered. */
  ghost predicate TargetsRegistered(w: World) {
    forall r :: r in w.readers ==> w.readers[r].todo <= w.h.clients.Keys
  }

  /** Some scan, open or over, has the client on its eviction list. */
  ghost predicate Condemned(w: World, id: ClientId) {
    || (exists r :: r in w.readers && id in w.readers[r].slow)
    || (exists r :: r in w.doomed && id in w.doomed[r])
  }

  /** Every client that has reached the limit of consecutive drops is about to be evicted. */
  ghost predicate SlowCondemned(w: World) {
    forall id :: id in w.h.clients && w.h.clients[id].drops >= MAX_SLOW_DROPS ==> Condemned(w, id)
  }

  ghost predicate Safe(w: World) {
    Sound(w.h) && TargetsRegistered(w) && SlowCondemned(w)
  }

  /** No send reaches a closed channel: a scan's next target is registered and its channel open. */
  lemma SendsReachOpenChannels(w: World, reader: nat, id: ClientId)
    requires Safe(w) && reader in w.readers && id in w.readers[reader].todo
    ensures id in w.h.clients && id in w.h.channels && w.h.channels[id].closes == 0
  {}

  /** With no scan open or waiting to evict, nobody has reached the limit. */
  lemma QuietMeansBelowLimit(w: World)
    requires Safe(w) && w.readers == map[] && w.doomed == map[]
    ensures forall id :: id in w.h.clients ==> w.h.clients[id].drops < MAX_SLOW_DROPS
  {}

  /** Under the write lock, a section that only drops clients or adds ones without drops. */
  lemma WriterSafe(w: World, h: HubState)
    requires Safe(w) && w.readers == map[] && Sound(h)
    requires forall id :: id in h.clients && h.clients[id].drops > 0 ==> id in w.h.clients && w.h.clients[id] == h.clients[id]
    ensures Safe(w.(h := h))
  {}

  lemma OpenSafe(w: World, r: nat, targets: set<ClientId>)
    requires Safe(w) && r !in w.readers && targets <= w.h.clients.Keys
    ensures Safe(Open(w, r, targets))
  {
    var w' := Open(w, r, targets);
    forall id | id in w'.h.clients && w'.h.clients[id].drops >= MAX_SLOW_DROPS ensures Condemned(w', id) {
      assert Condemned(w, id);
      if x :| x in w.readers && id in w.readers[x].slow {
        assert id in w'.readers[x].slow;
      }
    }
  }

  lemma SendSafe(w: World, r: nat, id: ClientId, data: Data)
    requires Safe(w) && Enabled(w, SendNext(r, id, data))
    ensures Safe(Do(w, SendNext(r, id, data)))
  {
    var w' := Do(w, SendNext(r, id, data));
    ScanSound(w.h, {id}, data);
    assert w'.h.clients.Keys == w.h.clients.Keys;
    forall x | x in w'.readers ensures w'.readers[x].todo <= w'.h.clients.Keys {
      assert w.readers[x].todo <= w.h.clients.Keys;
    }
    forall x | x in w'.h.clients && w'.h.clients[x].drops >= MAX_SLOW_DROPS ensures Condemned(w', x) {
      if x == id {
        assert id in w'.readers[r].slow;
      } else {
        StillCondemned(w, r, id, data, x);
      }
    }
  }

  lemma StillCondemned(w: World, r: nat, id: ClientId, data: Data, x: ClientId)
    requires Enabled(w, SendNext(r, id, data)) && Condemned(w, x)
    ensures Condemned(Do(w, SendNext(r, id, data)), x)
  {
    var w' := Do(w, SendNext(r, id, data));
    if y :| y in w.readers && x in w.readers[y].slow {
      assert x in w'.readers[y].slow;
    }
  }

  lemma CloseSafe(w: World, r: nat)
    requires Safe(w) && Enabled(w, CloseScan(r)) && r !in w.doomed
    ensures Safe(Do(w, CloseScan(r)))
  {
    var w' := Do(w, CloseScan(r));
    forall id | id in w'.h.clients && w'.h.clients[id].drops >= MAX_SLOW_DROPS ensures Condemned(w', id) {
      assert Condemned(w, id);
      if x :| x in w.readers && id in w.readers[x].slow {
        if x == r {
          assert id in w'.doomed[r];
        } else {
          assert id in w'.readers[x].slow;
        }
      } else {
        var x :| x in w.doomed && id in w.doomed[x];
        assert id in w'.doomed[x];
      }
    }
  }

  lemma EvictSafe(w: World, r: nat)
    requires Safe(w) && Enabled(w, EvictSlow(r))
    ensures Safe(Do(w, EvictSlow(r)))
  {
    var w' := Do(w, EvictSlow(r));
    RemoveSound(w.h, w.doomed[r]);
    forall id | id in w'.h.clients && w'.h.clients[id].drops >= MAX_SLOW_DROPS ensures Condemned(w', id) {
      assert Condemned(w, id) && id !in w.doomed[r];
      var x :| x in w.doomed && id in w.doomed[x];
      assert id in w'.doomed[x];
    }
  }

  lemma RemovalSafe(w: World, ids: set<ClientId>)
    requires Safe(w) && w.readers == map[]
    ensures Safe(w.(h := RemoveAll(w.h, ids)))
  {}

  /** Reader names are not used twice at a time. */
  ghost predicate NamesApart(w: World) {
    forall r :: r in w.readers ==> r !in w.doomed
  }

  lemma MoveKeepsSafe(w: World, m: Move)
    requires Safe(w) && NamesApart(w) && Enabled(w, m)
    ensures Safe(Do(w, m)) && NamesApart(Do(w, m))
  {
    match m
    case DoRegister(id, c) =>
      RegisterSound(w.h, id, c);
      WriterSafe(w, Register(w.h, id, c));
    case DoUnregister(id) => RemovalSafe(w, {id});
    case DoEvictSession(s) => RemovalSafe(w, OfSession(w.h, s));
    case DoSubscribe(id, room) =>
      SubscribeSound(w.h, id, room);
      WriterSafe(w, Subscribe(w.h, id, room));
    case DoUnsubscribe(id, room) =>
      UnsubscribeSound(w.h, id, room);
      WriterSafe(w, Unsubscribe(w.h, id, room));
    case DoShutdown => RemovalSafe(w, w.h.clients.Keys);
    case OpenBroadcast(r, room) => OpenSafe(w, r, MembersOf(w.h.rooms, room));
    case OpenSendToUser(r, workspace, user) => OpenSafe(w, r, UserTargets(w.h, workspace, user));
    case SendNext(r, id, data) => SendSafe(w, r, id, data);
    case CloseScan(r) => CloseSafe(w, r);
    case EvictSlow(r) => EvictSafe(w, r);
    case DoDrain(id) =>
      DrainSound(w.h, id);
      DrainSafe(w, id);
  }

  lemma DrainSafe(w: World, id: ClientId)
    requires Safe(w)
    ensures Safe(w.(h := Drain(w.h, id)))
  {}

  const START := World(EMPTY_HUB, map[], map[])

  /** `w` is reached by some enabled moves. */
  ghost predicate Reached(moves: seq<Move>, w: World)
    decreases |moves|, 1
  {
    if moves == [] then w == START
    else exists v :: ReachedFrom(moves, v, w)
  }

  ghost predicate ReachedFrom(moves: seq<Move>, v: World, w: World)
    requires moves != []
    decreases |moves|, 0
  {
    Reached(moves[..|moves| - 1], v) && Enabled(v, moves[|moves| - 1]) && w == Do(v, moves[|moves| - 1])
  }

  /** Under every interleaving: rooms are non-empty and hold only registered clients, every channel is
      closed exactly once and only at removal, and whoever reaches the limit of drops is on an
      eviction list. */
  lemma {:induction false} EveryRunIsSafe(moves: seq<Move>, w: World)
    requires Reached(moves, w)
    ensures Safe(w) && NamesApart(w)
  {
    if moves != [] {
      var v :| ReachedFrom(moves, v, w);
      EveryRunIsSafe(moves[..|moves| - 1], v);
      MoveKeepsSafe(v, moves[|moves| - 1]);
    }
  }

  // ---- Broadcasts run to completion -----------------------------------------------------

  ghost predicate BelowLimit(h: HubState) {
    forall id :: id in h.clients ==> h.clients[id].drops < MAX_SLOW_DROPS
  }

  /** A delivery run to completion: every target either gets the message once, at the end of its
      queue, with its counter reset, or has a full buffer and loses it; a target is removed exactly
      when that was one drop too many; nobody else is touched; and no registered client is left at the
      limit. */
  lemma DeliverExactly(h: HubState, targets: set<ClientId>, data: Data)
    requires Sound(h) && BelowLimit(h)
    ensures var t := Deliver(h, targets, data);
            && Sound(t) && BelowLimit(t)
            && (forall id :: id in h.channels ==>
                  (id in t.channels &&
                   t.channels[id].queue ==
                     h.channels[id].queue + if id in targets && id in h.clients && HasRoom(h, id) then [data] else []))
            && (forall id :: id in h.clients ==>
                  (id !in t.clients <==> id in targets && !HasRoom(h, id) && h.clients[id].drops == MAX_SLOW_DROPS - 1))
            && (forall id :: id in t.clients ==>
                  (id in h.clients &&
                   t.clients[id].drops == if id !in targets then h.clients[id].drops
                                          else if HasRoom(h, id) then 0 else h.clients[id].drops + 1))
  {
    ScanSound(h, targets, data);
    RemoveSound(Scan(h, targets, data), Slow(h, targets));
    var t := Deliver(h, targets, data);
    forall id | id in h.channels
      ensures id in t.channels && t.channels[id].queue ==
              h.channels[id].queue + if id in targets && id in h.clients && HasRoom(h, id) then [data] else []
    {
      assert h.channels[id].queue + [] == h.channels[id].queue;
    }
  }
}
