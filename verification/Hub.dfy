/** The WebSocket hub (internal/platform/ws/hub.go): clients, rooms and their send channels. */
module Hub {
  import opened Wrappers

  const SEND_BUF_SIZE := 256
  const MAX_SLOW_DROPS := 5

  datatype ClientId = ClientId(n: nat)

  datatype UserId = UserId(name: string)

  datatype SessionId = SessionId(name: string)

  datatype Room = Room(name: string)

  datatype Data = Data(n: nat)

  /** What the hub keeps of a connection; `drops` counts consecutive failed sends. */
  datatype Client = Client(user: UserId, session: SessionId, workspace: nat, drops: nat)

  /** A client's buffered Send channel and how often it has been closed. */
  datatype Channel = Channel(queue: seq<Data>, closes: nat)

  /** `channels` outlives `clients`: it holds the channel of every client ever registered. */
  datatype HubState = HubState(clients: map<ClientId, Client>, rooms: map<Room, set<ClientId>>,
                               channels: map<ClientId, Channel>)

  const EMPTY_HUB := HubState(map[], map[], map[])

  function SignalRoom(user: UserId): Room {
    Room("aloqa.signal." + user.name)
  }

  function MembersOf(rooms: map<Room, set<ClientId>>, room: Room): set<ClientId> {
    if room in rooms then rooms[room] else {}
  }

  // ---- The locked sections ------------------------------------------------------

  function Register(h: HubState, id: ClientId, c: Client): HubState {
    var room := SignalRoom(c.user);
    HubState(h.clients[id := c], h.rooms[room := MembersOf(h.rooms, room) + {id}],
             h.channels[id := Channel([], 0)])
  }

  function Subscribe(h: HubState, id: ClientId, room: Room): HubState {
    if id !in h.clients then h
    else h.(rooms := h.rooms[room := MembersOf(h.rooms, room) + {id}])
  }

  function Unsubscribe(h: HubState, id: ClientId, room: Room): HubState {
    if room !in h.rooms then h
    else if h.rooms[room] - {id} == {} then h.(rooms := h.rooms - {room})
    else h.(rooms := h.rooms[room := h.rooms[room] - {id}])
  }

  function Without(rooms: map<Room, set<ClientId>>, ids: set<ClientId>): map<Room, set<ClientId>> {
    map r | r in rooms && rooms[r] - ids != {} :: rooms[r] - ids
  }

  function CloseAll(channels: map<ClientId, Channel>, ids: set<ClientId>): map<ClientId, Channel> {
    map id | id in channels :: if id in ids then channels[id].(closes := channels[id].closes + 1) else channels[id]
  }

  /** removeClientLocked for every id: those not registered are left alone. */
  function RemoveAll(h: HubState, ids: set<ClientId>): HubState {
    var gone := ids * h.clients.Keys;
    HubState(h.clients - gone, if gone == {} then h.rooms else Without(h.rooms, gone), CloseAll(h.channels, gone))
  }

  function OfSession(h: HubState, session: SessionId): set<ClientId> {
    set id | id in h.clients && h.clients[id].session == session
  }

  /** The empty session id evicts nobody. */
  function EvictSession(h: HubState, session: SessionId): HubState {
    if session.name == "" then h else RemoveAll(h, OfSession(h, session))
  }

  predicate HasRoom(h: HubState, id: ClientId) {
    id in h.channels && |h.channels[id].queue| < SEND_BUF_SIZE
  }

  /** A non-blocking send to every target: delivered with the counter reset, or dropped and counted. */
  function Scan(h: HubState, targets: set<ClientId>, data: Data): HubState {
    h.(clients := map id | id in h.clients ::
         if id in targets then
           h.clients[id].(drops := if HasRoom(h, id) then 0 else h.clients[id].drops + 1)
         else h.clients[id],
       channels := map id | id in h.channels ::
         if id in targets && id in h.clients && HasRoom(h, id)
         then h.channels[id].(queue := h.channels[id].queue + [data]) else h.channels[id])
  }

  /** The targets a scan puts on its eviction list. */
  function Slow(h: HubState, targets: set<ClientId>): set<ClientId> {
    set id | id in targets && id in h.clients && !HasRoom(h, id) && h.clients[id].drops + 1 >= MAX_SLOW_DROPS
  }

  /** A scan run to completion, with its evictions. */
  function Deliver(h: HubState, targets: set<ClientId>, data: Data): HubState {
    RemoveAll(Scan(h, targets, data), Slow(h, targets))
  }

  function UserTargets(h: HubState, workspace: Option<nat>, user: UserId): set<ClientId> {
    set id | id in h.clients && h.clients[id].user == user
             && (workspace == None || h.clients[id].workspace == workspace.value)
  }

  function Broadcast(h: HubState, room: Room, data: Data): HubState {
    Deliver(h, MembersOf(h.rooms, room), data)
  }

  function SendToUser(h: HubState, workspace: Option<nat>, user: UserId, data: Data): HubState {
    Deliver(h, UserTargets(h, workspace, user), data)
  }

  /** The write pump takes a message out of the channel. */
  function Drain(h: HubState, id: ClientId): HubState {
    if id in h.channels && h.channels[id].queue != [] then
      h.(channels := h.channels[id := h.channels[id].(queue := h.channels[id].queue[1..])])
    else h
  }

  // ---- Sets of removals ------------------------------------------------------------

  lemma WithoutTwice(rooms: map<Room, set<ClientId>>, a: set<ClientId>, b: set<ClientId>)
    ensures Without(Without(rooms, a), b) == Without(rooms, a + b)
  {
    forall r | r in rooms ensures rooms[r] - a - b == rooms[r] - (a + b) {}
  }

  lemma CloseTwice(channels: map<ClientId, Channel>, a: set<ClientId>, b: set<ClientId>)
    requires a !! b
    ensures CloseAll(CloseAll(channels, a), b) == CloseAll(channels, a + b)
  {}
}
