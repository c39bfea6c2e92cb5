/** The SFU room as a value: who is in it, what is published, and what each peer's senders carry
    (internal/media/sfu/room.go, peer.go, simulcast.go). Each function is one public handler. */
module RoomModel {
  import opened Layers
  import opened Wrappers

  /** A user, track or stream id. */
  datatype Id = Id(name: string)

  /** The identity of a local track: the thing a sender forwards. */
  datatype LocalTrack = LocalTrack(token: nat)

  /** A peer's senders, by track id or stream id. */
  type Subs = map<Id, LocalTrack>

  datatype Router = Router(source: Id, local: LocalTrack)

  datatype Stream = Stream(source: Id, layers: map<Layer, LocalTrack>, recorded: map<Id, Layer>)

  /** The caps as newRoom leaves them: a cap that is not positive has been given its default. */
  datatype Limits = Limits(maxPresenters: nat, maxViewers: nat, maxTracks: nat)

  datatype RoomState = RoomState(
    closed: bool,
    presenters: map<Id, Subs>, viewers: map<Id, Subs>,
    tracks: map<Id, Router>, streams: map<Id, Stream>)

  datatype Role = Presenter | Viewer

  const EMPTY_ROOM := RoomState(false, map[], map[], map[], map[])

  // ---- Subscribing --------------------------------------------------------

  /** Peer.Subscribe: an id already subscribed is left alone. */
  function Subscribe(subs: Subs, id: Id, local: LocalTrack): Subs {
    if id in subs then subs else subs[id := local]
  }

  function SubscribeAll(peers: map<Id, Subs>, id: Id, local: LocalTrack, skip: set<Id>): map<Id, Subs> {
    map u | u in peers :: if u in skip then peers[u] else Subscribe(peers[u], id, local)
  }

  /** subscribeToSimulcastLocked for every peer but one: the sender is replaced. */
  function AttachAll(peers: map<Id, Subs>, id: Id, local: LocalTrack, skip: set<Id>): map<Id, Subs> {
    map u | u in peers :: if u in skip then peers[u] else peers[u][id := local]
  }

  /** Put `users` on record for layer `q`. */
  function RecordAll(recorded: map<Id, Layer>, users: set<Id>, q: Layer): map<Id, Layer> {
    map u | u in recorded.Keys + users :: if u in users then q else recorded[u]
  }

  function UnsubscribeAll(peers: map<Id, Subs>, ids: set<Id>): map<Id, Subs> {
    map u | u in peers :: peers[u] - ids
  }

  /** Whether a joining peer skips an item because it is its own. */
  predicate Skips(role: Role, userID: Id, source: Id) {
    role == Presenter && source == userID
  }

  function DefaultLayer(role: Role): Layer {
    if role == Presenter then High else Medium
  }

  /** The layer a joining peer gets of a stream, if the stream has any. */
  function JoinLayer(st: Stream, role: Role): Option<Layer> {
    var q := BestAvailable(DefaultLayer(role), st.layers.Keys);
    if q in st.layers then Some(q) else None
  }

  function TrackSubs(tracks: map<Id, Router>, userID: Id, role: Role): Subs {
    map id | id in tracks && !Skips(role, userID, tracks[id].source) :: tracks[id].local
  }

  function StreamSubs(streams: map<Id, Stream>, userID: Id, role: Role): Subs {
    map id | id in streams && !Skips(role, userID, streams[id].source) && JoinLayer(streams[id], role).Some?
      :: streams[id].layers[JoinLayer(streams[id], role).value]
  }

  /** What joining makes of the peer's senders for one stream. */
  function JoinSub(subs: Subs, id: Id, st: Stream, userID: Id, role: Role): Subs {
    if Skips(role, userID, st.source) || JoinLayer(st, role) == None then subs
    else subs[id := st.layers[JoinLayer(st, role).value]]
  }

  function JoinSubs(s: RoomState, userID: Id, role: Role): Subs {
    TrackSubs(s.tracks, userID, role) + StreamSubs(s.streams, userID, role)
  }

  function JoinStream(st: Stream, userID: Id, role: Role): Stream {
    if Skips(role, userID, st.source) || JoinLayer(st, role) == None then st
    else st.(recorded := st.recorded[userID := JoinLayer(st, role).value])
  }

  function JoinStreams(streams: map<Id, Stream>, userID: Id, role: Role): map<Id, Stream> {
    map id | id in streams :: JoinStream(streams[id], userID, role)
  }

  predicate Present(s: RoomState, userID: Id) {
    userID in s.presenters || userID in s.viewers
  }

  predicate CanJoin(l: Limits, s: RoomState, userID: Id, role: Role) {
    && !s.closed
    && !Present(s, userID)
    && (role == Presenter ==> |s.presenters| < l.maxPresenters)
    && (role == Viewer ==> |s.viewers| < l.maxViewers)
  }

  /** The joined peer, subscribed to what exists and on record for it. */
  function Enter(s: RoomState, userID: Id, role: Role): RoomState {
    var subs := JoinSubs(s, userID, role);
    var streams := JoinStreams(s.streams, userID, role);
    if role == Presenter then s.(presenters := s.presenters[userID := subs], streams := streams)
    else s.(viewers := s.viewers[userID := subs], streams := streams)
  }

  /** AddPresenter and AddViewer; a refused join changes nothing. */
  function Join(l: Limits, s: RoomState, userID: Id, role: Role): RoomState {
    if CanJoin(l, s, userID, role) then Enter(s, userID, role) else s
  }

  // ---- Leaving -------------------------------------------------------------

  function SourcedBy(tracks: map<Id, Router>, userID: Id): set<Id> {
    set id | id in tracks && tracks[id].source == userID
  }

  function StreamsSourcedBy(streams: map<Id, Stream>, userID: Id): set<Id> {
    set id | id in streams && streams[id].source == userID
  }

  function TracksOf(s: RoomState, userID: Id): set<Id> {
    SourcedBy(s.tracks, userID)
  }

  function StreamsOf(s: RoomState, userID: Id): set<Id> {
    StreamsSourcedBy(s.streams, userID)
  }

  /** The distinct ids a user owns. */
  function Owned(s: RoomState, userID: Id): set<Id> {
    TracksOf(s, userID) + StreamsOf(s, userID)
  }

  function Unsubscribed(s: RoomState, ids: set<Id>): RoomState {
    s.(presenters := UnsubscribeAll(s.presenters, ids), viewers := UnsubscribeAll(s.viewers, ids))
  }

  /** removePresenterTracksLocked. */
  function RemoveTracksOf(s: RoomState, userID: Id): RoomState {
    Unsubscribed(s.(tracks := s.tracks - TracksOf(s, userID), streams := s.streams - StreamsOf(s, userID)),
                 Owned(s, userID))
  }

  function ForgetRecord(st: Stream, userID: Id): Stream {
    st.(recorded := st.recorded - {userID})
  }

  function LeaveViewer(s: RoomState, userID: Id): RoomState {
    s.(viewers := s.viewers - {userID},
       streams := map id | id in s.streams :: ForgetRecord(s.streams[id], userID))
  }

  /** RemovePeer. Only a viewer's layer records are cleared. */
  function Leave(s: RoomState, userID: Id): RoomState {
    if s.closed || !Present(s, userID) then s
    else if userID in s.presenters then
      RemoveTracksOf(s.(presenters := s.presenters - {userID}), userID)
    else
      LeaveViewer(s, userID)
  }

  function Close(s: RoomState): RoomState {
    if s.closed then s else EMPTY_ROOM.(closed := true)
  }

  // ---- Publishing ------------------------------------------------------------

  /** canPublishTrackLocked: republishing an owned id is free, a new one counts against the cap. */
  predicate CanPublish(l: Limits, s: RoomState, userID: Id, id: Id) {
    || (id in s.tracks && s.tracks[id].source == userID)
    || (id in s.streams && s.streams[id].source == userID)
    || |TracksOf(s, userID)| + |StreamsOf(s, userID)| < l.maxTracks
  }

  function SubscribeBoth(s: RoomState, id: Id, local: LocalTrack, source: Id): RoomState {
    s.(presenters := SubscribeAll(s.presenters, id, local, {source}),
       viewers := SubscribeAll(s.viewers, id, local, {}))
  }

  function InsertTrack(s: RoomState, source: Id, id: Id, local: LocalTrack): RoomState {
    SubscribeBoth(s.(tracks := s.tracks[id := Router(source, local)]), id, local, source)
  }

  /** handleNewTrack without an RID; an id already routed is overwritten. */
  function PublishTrack(l: Limits, s: RoomState, userID: Id, id: Id, local: LocalTrack): RoomState {
    if s.closed || !CanPublish(l, s, userID, id) then s else InsertTrack(s, userID, id, local)
  }

  /** A new stream whose first layer is `q`; everyone but the source is attached to it. */
  function InsertStream(s: RoomState, source: Id, id: Id, q: Layer, local: LocalTrack): RoomState {
    s.(streams := s.streams[id := Stream(source, map[q := local],
                                         RecordAll(map[], s.presenters.Keys - {source} + s.viewers.Keys, q))],
       presenters := AttachAll(s.presenters, id, local, {source}),
       viewers := AttachAll(s.viewers, id, local, {}))
  }

  function SetLayer(s: RoomState, id: Id, q: Layer, local: LocalTrack): RoomState
    requires id in s.streams
  {
    var st := s.streams[id];
    s.(streams := s.streams[id := st.(layers := st.layers[q := local])])
  }

  /** handleSimulcastTrack; a layer that already exists is overwritten. */
  function PublishLayer(l: Limits, s: RoomState, userID: Id, id: Id, q: Layer, local: LocalTrack): RoomState {
    if s.closed then s
    else if id in s.streams then SetLayer(s, id, q, local)
    else if !CanPublish(l, s, userID, id) then s
    else InsertStream(s, userID, id, q, local)
  }

  /** injectRelayTrackPacket: neither the cap nor the closed flag is looked at. */
  function InjectTrack(s: RoomState, source: Id, id: Id, local: LocalTrack): RoomState {
    if id in s.tracks then s else InsertTrack(s, source, id, local)
  }

  /** injectRelaySimulcastPacket: an existing layer is kept. */
  function InjectLayer(s: RoomState, source: Id, id: Id, q: Layer, local: LocalTrack): RoomState {
    if id !in s.streams then InsertStream(s, source, id, q, local)
    else if q in s.streams[id].layers then s
    else SetLayer(s, id, q, local)
  }

  // ---- Switching layers --------------------------------------------------------

  datatype Outcome = Done | StreamNotFound | PeerNotFound | LayerNotAvailable | Unnamed

  /** The peer's sender is pointed at the layer's local track and the layer recorded. */
  function Switch(s: RoomState, userID: Id, id: Id, q: Layer): RoomState
    requires Present(s, userID) && id in s.streams && q in s.streams[id].layers
  {
    var st := s.streams[id];
    var streams := s.streams[id := st.(recorded := st.recorded[userID := q])];
    if userID in s.presenters then
      s.(presenters := s.presenters[userID := s.presenters[userID][id := st.layers[q]]], streams := streams)
    else
      s.(viewers := s.viewers[userID := s.viewers[userID][id := st.layers[q]]], streams := streams)
  }

  /** SetSubscriberQuality. */
  function SetQuality(s: RoomState, userID: Id, id: Id, want: Layer): (Outcome, RoomState) {
    if id !in s.streams then (StreamNotFound, s)
    else
      var st := s.streams[id];
      var actual := BestAvailable(want, st.layers.Keys);
      if userID in st.recorded && st.recorded[userID] == actual then (Done, s)
      else if !Present(s, userID) then (PeerNotFound, s)
      else if actual !in st.layers then (LayerNotAvailable, s)
      else (Done, Switch(s, userID, id, actual))
  }

  // ---- Runs -----------------------------------------------------------------

  datatype Step =
    | DoJoin(userID: Id, role: Role)
    | DoLeave(userID: Id)
    | DoClose
    | DoPublishTrack(userID: Id, id: Id, local: LocalTrack)
    | DoPublishLayer(userID: Id, id: Id, q: Layer, local: LocalTrack)
    | DoInjectTrack(source: Id, id: Id, local: LocalTrack)
    | DoInjectLayer(source: Id, id: Id, q: Layer, local: LocalTrack)
    | DoSetQuality(userID: Id, id: Id, want: Layer)

  function Apply(l: Limits, s: RoomState, step: Step): RoomState {
    match step
    case DoJoin(u, role) => Join(l, s, u, role)
    case DoLeave(u) => Leave(s, u)
    case DoClose => Close(s)
    case DoPublishTrack(u, id, local) => PublishTrack(l, s, u, id, local)
    case DoPublishLayer(u, id, q, local) => PublishLayer(l, s, u, id, q, local)
    case DoInjectTrack(src, id, local) => InjectTrack(s, src, id, local)
    case DoInjectLayer(src, id, q, local) => InjectLayer(s, src, id, q, local)
    case DoSetQuality(u, id, want) => SetQuality(s, u, id, want).1
  }

  function Run(l: Limits, steps: seq<Step>): RoomState {
    if steps == [] then EMPTY_ROOM
    else Apply(l, Run(l, steps[..|steps| - 1]), steps[|steps| - 1])
  }
}
