/** The room, a peer and a simulcast track as objects, each method proved against its function in
    RoomModel (internal/media/sfu/room.go, peer.go, simulcast.go). */
module Room {
  import opened Layers
  import opened Wrappers
  import opened RoomModel
  import Adaptive
  import RoomControl

  class Peer {
    const userID: Id
    const role: Role
    var closed: bool
    var subscriptions: Subs

    constructor (userID: Id, role: Role)
      ensures this.userID == userID && this.role == role
      ensures !closed && subscriptions == map[]
    {
      this.userID, this.role := userID, role;
      closed, subscriptions := false, map[];
    }

    method Subscribe(id: Id, local: LocalTrack) returns (ok: bool)
      modifies this`subscriptions
      ensures ok == !closed
      ensures subscriptions == if closed then old(subscriptions) else RoomModel.Subscribe(old(subscriptions), id, local)
    {
      if closed {
        return false;
      }
      if id !in subscriptions {
        subscriptions := subscriptions[id := local];
      }
      ok := true;
    }

    method Unsubscribe(id: Id)
      modifies this`subscriptions
      ensures subscriptions == if closed then old(subscriptions) else old(subscriptions) - {id}
    {
      if !closed && id in subscriptions {
        subscriptions := subscriptions - {id};
      }
    }

    /** Close drops every subscription, once. */
    method Close()
      modifies this
      ensures closed
      ensures subscriptions == if old(closed) then old(subscriptions) else map[]
    {
      if !closed {
        closed := true;
        subscriptions := map[];
      }
    }
  }

  class SimulcastTrack {
    const streamID: Id
    const sourcePeer: Id
    var layers: map<Layer, LocalTrack>
    var subscribers: map<Id, Layer>
    var closed: bool

    constructor (streamID: Id, sourcePeer: Id)
      ensures this.streamID == streamID && this.sourcePeer == sourcePeer
      ensures View() == Stream(sourcePeer, map[], map[]) && !closed
    {
      this.streamID, this.sourcePeer := streamID, sourcePeer;
      layers, subscribers, closed := map[], map[], false;
    }

    function View(): Stream
      reads this`layers, this`subscribers
    {
      Stream(sourcePeer, layers, subscribers)
    }

    /** An existing layer of that quality is overwritten. */
    method AddLayer(q: Layer, local: LocalTrack) returns (ok: bool)
      modifies this`layers
      ensures ok == !closed
      ensures View() == if ok then old(View()).(layers := old(layers)[q := local]) else old(View())
    {
      if closed {
        return false;
      }
      layers := layers[q := local];
      ok := true;
    }

    /** An existing layer of that quality is kept. */
    method AddInjectedLayer(q: Layer, local: LocalTrack) returns (ok: bool)
      modifies this`layers
      ensures ok == !closed
      ensures View() == if ok && q !in old(layers) then old(View()).(layers := old(layers)[q := local]) else old(View())
    {
      if closed {
        return false;
      }
      if q !in layers {
        layers := layers[q := local];
      }
      ok := true;
    }

    method BestAvailableLayer(preferred: Layer) returns (q: Layer)
      ensures q == BestAvailable(preferred, layers.Keys)
    {
      var order := LayerPriority(preferred);
      for i := 0 to |order|
        invariant forall j :: 0 <= j < i ==> order[j] !in layers
      {
        if order[i] in layers {
          return order[i];
        }
      }
      assert order[0] !in layers && order[1] !in layers && order[2] !in layers;
      q := High;
    }

    method SetSubscriberLayer(userID: Id, q: Layer)
      modifies this`subscribers
      ensures View() == old(View()).(recorded := old(subscribers)[userID := q])
    {
      subscribers := subscribers[userID := q];
    }

    method RemoveSubscriber(userID: Id)
      modifies this`subscribers
      ensures View() == ForgetRecord(old(View()), userID)
    {
      subscribers := subscribers - {userID};
    }

    method Close()
      modifies this
      ensures closed && View() == old(View())
    {
      closed := true;
    }
  }

  // ---- Loops over the peers of a room ------------------------------------------

  method SubscribePeers(peers: map<Id, Subs>, id: Id, local: LocalTrack, skip: set<Id>) returns (r: map<Id, Subs>)
    ensures r == SubscribeAll(peers, id, local, skip)
  {
    r := peers;
    var todo := peers.Keys;
    while todo != {}
      invariant todo <= peers.Keys && r.Keys == peers.Keys
      invariant forall u :: u in peers ==>
        r[u] == if u in todo || u in skip then peers[u] else Subscribe(peers[u], id, local)
    {
      var u :| u in todo;
      if u !in skip && id !in r[u] {
        r := r[u := r[u][id := local]];
      }
      todo := todo - {u};
    }
  }

  method UnsubscribePeers(peers: map<Id, Subs>, id: Id) returns (r: map<Id, Subs>)
    ensures r == UnsubscribeAll(peers, {id})
  {
    r := peers;
    var todo := peers.Keys;
    while todo != {}
      invariant todo <= peers.Keys && r.Keys == peers.Keys
      invariant forall u :: u in peers ==> r[u] == if u in todo then peers[u] else peers[u] - {id}
    {
      var u :| u in todo;
      r := r[u := r[u] - {id}];
      todo := todo - {u};
    }
  }

  /** subscribeToSimulcastLocked for every peer but those in `skip`. */
  method AttachPeers(peers: map<Id, Subs>, recorded: map<Id, Layer>, id: Id, q: Layer, local: LocalTrack, skip: set<Id>)
    returns (r: map<Id, Subs>, rec: map<Id, Layer>)
    ensures r == AttachAll(peers, id, local, skip)
    ensures rec == RecordAll(recorded, peers.Keys - skip, q)
  {
    r, rec := peers, recorded;
    ghost var done: set<Id> := {};
    var todo := peers.Keys - skip;
    while todo != {}
      invariant todo <= peers.Keys - skip && done == peers.Keys - skip - todo
      invariant r.Keys == peers.Keys
      invariant rec == RecordAll(recorded, done, q)
      invariant forall u :: u in peers ==> r[u] == if u in done then peers[u][id := local] else peers[u]
    {
      var u :| u in todo;
      r := r[u := r[u][id := local]];
      RecordOneMore(recorded, done, q, u);
      rec := rec[u := q];
      done, todo := done + {u}, todo - {u};
    }
    assert done == peers.Keys - skip;
  }

  lemma RecordOneMore(recorded: map<Id, Layer>, users: set<Id>, q: Layer, u: Id)
    ensures RecordAll(recorded, users, q)[u := q] == RecordAll(recorded, users + {u}, q)
  {}

  /** The first loop of subscribePeerToExistingTracks. */
  method SubscribeToTracks(userID: Id, role: Role, tracks: map<Id, Router>) returns (subs: Subs)
    ensures subs == TrackSubs(tracks, userID, role)
  {
    subs := map[];
    var todo := tracks.Keys;
    while todo != {}
      invariant todo <= tracks.Keys
      invariant subs == TrackSubs(tracks - todo, userID, role)
    {
      var id :| id in todo;
      if !(role == Presenter && tracks[id].source == userID) && id !in subs {
        subs := subs[id := tracks[id].local];
      }
      todo := todo - {id};
    }
    assert tracks - {} == tracks;
  }

  /** One round of the second loop: the peer joins the stream at the best layer for its role. */
  method SubscribeToStream(userID: Id, role: Role, subs0: Subs, id: Id, st0: Stream) returns (subs: Subs, st: Stream)
    ensures subs == JoinSub(subs0, id, st0, userID, role)
    ensures st == JoinStream(st0, userID, role)
  {
    subs, st := subs0, st0;
    if !(role == Presenter && st.source == userID) {
      var q := BestAvailable(DefaultLayer(role), st.layers.Keys);
      if q in st.layers {
        subs := subs[id := st.layers[q]];
        st := st.(recorded := st.recorded[userID := q]);
      }
    }
  }

  /** The second loop of subscribePeerToExistingTracks. */
  method SubscribeToStreams(userID: Id, role: Role, subs0: Subs, streams0: map<Id, Stream>)
    returns (subs: Subs, streams: map<Id, Stream>)
    ensures subs == subs0 + StreamSubs(streams0, userID, role)
    ensures streams == JoinStreams(streams0, userID, role)
  {
    subs, streams := subs0, streams0;
    var todo := streams.Keys;
    while todo != {}
      invariant todo <= streams0.Keys && streams.Keys == streams0.Keys
      invariant subs == subs0 + StreamSubs(streams0 - todo, userID, role)
      invariant forall id :: id in streams0 ==>
        streams[id] == if id in todo then streams0[id] else JoinStream(streams0[id], userID, role)
    {
      var id :| id in todo;
      StreamSubsGrow(subs0, streams0, todo, id, userID, role);
      var st;
      subs, st := SubscribeToStream(userID, role, subs, id, streams[id]);
      streams := streams[id := st];
      todo := todo - {id};
    }
    assert streams0 - {} == streams0;
  }

  method CountTracks(tracks: map<Id, Router>, userID: Id) returns (count: nat)
    ensures count == |SourcedBy(tracks, userID)|
  {
    count := 0;
    ghost var counted: set<Id> := {};
    var todo := tracks.Keys;
    while todo != {}
      invariant todo <= tracks.Keys && counted == SourcedBy(tracks, userID) - todo && count == |counted|
    {
      var id :| id in todo;
      if tracks[id].source == userID {
        count, counted := count + 1, counted + {id};
      }
      todo := todo - {id};
    }
    assert counted == SourcedBy(tracks, userID);
  }

  method CountStreams(streams: map<Id, Stream>, userID: Id) returns (count: nat)
    ensures count == |StreamsSourcedBy(streams, userID)|
  {
    count := 0;
    ghost var counted: set<Id> := {};
    var todo := streams.Keys;
    while todo != {}
      invariant todo <= streams.Keys && counted == StreamsSourcedBy(streams, userID) - todo && count == |counted|
    {
      var id :| id in todo;
      if streams[id].source == userID {
        count, counted := count + 1, counted + {id};
      }
      todo := todo - {id};
    }
    assert counted == StreamsSourcedBy(streams, userID);
  }

  lemma StreamSubsGrow(subs: Subs, streams: map<Id, Stream>, todo: set<Id>, id: Id, userID: Id, role: Role)
    requires id in todo && id in streams
    ensures JoinSub(subs + StreamSubs(streams - todo, userID, role), id, streams[id], userID, role)
         == subs + StreamSubs(streams - (todo - {id}), userID, role)
  {
    assert streams - (todo - {id}) == (streams - todo)[id := streams[id]];
    StreamSubsAdd(streams - todo, id, streams[id], userID, role);
  }

  lemma StreamSubsAdd(streams: map<Id, Stream>, id: Id, st: Stream, userID: Id, role: Role)
    requires id !in streams
    ensures StreamSubs(streams[id := st], userID, role) == JoinSub(StreamSubs(streams, userID, role), id, st, userID, role)
  {}

  lemma UnsubscribeNothing(peers: map<Id, Subs>)
    ensures UnsubscribeAll(peers, {}) == peers
  {
    forall u | u in peers ensures peers[u] - {} == peers[u] {}
  }

  lemma UnsubscribeMore(peers: map<Id, Subs>, ids: set<Id>, id: Id)
    ensures UnsubscribeAll(UnsubscribeAll(peers, ids), {id}) == UnsubscribeAll(peers, ids + {id})
  {
    forall u | u in peers ensures peers[u] - ids - {id} == peers[u] - (ids + {id}) {}
  }

  lemma UnsubscribeTwice(peers: map<Id, Subs>, a: set<Id>, b: set<Id>)
    ensures UnsubscribeAll(UnsubscribeAll(peers, a), b) == UnsubscribeAll(peers, a + b)
  {
    forall u | u in peers ensures peers[u] - a - b == peers[u] - (a + b) {}
  }

  /** What AttachEveryone makes of a room. */
  ghost function Attached(s: RoomState, id: Id, q: Layer): RoomState
    requires id in s.streams && q in s.streams[id].layers
  {
    var st := s.streams[id];
    s.(streams := s.streams[id := st.(recorded :=
           RecordAll(st.recorded, s.presenters.Keys - {st.source} + (s.viewers.Keys - {}), q))],
       presenters := AttachAll(s.presenters, id, st.layers[q], {st.source}),
       viewers := AttachAll(s.viewers, id, st.layers[q], {}))
  }

  lemma InsertedThenAttached(s: RoomState, source: Id, id: Id, q: Layer, local: LocalTrack)
    requires id !in s.streams
    ensures var t := SetLayer(s.(streams := s.streams[id := Stream(source, map[], map[])]), id, q, local);
            Attached(t, id, q) == InsertStream(s, source, id, q, local)
  {
    assert s.viewers.Keys - {} == s.viewers.Keys;
  }

  lemma WithoutOneMore(state: map<string, Adaptive.AdaptiveState>, ids: set<Id>, id: Id)
    ensures (map k | k in WithoutStreams(state, ids) && !Adaptive.HasSuffix(k, ":" + id.name) :: WithoutStreams(state, ids)[k])
         == WithoutStreams(state, ids + {id})
  {}

  lemma RecordTwice(recorded: map<Id, Layer>, a: set<Id>, b: set<Id>, q: Layer)
    ensures RecordAll(RecordAll(recorded, a, q), b, q) == RecordAll(recorded, a + b, q)
  {}

  /** The adaptive states that survive the end of the streams in `ids`. */
  ghost function WithoutStreams(state: map<string, Adaptive.AdaptiveState>, ids: set<Id>): map<string, Adaptive.AdaptiveState> {
    map k | k in state && (forall id :: id in ids ==> !Adaptive.HasSuffix(k, ":" + id.name)) :: state[k]
  }

  ghost function WithoutUser(state: map<string, Adaptive.AdaptiveState>, userID: Id): map<string, Adaptive.AdaptiveState> {
    map k | k in state && !Adaptive.HasPrefix(k, userID.name + ":") :: state[k]
  }

  // ---- The room ------------------------------------------------------------------

  class Room {
    const limits: Limits
    const adaptive: Adaptive.AdaptiveController
    var closed: bool
    var presenters: map<Id, Subs>
    var viewers: map<Id, Subs>
    var tracks: map<Id, Router>
    var simulcastTracks: map<Id, Stream>

    constructor (limits: Limits, options: Adaptive.Options)
      ensures this.limits == limits && View() == EMPTY_ROOM
      ensures fresh(adaptive) && Adaptive.Sane(adaptive.options) && adaptive.state == map[]
    {
      this.limits := limits;
      adaptive := new Adaptive.AdaptiveController(options);
      closed := false;
      presenters, viewers, tracks, simulcastTracks := map[], map[], map[], map[];
    }

    function View(): RoomState
      reads this
    {
      RoomState(closed, presenters, viewers, tracks, simulcastTracks)
    }

    // ---- Joining -----------------------------------------------------------------

    method AddPresenter(userID: Id) returns (ok: bool)
      modifies this
      ensures ok == CanJoin(limits, old(View()), userID, Presenter)
      ensures View() == Join(limits, old(View()), userID, Presenter)
    {
      if closed || userID in presenters || userID in viewers || |presenters| >= limits.maxPresenters {
        return false;
      }
      var subs := SubscribeToTracks(userID, Presenter, tracks);
      subs, simulcastTracks := SubscribeToStreams(userID, Presenter, subs, simulcastTracks);
      presenters := presenters[userID := subs];
      ok := true;
    }

    method AddViewer(userID: Id) returns (ok: bool)
      modifies this
      ensures ok == CanJoin(limits, old(View()), userID, Viewer)
      ensures View() == Join(limits, old(View()), userID, Viewer)
    {
      if closed || userID in viewers || userID in presenters || |viewers| >= limits.maxViewers {
        return false;
      }
      var subs := SubscribeToTracks(userID, Viewer, tracks);
      subs, simulcastTracks := SubscribeToStreams(userID, Viewer, subs, simulcastTracks);
      viewers := viewers[userID := subs];
      ok := true;
    }

    // ---- Leaving -----------------------------------------------------------------

    method UnsubscribeBoth(id: Id)
      modifies this`presenters, this`viewers
      ensures View() == Unsubscribed(old(View()), {id})
    {
      presenters := UnsubscribePeers(presenters, id);
      viewers := UnsubscribePeers(viewers, id);
    }

    /** removePresenterTracksLocked, the plain tracks. */
    method RemovePlainTracks(userID: Id)
      modifies this`tracks, this`presenters, this`viewers
      ensures tracks == old(tracks) - SourcedBy(old(tracks), userID)
      ensures presenters == UnsubscribeAll(old(presenters), SourcedBy(old(tracks), userID))
      ensures viewers == UnsubscribeAll(old(viewers), SourcedBy(old(tracks), userID))
    {
      ghost var gone: set<Id> := {};
      var todo := tracks.Keys;
      UnsubscribeNothing(presenters);
      UnsubscribeNothing(viewers);
      while todo != {}
        invariant todo <= old(tracks).Keys
        invariant gone == SourcedBy(old(tracks), userID) - todo
        invariant tracks == old(tracks) - gone
        invariant presenters == UnsubscribeAll(old(presenters), gone)
        invariant viewers == UnsubscribeAll(old(viewers), gone)
      {
        var id :| id in todo;
        if tracks[id].source == userID {
          tracks := tracks - {id};
          UnsubscribeBoth(id);
          UnsubscribeMore(old(presenters), gone, id);
          UnsubscribeMore(old(viewers), gone, id);
          gone := gone + {id};
        }
        todo := todo - {id};
      }
      assert gone == SourcedBy(old(tracks), userID);
    }

    /** removePresenterTracksLocked, the simulcast streams; each one's adaptive states go with it. */
    method RemoveStreams(userID: Id)
      modifies this`simulcastTracks, this`presenters, this`viewers, adaptive
      ensures simulcastTracks == old(simulcastTracks) - StreamsSourcedBy(old(simulcastTracks), userID)
      ensures presenters == UnsubscribeAll(old(presenters), StreamsSourcedBy(old(simulcastTracks), userID))
      ensures viewers == UnsubscribeAll(old(viewers), StreamsSourcedBy(old(simulcastTracks), userID))
      ensures adaptive.state == WithoutStreams(old(adaptive.state), StreamsSourcedBy(old(simulcastTracks), userID))
    {
      ghost var gone: set<Id> := {};
      var todo := simulcastTracks.Keys;
      UnsubscribeNothing(presenters);
      UnsubscribeNothing(viewers);
      while todo != {}
        invariant todo <= old(simulcastTracks).Keys
        invariant gone == StreamsSourcedBy(old(simulcastTracks), userID) - todo
        invariant simulcastTracks == old(simulcastTracks) - gone
        invariant presenters == UnsubscribeAll(old(presenters), gone)
        invariant viewers == UnsubscribeAll(old(viewers), gone)
        invariant adaptive.state == WithoutStreams(old(adaptive.state), gone)
      {
        var id :| id in todo;
        if simulcastTracks[id].source == userID {
          simulcastTracks := simulcastTracks - {id};
          adaptive.ForgetStream(id.name);
          WithoutOneMore(old(adaptive.state), gone, id);
          UnsubscribeBoth(id);
          UnsubscribeMore(old(presenters), gone, id);
          UnsubscribeMore(old(viewers), gone, id);
          gone := gone + {id};
        }
        todo := todo - {id};
      }
      assert gone == StreamsSourcedBy(old(simulcastTracks), userID);
    }

    /** The simulcast part of removeViewerSubscriptionsLocked. */
    method ForgetRecords(userID: Id)
      modifies this`simulcastTracks
      ensures simulcastTracks == map id | id in old(simulcastTracks) :: ForgetRecord(old(simulcastTracks)[id], userID)
    {
      var todo := simulcastTracks.Keys;
      while todo != {}
        invariant todo <= old(simulcastTracks).Keys && simulcastTracks.Keys == old(simulcastTracks).Keys
        invariant forall id :: id in simulcastTracks ==>
          simulcastTracks[id] == if id in todo then old(simulcastTracks)[id] else ForgetRecord(old(simulcastTracks)[id], userID)
      {
        var id :| id in todo;
        var st := simulcastTracks[id];
        simulcastTracks := simulcastTracks[id := st.(recorded := st.recorded - {userID})];
        todo := todo - {id};
      }
    }

    /** Closing the peer afterwards drops its own senders. */
    method RemovePeer(userID: Id)
      modifies this, adaptive
      ensures View() == Leave(old(View()), userID)
      ensures adaptive.state ==
              if old(closed) || !Present(old(View()), userID) then old(adaptive.state)
              else WithoutUser(WithoutStreams(old(adaptive.state),
                     if userID in old(presenters) then StreamsSourcedBy(old(simulcastTracks), userID) else {}), userID)
    {
      if closed || !(userID in presenters || userID in viewers) {
        return;
      }
      if userID in presenters {
        presenters := presenters - {userID};
        UnsubscribeTwice(presenters, TracksOf(View(), userID), StreamsOf(View(), userID));
        UnsubscribeTwice(viewers, TracksOf(View(), userID), StreamsOf(View(), userID));
        RemovePlainTracks(userID);
        RemoveStreams(userID);
      } else {
        viewers := viewers - {userID};
        ForgetRecords(userID);
      }
      adaptive.ForgetUser(userID.name);
    }

    method Close()
      modifies this
      ensures View() == RoomModel.Close(old(View()))
    {
      if !closed {
        closed := true;
        presenters, viewers, tracks, simulcastTracks := map[], map[], map[], map[];
      }
    }

    // ---- Publishing --------------------------------------------------------------

    /** publisherTrackCountLocked. */
    method PublisherTrackCount(userID: Id) returns (count: nat)
      ensures count == |TracksOf(View(), userID)| + |StreamsOf(View(), userID)|
    {
      var a := CountTracks(tracks, userID);
      var b := CountStreams(simulcastTracks, userID);
      count := a + b;
    }

    method CanPublishTrack(userID: Id, id: Id) returns (ok: bool)
      ensures ok == CanPublish(limits, View(), userID, id)
    {
      if id in tracks && tracks[id].source == userID {
        return true;
      }
      if id in simulcastTracks && simulcastTracks[id].source == userID {
        return true;
      }
      var count := PublisherTrackCount(userID);
      ok := count < limits.maxTracks;
    }

    method SubscribeBothTo(id: Id, local: LocalTrack, source: Id)
      modifies this`presenters, this`viewers
      ensures View() == SubscribeBoth(old(View()), id, local, source)
    {
      presenters := SubscribePeers(presenters, id, local, {source});
      viewers := SubscribePeers(viewers, id, local, {});
    }

    method HandleNewTrack(userID: Id, id: Id, local: LocalTrack)
      modifies this
      ensures View() == PublishTrack(limits, old(View()), userID, id, local)
    {
      var ok := CanPublishTrack(userID, id);
      if !ok || closed {
        return;
      }
      tracks := tracks[id := Router(userID, local)];
      SubscribeBothTo(id, local, userID);
    }

    method AddLayer(id: Id, q: Layer, local: LocalTrack)
      requires id in simulcastTracks
      modifies this`simulcastTracks
      ensures View() == SetLayer(old(View()), id, q, local)
    {
      var st := simulcastTracks[id];
      simulcastTracks := simulcastTracks[id := st.(layers := st.layers[q := local])];
    }

    /** Every presenter but the source, and every viewer, is attached to a layer of the stream. */
    method AttachEveryone(id: Id, q: Layer)
      requires id in simulcastTracks && q in simulcastTracks[id].layers
      modifies this`presenters, this`viewers, this`simulcastTracks
      ensures View() == Attached(old(View()), id, q)
    {
      var st := simulcastTracks[id];
      var recorded := st.recorded;
      RecordTwice(recorded, presenters.Keys - {st.source}, viewers.Keys - {}, q);
      presenters, recorded := AttachPeers(presenters, recorded, id, q, st.layers[q], {st.source});
      viewers, recorded := AttachPeers(viewers, recorded, id, q, st.layers[q], {});
      simulcastTracks := simulcastTracks[id := st.(recorded := recorded)];
    }

    /** An existing stream only gains the layer. */
    method HandleSimulcastTrack(userID: Id, id: Id, q: Layer, local: LocalTrack)
      modifies this
      ensures View() == PublishLayer(limits, old(View()), userID, id, q, local)
    {
      if closed {
        return;
      }
      var existed := id in simulcastTracks;
      if !existed {
        var ok := CanPublishTrack(userID, id);
        if !ok {
          return;
        }
        simulcastTracks := simulcastTracks[id := Stream(userID, map[], map[])];
      }
      AddLayer(id, q, local);
      if !existed {
        InsertedThenAttached(old(View()), userID, id, q, local);
        AttachEveryone(id, q);
      }
    }

    method InjectRelayTrack(source: Id, id: Id, local: LocalTrack)
      modifies this
      ensures View() == InjectTrack(old(View()), source, id, local)
    {
      if id !in tracks {
        tracks := tracks[id := Router(source, local)];
        SubscribeBothTo(id, local, source);
      }
    }

    method InjectRelayLayer(source: Id, id: Id, q: Layer, local: LocalTrack)
      modifies this
      ensures View() == InjectLayer(old(View()), source, id, q, local)
    {
      var existed := id in simulcastTracks;
      if !existed {
        simulcastTracks := simulcastTracks[id := Stream(source, map[], map[])];
      }
      if q !in simulcastTracks[id].layers {
        AddLayer(id, q, local);
        if !existed {
          InsertedThenAttached(old(View()), source, id, q, local);
          AttachEveryone(id, q);
        }
      }
    }

    // ---- Switching layers and adapting ---------------------------------------------

    /** An existing sender has its track replaced; a missing one is added. */
    method SetSubscriberQuality(userID: Id, id: Id, want: Layer) returns (outcome: Outcome)
      modifies this
      ensures (outcome, View()) == SetQuality(old(View()), userID, id, want)
    {
      if id !in simulcastTracks {
        return StreamNotFound;
      }
      var st := simulcastTracks[id];
      var actual := BestAvailable(want, st.layers.Keys);
      if userID in st.recorded && st.recorded[userID] == actual {
        return Done;
      }
      if !(userID in presenters || userID in viewers) {
        return PeerNotFound;
      }
      if actual !in st.layers {
        return LayerNotAvailable;
      }
      if userID in presenters {
        presenters := presenters[userID := presenters[userID][id := st.layers[actual]]];
      } else {
        viewers := viewers[userID := viewers[userID][id := st.layers[actual]]];
      }
      simulcastTracks := simulcastTracks[id := st.(recorded := st.recorded[userID := actual])];
      outcome := Done;
    }

    /** AvailableLayers: in no particular order. */
    method AvailableLayers(id: Id) returns (available: seq<Layer>)
      requires id in simulcastTracks
      ensures Adaptive.LayerSet(available) == simulcastTracks[id].layers.Keys
    {
      available := [];
      var todo := simulcastTracks[id].layers.Keys;
      while todo != {}
        invariant todo <= simulcastTracks[id].layers.Keys
        invariant Adaptive.LayerSet(available) == simulcastTracks[id].layers.Keys - todo
      {
        var q :| q in todo;
        RoomControl.OneMoreLayer(available, q);
        available := available + [q];
        todo := todo - {q};
      }
    }

    /** The stream a sample is about: the only one of the room when the sample names none. */
    method StreamFor(sample: Adaptive.Sample) returns (id: Id)
      ensures RoomControl.IsStreamFor(View(), sample, id)
    {
      id := Id(sample.streamID);
      if sample.streamID == "" && |simulcastTracks| == 1 {
        RoomControl.OnlyKey(simulcastTracks);
        id :| id in simulcastTracks;
      }
    }

    method PlanSubscriberAdaptation(sample: Adaptive.Sample) returns (p: RoomControl.Planned)
      modifies adaptive
      ensures RoomControl.IsPlan(adaptive.options, old(View()), old(adaptive.state), sample, p, adaptive.state)
    {
      if sample.userID == "" {
        return RoomControl.NoUser;
      }
      var id := StreamFor(sample);
      if id !in simulcastTracks {
        return RoomControl.NoStream;
      }
      var u := Id(sample.userID);
      if !(u in presenters || u in viewers) {
        return RoomControl.NoPeer;
      }
      var current := if u in simulcastTracks[id].recorded then simulcastTracks[id].recorded[u] else Medium;
      var available := AvailableLayers(id);
      RoomControl.DecideIgnoresLayerOrder(adaptive.options,
        Adaptive.Lookup(adaptive.state, Adaptive.Key(sample.userID, id.name)), sample.(streamID := id.name), current,
        available, RoomControl.LayerSeq(simulcastTracks[id].layers.Keys));
      var d := adaptive.Decide(sample.(streamID := id.name), Some(current), available);
      p := RoomControl.Plan(d);
    }

    method ApplyAdaptiveDecision(d: Adaptive.Decision) returns (outcome: Outcome)
      modifies this
      ensures (outcome, View()) == RoomControl.ApplyDecision(old(View()), d)
    {
      if d.streamID == "" || d.userID == "" {
        return Unnamed;
      }
      if !d.changed && !d.suspended {
        return Done;
      }
      outcome := SetSubscriberQuality(Id(d.userID), Id(d.streamID), d.target);
    }

    method AdaptSubscriber(sample: Adaptive.Sample) returns (p: RoomControl.Planned, outcome: Outcome)
      modifies this, adaptive
      ensures RoomControl.IsPlan(adaptive.options, old(View()), old(adaptive.state), sample, p, adaptive.state)
      ensures p.Plan? ==> (outcome, View()) == RoomControl.ApplyDecision(old(View()), p.decision)
      ensures !p.Plan? ==> View() == old(View())
    {
      outcome := Done;
      p := PlanSubscriberAdaptation(sample);
      if p.Plan? {
        outcome := ApplyAdaptiveDecision(p.decision);
      }
    }
  }
}
