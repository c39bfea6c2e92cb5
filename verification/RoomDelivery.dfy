/** Whether senders still carry the live media: exact for the two steps that can overwrite a
    published track or layer. */
module RoomDelivery {
  import opened Layers
  import opened RoomModel
  import opened RoomMesh

  /** Each sender of the peer carries the local track now routed under its id: the router's, or
      that of the layer the peer is on record for. */
  ghost predicate Fed(userID: Id, subs: Subs, tracks: map<Id, Router>, streams: map<Id, Stream>) {
    && (forall id :: id in subs && id in tracks ==> subs[id] == tracks[id].local)
    && (forall id :: id in subs && id in streams ==> FedBy(userID, subs[id], streams[id]))
  }

  ghost predicate FedBy(userID: Id, sender: LocalTrack, st: Stream) {
    userID in st.recorded && st.recorded[userID] in st.layers && sender == st.layers[st.recorded[userID]]
  }

  ghost predicate AllFed(peers: map<Id, Subs>, tracks: map<Id, Router>, streams: map<Id, Stream>) {
    forall u :: u in peers ==> Fed(u, peers[u], tracks, streams)
  }

  ghost predicate Delivering(s: RoomState) {
    AllFed(s.presenters, s.tracks, s.streams) && AllFed(s.viewers, s.tracks, s.streams)
  }

  // ---- Steps that always keep delivering ---------------------------------------

  lemma JoinDelivers(l: Limits, s: RoomState, userID: Id, role: Role)
    requires Mesh(s) && Delivering(s)
    ensures Delivering(Join(l, s, userID, role))
  {
    if CanJoin(l, s, userID, role) {
      var t := Join(l, s, userID, role);
      JoinerFed(s, userID, role, t.streams);
      OthersFed(s.presenters, s, userID, role, t.streams);
      OthersFed(s.viewers, s, userID, role, t.streams);
    }
  }

  lemma JoinerFed(s: RoomState, userID: Id, role: Role, streams: map<Id, Stream>)
    requires forall id :: id in s.tracks ==> id !in s.streams
    requires streams == map id | id in s.streams :: JoinStream(s.streams[id], userID, role)
    ensures Fed(userID, JoinSubs(s, userID, role), s.tracks, streams)
  {}

  lemma OthersFed(peers: map<Id, Subs>, s: RoomState, userID: Id, role: Role, streams: map<Id, Stream>)
    requires AllFed(peers, s.tracks, s.streams) && userID !in peers
    requires streams == map id | id in s.streams :: JoinStream(s.streams[id], userID, role)
    ensures AllFed(peers, s.tracks, streams)
  {}

  lemma UnsubscribedFed(peers: map<Id, Subs>, s: RoomState, userID: Id)
    requires AllFed(peers, s.tracks, s.streams)
    ensures AllFed(UnsubscribeAll(peers, Owned(s, userID)),
                   s.tracks - TracksOf(s, userID), s.streams - StreamsOf(s, userID))
  {}

  lemma ForgottenFed(peers: map<Id, Subs>, tracks: map<Id, Router>, streams: map<Id, Stream>,
                     streams': map<Id, Stream>, userID: Id)
    requires AllFed(peers, tracks, streams) && userID !in peers
    requires streams' == map id | id in streams :: ForgetRecord(streams[id], userID)
    ensures AllFed(peers, tracks, streams')
  {}

  lemma LeaveDelivers(s: RoomState, userID: Id)
    requires Mesh(s) && Delivering(s)
    ensures Delivering(Leave(s, userID))
  {
    if s.closed || !Present(s, userID) {
    } else if userID in s.presenters {
      var r := s.(presenters := s.presenters - {userID});
      UnsubscribedFed(r.presenters, r, userID);
      UnsubscribedFed(r.viewers, r, userID);
    } else {
      var t := LeaveViewer(s, userID);
      ForgottenFed(s.presenters, s.tracks, s.streams, t.streams, userID);
      ForgottenFed(t.viewers, s.tracks, s.streams, t.streams, userID);
    }
  }

  lemma AttachedPeerFed(userID: Id, role: Role, subs: Subs, tracks: map<Id, Router>, streams: map<Id, Stream>,
                        id: Id, st: Stream, q: Layer, local: LocalTrack)
    requires Fed(userID, subs, tracks, streams) && Meshed(userID, role, subs, tracks, streams)
    requires id !in streams && id !in tracks && st.layers == map[q := local]
    requires !Skips(role, userID, st.source) ==> userID in st.recorded && st.recorded[userID] == q
    ensures Fed(userID, if Skips(role, userID, st.source) then subs else subs[id := local], tracks, streams[id := st])
  {
    assert id !in subs;
  }

  lemma AttachedFed(peers: map<Id, Subs>, role: Role, tracks: map<Id, Router>, streams: map<Id, Stream>,
                    id: Id, st: Stream, q: Layer, local: LocalTrack)
    requires AllFed(peers, tracks, streams) && AllMeshed(peers, role, tracks, streams)
    requires id !in streams && id !in tracks && st.layers == map[q := local]
    requires forall u :: u in peers && !Skips(role, u, st.source) ==> u in st.recorded && st.recorded[u] == q
    ensures AllFed(AttachAll(peers, id, local, if role == Presenter then {st.source} else {}),
                   tracks, streams[id := st])
  {
    var peers' := AttachAll(peers, id, local, if role == Presenter then {st.source} else {});
    forall u | u in peers' ensures Fed(u, peers'[u], tracks, streams[id := st]) {
      AttachedPeerFed(u, role, peers[u], tracks, streams, id, st, q, local);
    }
  }

  lemma InsertStreamDelivers(s: RoomState, source: Id, id: Id, q: Layer, local: LocalTrack)
    requires Mesh(s) && Delivering(s) && id !in s.tracks && id !in s.streams
    ensures Delivering(InsertStream(s, source, id, q, local))
  {
    var st := InsertStream(s, source, id, q, local).streams[id];
    AttachedFed(s.presenters, Presenter, s.tracks, s.streams, id, st, q, local);
    AttachedFed(s.viewers, Viewer, s.tracks, s.streams, id, st, q, local);
  }

  lemma SwitchedFed(peers: map<Id, Subs>, tracks: map<Id, Router>, streams: map<Id, Stream>, userID: Id, id: Id, q: Layer)
    requires AllFed(peers, tracks, streams)
    requires userID in peers && id in streams && id !in tracks && q in streams[id].layers
    ensures var st := streams[id];
            AllFed(peers[userID := peers[userID][id := st.layers[q]]], tracks,
                   streams[id := st.(recorded := st.recorded[userID := q])])
  {}

  lemma RecordedFed(peers: map<Id, Subs>, tracks: map<Id, Router>, streams: map<Id, Stream>, userID: Id, id: Id, q: Layer)
    requires AllFed(peers, tracks, streams) && userID !in peers && id in streams
    ensures var st := streams[id];
            AllFed(peers, tracks, streams[id := st.(recorded := st.recorded[userID := q])])
  {}

  lemma SwitchDelivers(s: RoomState, userID: Id, id: Id, q: Layer)
    requires Mesh(s) && Delivering(s)
    requires Present(s, userID) && id in s.streams && q in s.streams[id].layers
    ensures Delivering(Switch(s, userID, id, q))
  {
    if userID in s.presenters {
      SwitchedFed(s.presenters, s.tracks, s.streams, userID, id, q);
      RecordedFed(s.viewers, s.tracks, s.streams, userID, id, q);
    } else {
      SwitchedFed(s.viewers, s.tracks, s.streams, userID, id, q);
      RecordedFed(s.presenters, s.tracks, s.streams, userID, id, q);
    }
  }

  // ---- Steps that overwrite ------------------------------------------------------

  /** Some peer is subscribed to the id. */
  ghost predicate Subscribed(s: RoomState, id: Id) {
    || (exists u :: u in s.presenters && id in s.presenters[u])
    || (exists u :: u in s.viewers && id in s.viewers[u])
  }

  /** Some peer is subscribed to the stream and on record for the layer. */
  ghost predicate Watched(s: RoomState, id: Id, q: Layer)
    requires id in s.streams
  {
    || (exists u :: u in s.presenters && Watches(u, s.presenters[u], id, s.streams[id], q))
    || (exists u :: u in s.viewers && Watches(u, s.viewers[u], id, s.streams[id], q))
  }

  ghost predicate Watches(userID: Id, subs: Subs, id: Id, st: Stream, q: Layer) {
    id in subs && userID in st.recorded && st.recorded[userID] == q
  }

  lemma OverwrittenTrack(peers: map<Id, Subs>, skip: set<Id>, tracks: map<Id, Router>, streams: map<Id, Stream>,
                         id: Id, r: Router)
    requires AllFed(peers, tracks, streams) && id !in streams
    requires id in tracks ==> r.local != tracks[id].local
    requires id !in tracks ==> forall u :: u in peers ==> id !in peers[u]
    ensures AllFed(SubscribeAll(peers, id, r.local, skip), tracks[id := r], streams)
            <==> !exists u :: u in peers && id in peers[u]
  {
    var peers' := SubscribeAll(peers, id, r.local, skip);
    if exists u :: u in peers && id in peers[u] {
      var u :| u in peers && id in peers[u];
      assert Fed(u, peers[u], tracks, streams);
      assert peers'[u][id] == tracks[id].local;
      assert !Fed(u, peers'[u], tracks[id := r], streams);
    } else {
      forall u | u in peers' ensures Fed(u, peers'[u], tracks[id := r], streams) {
        assert Fed(u, peers[u], tracks, streams);
      }
    }
  }

  /** Publishing a track delivers to everyone if and only if nobody was subscribed to its id: an
      id that is published again keeps its subscribers on the old local track. */
  lemma PublishTrackDeliversExactly(s: RoomState, source: Id, id: Id, local: LocalTrack)
    requires Mesh(s) && Delivering(s) && id !in s.streams
    requires id in s.tracks ==> local != s.tracks[id].local
    ensures Delivering(InsertTrack(s, source, id, local)) <==> !Subscribed(s, id)
    ensures id !in s.tracks ==> !Subscribed(s, id)
  {
    NotLiveNotSubscribed(s.presenters, Presenter, s, id);
    NotLiveNotSubscribed(s.viewers, Viewer, s, id);
    OverwrittenTrack(s.presenters, {source}, s.tracks, s.streams, id, Router(source, local));
    OverwrittenTrack(s.viewers, {}, s.tracks, s.streams, id, Router(source, local));
  }

  lemma NotLiveNotSubscribed(peers: map<Id, Subs>, role: Role, s: RoomState, id: Id)
    requires AllMeshed(peers, role, s.tracks, s.streams) && id !in s.streams
    ensures id !in s.tracks ==> forall u :: u in peers ==> id !in peers[u]
  {}

  lemma OverwrittenLayer(peers: map<Id, Subs>, tracks: map<Id, Router>, streams: map<Id, Stream>, id: Id, q: Layer, local: LocalTrack)
    requires AllFed(peers, tracks, streams) && id in streams
    requires q in streams[id].layers ==> local != streams[id].layers[q]
    ensures var st := streams[id];
            AllFed(peers, tracks, streams[id := st.(layers := st.layers[q := local])])
            <==> !exists u :: u in peers && Watches(u, peers[u], id, st, q)
  {}

  /** Adding a layer delivers to everyone if and only if nobody is on record for that layer: a
      layer that is published again keeps its watchers on the old local track. */
  lemma PublishLayerDeliversExactly(s: RoomState, id: Id, q: Layer, local: LocalTrack)
    requires Mesh(s) && Delivering(s) && id in s.streams
    requires q in s.streams[id].layers ==> local != s.streams[id].layers[q]
    ensures Delivering(SetLayer(s, id, q, local)) <==> !Watched(s, id, q)
    ensures q !in s.streams[id].layers ==> !Watched(s, id, q)
  {
    OverwrittenLayer(s.presenters, s.tracks, s.streams, id, q, local);
    OverwrittenLayer(s.viewers, s.tracks, s.streams, id, q, local);
    assert LayersExist(s.streams[id]);
  }

  // ---- Every step -----------------------------------------------------------------

  /** New local tracks differ from the ones they replace. */
  predicate FreshLocal(s: RoomState, step: Step) {
    match step
    case DoPublishTrack(_, id, local) => id in s.tracks ==> local != s.tracks[id].local
    case DoPublishLayer(_, id, q, local) =>
      id in s.streams && q in s.streams[id].layers ==> local != s.streams[id].layers[q]
    case _ => true
  }

  /** The step overwrites a track or layer that some peer is receiving. */
  ghost predicate Overwrites(l: Limits, s: RoomState, step: Step) {
    match step
    case DoPublishTrack(u, id, _) => !s.closed && CanPublish(l, s, u, id) && Subscribed(s, id)
    case DoPublishLayer(_, id, q, _) => !s.closed && id in s.streams && Watched(s, id, q)
    case _ => false
  }

  /** A step keeps everyone's senders on the live media exactly when it overwrites nothing that
      somebody receives. */
  lemma StepDeliversExactly(l: Limits, s: RoomState, step: Step)
    requires Mesh(s) && Delivering(s) && KeepsIdsApart(s, step) && FreshLocal(s, step)
    ensures Delivering(Apply(l, s, step)) <==> !Overwrites(l, s, step)
  {
    match step
    case DoJoin(u, role) => JoinDelivers(l, s, u, role);
    case DoLeave(u) => LeaveDelivers(s, u);
    case DoClose =>
    case DoPublishTrack(u, id, local) => PublishTrackDeliversExactly(s, u, id, local);
    case DoPublishLayer(u, id, q, local) =>
      if id in s.streams { PublishLayerDeliversExactly(s, id, q, local); }
      else { InsertStreamDelivers(s, u, id, q, local); }
    case DoInjectTrack(src, id, local) =>
      if id !in s.tracks { PublishTrackDeliversExactly(s, src, id, local); }
    case DoInjectLayer(src, id, q, local) =>
      if id !in s.streams { InsertStreamDelivers(s, src, id, q, local); }
      else if q !in s.streams[id].layers { PublishLayerDeliversExactly(s, id, q, local); }
    case DoSetQuality(u, id, want) =>
      if SetQuality(s, u, id, want).1 != s {
        SwitchDelivers(s, u, id, BestAvailable(want, s.streams[id].layers.Keys));
      }
  }

  // ---- Every run ------------------------------------------------------------------

  /** No step of the run overwrites a track or layer that some peer is receiving. */
  ghost predicate Undisturbed(l: Limits, steps: seq<Step>) {
    steps == [] ||
    (var s := Run(l, steps[..|steps| - 1]);
     var step := steps[|steps| - 1];
     && Undisturbed(l, steps[..|steps| - 1])
     && FreshLocal(s, step) && !Overwrites(l, s, step))
  }

  /** Over every such run each peer's senders carry exactly the live media: a plain track's from its
      router, a stream's from the layer the peer is on record for. */
  lemma {:induction false} RunDelivers(l: Limits, steps: seq<Step>)
    requires IdsApart(l, steps) && Undisturbed(l, steps)
    ensures Delivering(Run(l, steps))
  {
    if steps != [] {
      var n := |steps| - 1;
      RunDelivers(l, steps[..n]);
      RunKeepsMesh(l, steps[..n]);
      StepDeliversExactly(l, Run(l, steps[..n]), steps[n]);
    }
  }

  /** A presenter and a viewer in an otherwise empty room. */
  function Pair(presenter: Id, viewer: Id): RoomState {
    RoomState(false, map[presenter := map[]], map[viewer := map[]], map[], map[])
  }

  lemma PairJoins(l: Limits, presenter: Id, viewer: Id)
    requires l.maxPresenters >= 1 && l.maxViewers >= 1 && presenter != viewer
    ensures Join(l, Join(l, EMPTY_ROOM, presenter, Presenter), viewer, Viewer) == Pair(presenter, viewer)
  {}

  /** One published track, its viewer subscribed to it. */
  function Watching(presenter: Id, viewer: Id, track: Id, routed: LocalTrack, sent: LocalTrack): RoomState {
    RoomState(false, map[presenter := map[]], map[viewer := map[track := sent]],
              map[track := Router(presenter, routed)], map[])
  }

  lemma FirstPublish(l: Limits, presenter: Id, viewer: Id, track: Id, local: LocalTrack)
    requires l.maxTracks >= 1
    ensures PublishTrack(l, Pair(presenter, viewer), presenter, track, local)
         == Watching(presenter, viewer, track, local, local)
  {}

  lemma SecondPublish(l: Limits, presenter: Id, viewer: Id, track: Id, first: LocalTrack, second: LocalTrack)
    ensures PublishTrack(l, Watching(presenter, viewer, track, first, first), presenter, track, second)
         == Watching(presenter, viewer, track, second, first)
  {}

  lemma StaleSenderStarves(presenter: Id, viewer: Id, track: Id, routed: LocalTrack, sent: LocalTrack)
    requires routed != sent
    ensures !Delivering(Watching(presenter, viewer, track, routed, sent))
  {
    var s := Watching(presenter, viewer, track, routed, sent);
    assert viewer in s.viewers && s.viewers[viewer][track] == sent && s.tracks[track].local == routed;
    assert !Fed(viewer, s.viewers[viewer], s.tracks, s.streams);
  }

  /** The shortest run that does disturb: a presenter publishes the same track id twice, and its
      viewer is left with a sender for the first local track. */
  lemma RepublishLeavesStaleSender(l: Limits, presenter: Id, viewer: Id, track: Id, first: LocalTrack, second: LocalTrack)
    requires l.maxPresenters >= 1 && l.maxViewers >= 1 && l.maxTracks >= 1
    requires presenter != viewer && first != second
    ensures var joined := Join(l, Join(l, EMPTY_ROOM, presenter, Presenter), viewer, Viewer);
            var s := PublishTrack(l, PublishTrack(l, joined, presenter, track, first), presenter, track, second);
            s == Watching(presenter, viewer, track, second, first) && !Delivering(s)
  {
    PairJoins(l, presenter, viewer);
    FirstPublish(l, presenter, viewer, track, first);
    SecondPublish(l, presenter, viewer, track, first, second);
    StaleSenderStarves(presenter, viewer, track, second, first);
  }
}
