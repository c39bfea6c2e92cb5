/** What every step of a room keeps: the subscription mesh, layer records and capacity. */
module RoomMesh {
  import opened Layers
  import opened RoomModel

  /** One peer's side of the mesh: it is subscribed to every live track and stream it does not
      itself source (a viewer to all), only to live ids, and is on record for every stream it
      is subscribed to. */
  ghost predicate Meshed(userID: Id, role: Role, subs: Subs, tracks: map<Id, Router>, streams: map<Id, Stream>) {
    && (forall id :: id in tracks && !Skips(role, userID, tracks[id].source) ==> id in subs)
    && (forall id :: id in streams && !Skips(role, userID, streams[id].source) ==> id in subs)
    && (forall id :: id in subs ==> id in tracks || id in streams)
    && (forall id :: id in subs && id in streams ==> userID in streams[id].recorded)
  }

  ghost predicate AllMeshed(peers: map<Id, Subs>, role: Role, tracks: map<Id, Router>, streams: map<Id, Stream>) {
    forall u :: u in peers ==> Meshed(u, role, peers[u], tracks, streams)
  }

  /** A stream has a layer, and every recorded layer exists. */
  ghost predicate LayersExist(st: Stream) {
    && (exists q :: q in st.layers)
    && forall u :: u in st.recorded ==> st.recorded[u] in st.layers
  }

  ghost predicate StreamsSound(streams: map<Id, Stream>) {
    forall id :: id in streams ==> LayersExist(streams[id])
  }

  ghost predicate WithinCaps(l: Limits, s: RoomState) {
    |s.presenters| <= l.maxPresenters && |s.viewers| <= l.maxViewers
  }

  /** Presenters and viewers are disjoint, ids are kept apart, and a closed room is empty of peers. */
  ghost predicate Shape(s: RoomState) {
    && (forall u :: u in s.presenters ==> u !in s.viewers)
    && (forall id :: id in s.tracks ==> id !in s.streams)
    && (s.closed ==> (forall u :: u !in s.presenters) && (forall u :: u !in s.viewers))
  }

  ghost predicate Mesh(s: RoomState) {
    && Shape(s)
    && StreamsSound(s.streams)
    && AllMeshed(s.presenters, Presenter, s.tracks, s.streams)
    && AllMeshed(s.viewers, Viewer, s.tracks, s.streams)
  }

  /** Track ids and stream ids are kept apart: no live stream's id is published as a track, nor
      the other way round. */
  predicate KeepsIdsApart(s: RoomState, step: Step) {
    match step
    case DoPublishTrack(_, id, _) => id !in s.streams
    case DoInjectTrack(_, id, _) => id !in s.streams
    case DoPublishLayer(_, id, _, _) => id !in s.tracks
    case DoInjectLayer(_, id, _, _) => id !in s.tracks
    case _ => true
  }

  // ---- Joining ---------------------------------------------------------------

  lemma JoinedStream(st: Stream, userID: Id, role: Role)
    requires LayersExist(st)
    ensures JoinLayer(st, role).Some?
    ensures LayersExist(JoinStream(st, userID, role))
    ensures JoinStream(st, userID, role).source == st.source
    ensures st.recorded.Keys <= JoinStream(st, userID, role).recorded.Keys
    ensures !Skips(role, userID, st.source) ==> userID in JoinStream(st, userID, role).recorded
  {}

  lemma JoinSubsKeys(s: RoomState, userID: Id, role: Role)
    requires StreamsSound(s.streams)
    ensures forall id :: id in JoinSubs(s, userID, role) <==>
              || (id in s.tracks && !Skips(role, userID, s.tracks[id].source))
              || (id in s.streams && !Skips(role, userID, s.streams[id].source))
  {}

  lemma MeshedByKeys(userID: Id, role: Role, subs: Subs, tracks: map<Id, Router>, streams: map<Id, Stream>)
    requires forall id :: id in subs <==>
               || (id in tracks && !Skips(role, userID, tracks[id].source))
               || (id in streams && !Skips(role, userID, streams[id].source))
    requires forall id :: id in streams && !Skips(role, userID, streams[id].source) ==> userID in streams[id].recorded
    requires forall id :: id in tracks ==> id !in streams
    ensures Meshed(userID, role, subs, tracks, streams)
  {}

  lemma JoinerMeshed(s: RoomState, userID: Id, role: Role, streams: map<Id, Stream>)
    requires StreamsSound(s.streams)
    requires forall id :: id in s.tracks ==> id !in s.streams
    requires streams == map id | id in s.streams :: JoinStream(s.streams[id], userID, role)
    ensures StreamsSound(streams)
    ensures Meshed(userID, role, JoinSubs(s, userID, role), s.tracks, streams)
  {
    forall id | id in s.streams
      ensures LayersExist(streams[id]) && streams[id].source == s.streams[id].source
      ensures !Skips(role, userID, s.streams[id].source) ==> userID in streams[id].recorded
    {
      JoinedStream(s.streams[id], userID, role);
    }
    JoinSubsKeys(s, userID, role);
    MeshedByKeys(userID, role, JoinSubs(s, userID, role), s.tracks, streams);
  }

  /** Recording one more user leaves every other peer meshed. */
  lemma MoreRecords(peers: map<Id, Subs>, role: Role, tracks: map<Id, Router>,
                    streams: map<Id, Stream>, streams': map<Id, Stream>)
    requires AllMeshed(peers, role, tracks, streams)
    requires streams'.Keys == streams.Keys
    requires forall id :: id in streams ==>
      streams'[id].source == streams[id].source && streams[id].recorded.Keys <= streams'[id].recorded.Keys
    ensures AllMeshed(peers, role, tracks, streams')
  {}

  lemma JoinShape(l: Limits, s: RoomState, userID: Id, role: Role)
    requires Shape(s)
    ensures Shape(Join(l, s, userID, role))
  {}

  lemma AddPeerMeshed(peers: map<Id, Subs>, role: Role, tracks: map<Id, Router>, streams: map<Id, Stream>, userID: Id, subs: Subs)
    requires AllMeshed(peers, role, tracks, streams) && Meshed(userID, role, subs, tracks, streams)
    ensures AllMeshed(peers[userID := subs], role, tracks, streams)
  {}

  lemma JoinKeepsMesh(l: Limits, s: RoomState, userID: Id, role: Role)
    requires Mesh(s)
    ensures Mesh(Join(l, s, userID, role))
  {
    if CanJoin(l, s, userID, role) {
      var subs := JoinSubs(s, userID, role);
      var streams := map id | id in s.streams :: JoinStream(s.streams[id], userID, role);
      JoinShape(l, s, userID, role);
      JoinerMeshed(s, userID, role, streams);
      OthersMeshed(s, userID, role, streams);
      if role == Presenter {
        AddPeerMeshed(s.presenters, Presenter, s.tracks, streams, userID, subs);
      } else {
        AddPeerMeshed(s.viewers, Viewer, s.tracks, streams, userID, subs);
      }
      MeshOf(Join(l, s, userID, role));
    }
  }

  lemma OthersMeshed(s: RoomState, userID: Id, role: Role, streams: map<Id, Stream>)
    requires StreamsSound(s.streams)
    requires AllMeshed(s.presenters, Presenter, s.tracks, s.streams)
    requires AllMeshed(s.viewers, Viewer, s.tracks, s.streams)
    requires streams == map id | id in s.streams :: JoinStream(s.streams[id], userID, role)
    ensures AllMeshed(s.presenters, Presenter, s.tracks, streams)
    ensures AllMeshed(s.viewers, Viewer, s.tracks, streams)
  {
    forall id | id in s.streams
      ensures streams[id].source == s.streams[id].source && s.streams[id].recorded.Keys <= streams[id].recorded.Keys
    {
      JoinedStream(s.streams[id], userID, role);
    }
    MoreRecords(s.presenters, Presenter, s.tracks, s.streams, streams);
    MoreRecords(s.viewers, Viewer, s.tracks, s.streams, streams);
  }

  lemma MeshOf(s: RoomState)
    requires Shape(s) && StreamsSound(s.streams)
    requires AllMeshed(s.presenters, Presenter, s.tracks, s.streams)
    requires AllMeshed(s.viewers, Viewer, s.tracks, s.streams)
    ensures Mesh(s)
  {}

  // ---- Leaving ---------------------------------------------------------------

  lemma UnsubscribedMeshed(peers: map<Id, Subs>, role: Role, s: RoomState, userID: Id)
    requires AllMeshed(peers, role, s.tracks, s.streams)
    requires forall id :: id in s.tracks ==> id !in s.streams
    ensures AllMeshed(UnsubscribeAll(peers, Owned(s, userID)), role,
                      s.tracks - TracksOf(s, userID), s.streams - StreamsOf(s, userID))
  {}

  lemma FewerPeers(peers: map<Id, Subs>, role: Role, tracks: map<Id, Router>, streams: map<Id, Stream>, userID: Id)
    requires AllMeshed(peers, role, tracks, streams)
    ensures AllMeshed(peers - {userID}, role, tracks, streams)
  {}

  lemma ForgottenMeshed(peers: map<Id, Subs>, role: Role, tracks: map<Id, Router>,
                        streams: map<Id, Stream>, streams': map<Id, Stream>, userID: Id)
    requires AllMeshed(peers, role, tracks, streams) && userID !in peers
    requires streams' == map id | id in streams :: ForgetRecord(streams[id], userID)
    ensures AllMeshed(peers, role, tracks, streams')
  {}

  lemma RemoveTracksShape(s: RoomState, userID: Id)
    requires Shape(s)
    ensures Shape(RemoveTracksOf(s, userID))
  {}

  lemma RemoveTracksKeepsMesh(s: RoomState, userID: Id)
    requires Mesh(s)
    ensures Mesh(RemoveTracksOf(s, userID))
  {
    RemoveTracksShape(s, userID);
    UnsubscribedMeshed(s.presenters, Presenter, s, userID);
    UnsubscribedMeshed(s.viewers, Viewer, s, userID);
    MeshOf(RemoveTracksOf(s, userID));
  }

  lemma LeaveViewerShape(s: RoomState, userID: Id)
    requires Shape(s)
    ensures Shape(LeaveViewer(s, userID))
  {}

  lemma LeaveViewerKeepsMesh(s: RoomState, userID: Id)
    requires Mesh(s) && userID !in s.presenters
    ensures Mesh(LeaveViewer(s, userID))
  {
    var t := LeaveViewer(s, userID);
    FewerPeers(s.viewers, Viewer, s.tracks, s.streams, userID);
    ForgottenMeshed(s.presenters, Presenter, s.tracks, s.streams, t.streams, userID);
    ForgottenMeshed(t.viewers, Viewer, s.tracks, s.streams, t.streams, userID);
    forall id | id in t.streams ensures LayersExist(t.streams[id]) {
      assert LayersExist(s.streams[id]);
    }
    LeaveViewerShape(s, userID);
    MeshOf(t);
  }

  lemma DropPresenterShape(s: RoomState, userID: Id)
    requires Shape(s)
    ensures Shape(s.(presenters := s.presenters - {userID}))
  {}

  lemma LeaveKeepsMesh(s: RoomState, userID: Id)
    requires Mesh(s)
    ensures Mesh(Leave(s, userID))
  {
    if s.closed || !Present(s, userID) {
    } else if userID in s.presenters {
      DropPresenterShape(s, userID);
      FewerPeers(s.presenters, Presenter, s.tracks, s.streams, userID);
      var r := s.(presenters := s.presenters - {userID});
      MeshOf(r);
      RemoveTracksKeepsMesh(r, userID);
    } else {
      LeaveViewerKeepsMesh(s, userID);
    }
  }

  // ---- Publishing --------------------------------------------------------------

  lemma SubscribedMeshed(peers: map<Id, Subs>, role: Role, s: RoomState, source: Id, id: Id, local: LocalTrack)
    requires AllMeshed(peers, role, s.tracks, s.streams) && id !in s.streams
    ensures AllMeshed(SubscribeAll(peers, id, local, if role == Presenter then {source} else {}), role,
                      s.tracks[id := Router(source, local)], s.streams)
  {
    var peers' := SubscribeAll(peers, id, local, if role == Presenter then {source} else {});
    forall u | u in peers' ensures Meshed(u, role, peers'[u], s.tracks[id := Router(source, local)], s.streams) {
      assert Meshed(u, role, peers[u], s.tracks, s.streams);
    }
  }

  lemma InsertTrackShape(s: RoomState, source: Id, id: Id, local: LocalTrack)
    requires Shape(s) && id !in s.streams
    ensures Shape(InsertTrack(s, source, id, local))
  {}

  lemma InsertTrackKeepsMesh(s: RoomState, source: Id, id: Id, local: LocalTrack)
    requires Mesh(s) && id !in s.streams
    ensures Mesh(InsertTrack(s, source, id, local))
  {
    SubscribedMeshed(s.presenters, Presenter, s, source, id, local);
    SubscribedMeshed(s.viewers, Viewer, s, source, id, local);
    InsertTrackShape(s, source, id, local);
  }

  lemma AttachedMeshed(peers: map<Id, Subs>, role: Role, tracks: map<Id, Router>, streams: map<Id, Stream>,
                       id: Id, st: Stream, local: LocalTrack)
    requires AllMeshed(peers, role, tracks, streams) && id !in streams && id !in tracks
    requires forall u :: u in peers && !Skips(role, u, st.source) ==> u in st.recorded
    ensures AllMeshed(AttachAll(peers, id, local, if role == Presenter then {st.source} else {}), role,
                      tracks, streams[id := st])
  {
    var peers' := AttachAll(peers, id, local, if role == Presenter then {st.source} else {});
    forall u | u in peers' ensures Meshed(u, role, peers'[u], tracks, streams[id := st]) {
      assert Meshed(u, role, peers[u], tracks, streams);
    }
  }

  lemma InsertStreamShape(s: RoomState, source: Id, id: Id, q: Layer, local: LocalTrack)
    requires Shape(s) && id !in s.tracks
    ensures Shape(InsertStream(s, source, id, q, local))
  {}

  lemma InsertStreamSound(s: RoomState, source: Id, id: Id, q: Layer, local: LocalTrack)
    requires StreamsSound(s.streams)
    ensures StreamsSound(InsertStream(s, source, id, q, local).streams)
  {
    assert q in InsertStream(s, source, id, q, local).streams[id].layers;
  }

  lemma InsertStreamKeepsMesh(s: RoomState, source: Id, id: Id, q: Layer, local: LocalTrack)
    requires Mesh(s) && id !in s.tracks && id !in s.streams
    ensures Mesh(InsertStream(s, source, id, q, local))
  {
    var t := InsertStream(s, source, id, q, local);
    var st := t.streams[id];
    AttachedMeshed(s.presenters, Presenter, s.tracks, s.streams, id, st, local);
    AttachedMeshed(s.viewers, Viewer, s.tracks, s.streams, id, st, local);
    InsertStreamShape(s, source, id, q, local);
    InsertStreamSound(s, source, id, q, local);
    MeshOf(t);
  }

  lemma SetLayerKeepsMesh(s: RoomState, id: Id, q: Layer, local: LocalTrack)
    requires Mesh(s) && id in s.streams
    ensures Mesh(SetLayer(s, id, q, local))
  {
    var streams := SetLayer(s, id, q, local).streams;
    MoreRecords(s.presenters, Presenter, s.tracks, s.streams, streams);
    MoreRecords(s.viewers, Viewer, s.tracks, s.streams, streams);
    assert LayersExist(s.streams[id]);
    assert q in streams[id].layers;
  }

  // ---- Switching ----------------------------------------------------------------

  lemma SetSubMeshed(peers: map<Id, Subs>, role: Role, tracks: map<Id, Router>, streams: map<Id, Stream>,
                     userID: Id, id: Id, local: LocalTrack)
    requires AllMeshed(peers, role, tracks, streams)
    requires userID in peers && id in streams && userID in streams[id].recorded
    ensures AllMeshed(peers[userID := peers[userID][id := local]], role, tracks, streams)
  {}

  lemma SwitchShape(s: RoomState, userID: Id, id: Id, q: Layer)
    requires Shape(s) && Present(s, userID) && id in s.streams && q in s.streams[id].layers
    ensures Shape(Switch(s, userID, id, q))
  {}

  /** The record half of a switch. */
  lemma RecordKeepsMesh(s: RoomState, userID: Id, id: Id, q: Layer)
    requires Mesh(s) && id in s.streams && q in s.streams[id].layers
    ensures var st := s.streams[id];
            Mesh(s.(streams := s.streams[id := st.(recorded := st.recorded[userID := q])]))
  {
    var st := s.streams[id];
    var t := s.(streams := s.streams[id := st.(recorded := st.recorded[userID := q])]);
    assert LayersExist(st);
    MoreRecords(s.presenters, Presenter, s.tracks, s.streams, t.streams);
    MoreRecords(s.viewers, Viewer, s.tracks, s.streams, t.streams);
    MeshOf(t);
  }

  lemma SwitchKeepsMesh(s: RoomState, userID: Id, id: Id, q: Layer)
    requires Mesh(s) && Present(s, userID) && id in s.streams && q in s.streams[id].layers
    ensures Mesh(Switch(s, userID, id, q))
  {
    var st := s.streams[id];
    var r := s.(streams := s.streams[id := st.(recorded := st.recorded[userID := q])]);
    RecordKeepsMesh(s, userID, id, q);
    SwitchShape(s, userID, id, q);
    if userID in s.presenters {
      SetSubMeshed(s.presenters, Presenter, s.tracks, r.streams, userID, id, st.layers[q]);
      MeshOf(r.(presenters := s.presenters[userID := s.presenters[userID][id := st.layers[q]]]));
    } else {
      SetSubMeshed(s.viewers, Viewer, s.tracks, r.streams, userID, id, st.layers[q]);
      MeshOf(r.(viewers := s.viewers[userID := s.viewers[userID][id := st.layers[q]]]));
    }
  }

  // ---- Capacity -------------------------------------------------------------------

  lemma OneFewer(m: map<Id, Subs>, userID: Id)
    ensures |m - {userID}| <= |m|
  {}

  ghost predicate SameUsers(s: RoomState, t: RoomState) {
    t.presenters.Keys == s.presenters.Keys && t.viewers.Keys == s.viewers.Keys
  }

  lemma SamePeers(l: Limits, s: RoomState, t: RoomState)
    requires WithinCaps(l, s)
    requires SameUsers(s, t)
    ensures WithinCaps(l, t)
  {}

  lemma LeaveKeepsCaps(l: Limits, s: RoomState, userID: Id)
    requires WithinCaps(l, s)
    ensures WithinCaps(l, Leave(s, userID))
  {
    OneFewer(s.presenters, userID);
    OneFewer(s.viewers, userID);
    if !s.closed && userID in s.presenters {
      var r := s.(presenters := s.presenters - {userID});
      SamePeers(l, r, RemoveTracksOf(r, userID));
    }
  }

  lemma JoinKeepsCaps(l: Limits, s: RoomState, userID: Id, role: Role)
    requires WithinCaps(l, s)
    ensures WithinCaps(l, Join(l, s, userID, role))
  {}

  lemma InsertTrackKeepsUsers(s: RoomState, source: Id, id: Id, local: LocalTrack)
    ensures SameUsers(s, InsertTrack(s, source, id, local))
  {}

  lemma InsertStreamKeepsUsers(s: RoomState, source: Id, id: Id, q: Layer, local: LocalTrack)
    ensures SameUsers(s, InsertStream(s, source, id, q, local))
  {}

  lemma SwitchKeepsUsers(s: RoomState, userID: Id, id: Id, q: Layer)
    requires Present(s, userID) && id in s.streams && q in s.streams[id].layers
    ensures SameUsers(s, Switch(s, userID, id, q))
  {}

  lemma OtherStepsKeepUsers(l: Limits, s: RoomState, step: Step)
    requires !step.DoJoin? && !step.DoLeave? && !step.DoClose?
    ensures SameUsers(s, Apply(l, s, step))
  {
    match step
    case DoPublishTrack(u, id, local) => InsertTrackKeepsUsers(s, u, id, local);
    case DoPublishLayer(u, id, q, local) => InsertStreamKeepsUsers(s, u, id, q, local);
    case DoInjectTrack(src, id, local) => InsertTrackKeepsUsers(s, src, id, local);
    case DoInjectLayer(src, id, q, local) => InsertStreamKeepsUsers(s, src, id, q, local);
    case DoSetQuality(u, id, want) =>
      if SetQuality(s, u, id, want).1 != s {
        SwitchKeepsUsers(s, u, id, BestAvailable(want, s.streams[id].layers.Keys));
      }
  }

  lemma StepKeepsCaps(l: Limits, s: RoomState, step: Step)
    requires WithinCaps(l, s)
    ensures WithinCaps(l, Apply(l, s, step))
  {
    if step.DoJoin? {
      JoinKeepsCaps(l, s, step.userID, step.role);
    } else if step.DoLeave? {
      LeaveKeepsCaps(l, s, step.userID);
    } else if !step.DoClose? {
      OtherStepsKeepUsers(l, s, step);
      SamePeers(l, s, Apply(l, s, step));
    }
  }

  // ---- Every run ------------------------------------------------------------------

  lemma StepKeepsMesh(l: Limits, s: RoomState, step: Step)
    requires Mesh(s) && KeepsIdsApart(s, step)
    ensures Mesh(Apply(l, s, step))
  {
    match step
    case DoJoin(u, role) => JoinKeepsMesh(l, s, u, role);
    case DoLeave(u) => LeaveKeepsMesh(s, u);
    case DoClose =>
    case DoPublishTrack(u, id, local) => InsertTrackKeepsMesh(s, u, id, local);
    case DoPublishLayer(u, id, q, local) =>
      if id in s.streams { SetLayerKeepsMesh(s, id, q, local); }
      else { InsertStreamKeepsMesh(s, u, id, q, local); }
    case DoInjectTrack(src, id, local) => InsertTrackKeepsMesh(s, src, id, local);
    case DoInjectLayer(src, id, q, local) =>
      if id in s.streams { SetLayerKeepsMesh(s, id, q, local); }
      else { InsertStreamKeepsMesh(s, src, id, q, local); }
    case DoSetQuality(u, id, want) =>
      if SetQuality(s, u, id, want).1 != s {
        SwitchKeepsMesh(s, u, id, BestAvailable(want, s.streams[id].layers.Keys));
      }
  }

  /** Every step of the run keeps track ids and stream ids apart. */
  ghost predicate IdsApart(l: Limits, steps: seq<Step>) {
    steps == [] ||
    (IdsApart(l, steps[..|steps| - 1]) &&
     KeepsIdsApart(Run(l, steps[..|steps| - 1]), steps[|steps| - 1]))
  }

  /** The subscription mesh holds after every run, and both peer caps. */
  lemma {:induction false} RunKeepsMesh(l: Limits, steps: seq<Step>)
    requires IdsApart(l, steps)
    ensures Mesh(Run(l, steps)) && WithinCaps(l, Run(l, steps))
  {
    if steps != [] {
      RunKeepsMesh(l, steps[..|steps| - 1]);
      StepKeepsMesh(l, Run(l, steps[..|steps| - 1]), steps[|steps| - 1]);
      StepKeepsCaps(l, Run(l, steps[..|steps| - 1]), steps[|steps| - 1]);
    }
  }
}
