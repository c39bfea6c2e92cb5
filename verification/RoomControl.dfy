/** The track cap over every run, and what the adaptive decisions do to the room. */
module RoomControl {
  import opened Layers
  import opened Wrappers
  import opened RoomModel
  import opened RoomMesh
  import Adaptive
  import AudioFirst

  // ---- The per-presenter track cap ------------------------------------------------

  /** Relay sources and local publishers are different users. */
  predicate RelaysApart(relays: set<Id>, step: Step) {
    match step
    case DoPublishTrack(u, _, _) => u !in relays
    case DoPublishLayer(u, _, _, _) => u !in relays
    case DoInjectTrack(src, _, _) => src in relays
    case DoInjectLayer(src, _, _, _) => src in relays
    case _ => true
  }

  ghost predicate TracksCapped(l: Limits, relays: set<Id>, s: RoomState) {
    forall u :: u !in relays ==> |Owned(s, u)| <= l.maxTracks
  }

  lemma OwnedCount(s: RoomState, userID: Id)
    ensures |Owned(s, userID)| <= |TracksOf(s, userID)| + |StreamsOf(s, userID)|
  {}

  /** Ownership moves only to `source`, and only for `id`. */
  ghost predicate OwnsOneMore(s: RoomState, t: RoomState, source: Id, id: Id) {
    && Owned(t, source) <= Owned(s, source) + {id}
    && forall u :: u != source ==> Owned(t, u) <= Owned(s, u)
  }

  /** One more id owned by `source`, at no one else's gain, respects the cap when it was allowed. */
  lemma OneMoreOwned(l: Limits, relays: set<Id>, s: RoomState, t: RoomState, source: Id, id: Id)
    requires TracksCapped(l, relays, s)
    requires OwnsOneMore(s, t, source, id)
    requires source in relays || CanPublish(l, s, source, id)
    ensures TracksCapped(l, relays, t)
  {
    forall u | u !in relays ensures |Owned(t, u)| <= l.maxTracks {
      if u != source {
        SubsetSize(Owned(t, u), Owned(s, u));
      } else {
        SubsetSize(Owned(t, u), Owned(s, u) + {id});
        OwnedCount(s, u);
        if id in Owned(s, u) {
          assert Owned(s, u) + {id} == Owned(s, u);
        }
      }
    }
  }

  lemma FewerOwned(l: Limits, relays: set<Id>, s: RoomState, t: RoomState)
    requires TracksCapped(l, relays, s)
    requires forall u :: Owned(t, u) <= Owned(s, u)
    ensures TracksCapped(l, relays, t)
  {
    forall u | u !in relays ensures |Owned(t, u)| <= l.maxTracks {
      SubsetSize(Owned(t, u), Owned(s, u));
    }
  }

  lemma InsertedTrackOwned(s: RoomState, source: Id, id: Id, local: LocalTrack)
    ensures OwnsOneMore(s, InsertTrack(s, source, id, local), source, id)
  {}

  lemma InsertedStreamOwned(s: RoomState, source: Id, id: Id, q: Layer, local: LocalTrack)
    requires id !in s.streams
    ensures OwnsOneMore(s, InsertStream(s, source, id, q, local), source, id)
  {}

  /** Nothing is published and nothing changes hands. */
  ghost predicate PublishesNothing(s: RoomState, t: RoomState) {
    && (forall id :: id in t.tracks ==> id in s.tracks && t.tracks[id] == s.tracks[id])
    && (forall id :: id in t.streams ==> id in s.streams && t.streams[id].source == s.streams[id].source)
  }

  lemma KeepsTracksCapped(l: Limits, relays: set<Id>, s: RoomState, t: RoomState)
    requires TracksCapped(l, relays, s) && PublishesNothing(s, t)
    ensures TracksCapped(l, relays, t)
  {
    forall u ensures Owned(t, u) <= Owned(s, u) {}
    FewerOwned(l, relays, s, t);
  }

  lemma JoinPublishesNothing(l: Limits, s: RoomState, userID: Id, role: Role)
    ensures PublishesNothing(s, Join(l, s, userID, role))
  {
    var t := Join(l, s, userID, role);
    forall id | id in t.streams ensures id in s.streams && t.streams[id].source == s.streams[id].source {
      if CanJoin(l, s, userID, role) {
        assert t.streams[id] == JoinStream(s.streams[id], userID, role);
      }
    }
  }

  lemma LeavePublishesNothing(s: RoomState, userID: Id)
    ensures PublishesNothing(s, Leave(s, userID))
  {}

  lemma SwitchPublishesNothing(s: RoomState, userID: Id, id: Id, want: Layer)
    ensures PublishesNothing(s, SetQuality(s, userID, id, want).1)
  {}

  lemma OtherStepsPublishNothing(l: Limits, s: RoomState, step: Step)
    requires step.DoJoin? || step.DoLeave? || step.DoClose? || step.DoSetQuality?
    ensures PublishesNothing(s, Apply(l, s, step))
  {
    match step
    case DoJoin(u, role) => JoinPublishesNothing(l, s, u, role);
    case DoLeave(u) => LeavePublishesNothing(s, u);
    case DoClose =>
    case DoSetQuality(u, id, want) => SwitchPublishesNothing(s, u, id, want);
  }

  lemma PublishKeepsTracksCapped(l: Limits, relays: set<Id>, s: RoomState, u: Id, id: Id, local: LocalTrack)
    requires TracksCapped(l, relays, s)
    ensures u !in relays ==> TracksCapped(l, relays, PublishTrack(l, s, u, id, local))
    ensures u in relays ==> TracksCapped(l, relays, InjectTrack(s, u, id, local))
  {
    InsertedTrackOwned(s, u, id, local);
    if u in relays || CanPublish(l, s, u, id) {
      OneMoreOwned(l, relays, s, InsertTrack(s, u, id, local), u, id);
    }
  }

  lemma PublishLayerKeepsTracksCapped(l: Limits, relays: set<Id>, s: RoomState, u: Id, id: Id, q: Layer, local: LocalTrack)
    requires TracksCapped(l, relays, s)
    ensures u !in relays ==> TracksCapped(l, relays, PublishLayer(l, s, u, id, q, local))
    ensures u in relays ==> TracksCapped(l, relays, InjectLayer(s, u, id, q, local))
  {
    if id in s.streams {
      KeepsTracksCapped(l, relays, s, SetLayer(s, id, q, local));
    } else {
      InsertedStreamOwned(s, u, id, q, local);
      if u in relays || CanPublish(l, s, u, id) {
        OneMoreOwned(l, relays, s, InsertStream(s, u, id, q, local), u, id);
      }
    }
  }

  lemma StepKeepsTracksCapped(l: Limits, relays: set<Id>, s: RoomState, step: Step)
    requires TracksCapped(l, relays, s) && RelaysApart(relays, step)
    ensures TracksCapped(l, relays, Apply(l, s, step))
  {
    match step
    case DoPublishTrack(u, id, local) => PublishKeepsTracksCapped(l, relays, s, u, id, local);
    case DoInjectTrack(src, id, local) => PublishKeepsTracksCapped(l, relays, s, src, id, local);
    case DoPublishLayer(u, id, q, local) => PublishLayerKeepsTracksCapped(l, relays, s, u, id, q, local);
    case DoInjectLayer(src, id, q, local) => PublishLayerKeepsTracksCapped(l, relays, s, src, id, q, local);
    case _ =>
      OtherStepsPublishNothing(l, s, step);
      KeepsTracksCapped(l, relays, s, Apply(l, s, step));
  }

  /** Over every run, with republishes and with one presenter overwriting another's track id, no
      local publisher ever owns more distinct ids than the cap. */
  lemma {:induction false} RunKeepsTracksCapped(l: Limits, relays: set<Id>, steps: seq<Step>)
    requires forall i :: 0 <= i < |steps| ==> RelaysApart(relays, steps[i])
    ensures TracksCapped(l, relays, Run(l, steps))
  {
    if steps == [] {
      forall u ensures Owned(EMPTY_ROOM, u) == {} {}
    } else {
      RunKeepsTracksCapped(l, relays, steps[..|steps| - 1]);
      StepKeepsTracksCapped(l, relays, Run(l, steps[..|steps| - 1]), steps[|steps| - 1]);
    }
  }

  // ---- Who stays on record ----------------------------------------------------------

  /** After a peer leaves, a surviving stream still has it on record exactly when it was a
      presenter: a departed viewer is forgotten, a departed presenter is on record everywhere. */
  lemma DepartedOnRecordExactly(s: RoomState, userID: Id, id: Id)
    requires Mesh(s) && Present(s, userID) && !s.closed
    requires id in Leave(s, userID).streams
    ensures !Present(Leave(s, userID), userID)
    ensures userID in Leave(s, userID).streams[id].recorded <==> userID in s.presenters
  {
    if userID in s.presenters {
      assert Meshed(userID, Presenter, s.presenters[userID], s.tracks, s.streams);
      assert id in s.streams && s.streams[id].source != userID;
    }
  }

  // ---- Applying decisions -------------------------------------------------------------

  /** ApplyAdaptiveDecision. */
  function ApplyDecision(s: RoomState, d: Adaptive.Decision): (Outcome, RoomState) {
    if d.streamID == "" || d.userID == "" then (Unnamed, s)
    else if !d.changed && !d.suspended then (Done, s)
    else SetQuality(s, Id(d.userID), Id(d.streamID), d.target)
  }

  /** After a changed or suspended decision is applied with success, the subscriber is on record on
      exactly the best available layer for the target. */
  lemma AppliedOnBestLayer(s: RoomState, d: Adaptive.Decision)
    requires d.changed || d.suspended
    requires ApplyDecision(s, d).0 == Done
    ensures var t := ApplyDecision(s, d).1;
            var id := Id(d.streamID);
            && id in t.streams && t.streams[id].layers == s.streams[id].layers
            && Id(d.userID) in t.streams[id].recorded
            && t.streams[id].recorded[Id(d.userID)] == BestAvailable(d.target, t.streams[id].layers.Keys)
  {}

  /** Why a layer switch or the application of a decision fails, in the order in which it is looked for. */
  lemma FailuresExactly(s: RoomState, d: Adaptive.Decision)
    ensures var u, id := Id(d.userID), Id(d.streamID);
            var outcome := ApplyDecision(s, d).0;
            var named, idle := d.userID != "" && d.streamID != "", !d.changed && !d.suspended;
            && (outcome == Unnamed <==> !named)
            && (outcome == StreamNotFound <==> named && !idle && id !in s.streams)
            && (outcome == PeerNotFound ==> u !in s.presenters && u !in s.viewers)
            && (outcome == LayerNotAvailable <==>
                named && !idle && id in s.streams && s.streams[id].layers == map[] && Present(s, u)
                && !(u in s.streams[id].recorded && s.streams[id].recorded[u] == High))
            && (outcome != Done ==> ApplyDecision(s, d).1 == s)
  {
    var id := Id(d.streamID);
    if id in s.streams {
      assert s.streams[id].layers == map[] <==> s.streams[id].layers.Keys == {};
    }
  }

  /** A present subscriber of a live stream: applying any decision succeeds. */
  lemma ApplySucceeds(s: RoomState, d: Adaptive.Decision)
    requires d.userID != "" && d.streamID != ""
    requires Mesh(s) && Present(s, Id(d.userID)) && Id(d.streamID) in s.streams
    ensures ApplyDecision(s, d).0 == Done
  {}

  /** The layer a subscriber is recorded on, as the planner reads it. */
  function CurrentLayer(s: RoomState, userID: Id, id: Id): Layer
    requires id in s.streams
  {
    if userID in s.streams[id].recorded then s.streams[id].recorded[userID] else Medium
  }

  // ---- Planning ----------------------------------------------------------------------

  datatype Planned = NoUser | NoStream | NoPeer | Plan(decision: Adaptive.Decision)

  /** The existing layers in one fixed order. */
  function LayerSeq(layers: set<Layer>): (r: seq<Layer>)
    ensures Adaptive.LayerSet(r) == layers
  {
    var low := if Low in layers then [Low] else [];
    var medium := if Medium in layers then low + [Medium] else low;
    var high := if High in layers then medium + [High] else medium;
    assert forall q :: q in medium <==> q in low || (q == Medium && q in layers);
    assert forall q :: q in high <==> q in medium || (q == High && q in layers);
    high
  }

  lemma OneMoreLayer(available: seq<Layer>, q: Layer)
    ensures Adaptive.LayerSet(available + [q]) == Adaptive.LayerSet(available) + {q}
  {}

  /** The order in which layers are listed has no part in a decision. */
  lemma DecideIgnoresLayerOrder(o: Adaptive.Options, st0: Option<Adaptive.AdaptiveState>, sample: Adaptive.Sample,
                                current: Layer, a: seq<Layer>, b: seq<Layer>)
    requires Adaptive.LayerSet(a) == Adaptive.LayerSet(b)
    ensures Adaptive.DecideOn(o, st0, sample, current, a) == Adaptive.DecideOn(o, st0, sample, current, b)
  {
    ClampIgnoresLayerOrder(Low, a, b);
    forall q ensures Adaptive.ClampQuality(q, a) == Adaptive.ClampQuality(q, b) {
      ClampIgnoresLayerOrder(q, a, b);
    }
  }

  lemma ClampIgnoresLayerOrder(q: Layer, a: seq<Layer>, b: seq<Layer>)
    requires Adaptive.LayerSet(a) == Adaptive.LayerSet(b)
    ensures Adaptive.ClampQuality(q, a) == Adaptive.ClampQuality(q, b)
  {
    if a != [] { assert a[0] in Adaptive.LayerSet(a); }
    if b != [] { assert b[0] in Adaptive.LayerSet(b); }
  }

  /** The stream a sample is about: the one it names, or the only one of the room when it names none. */
  predicate IsStreamFor(s: RoomState, sample: Adaptive.Sample, id: Id) {
    if sample.streamID == "" && |s.streams| == 1 then id in s.streams else id == Id(sample.streamID)
  }

  lemma OnlyKey(m: map<Id, Stream>)
    requires |m| == 1
    ensures exists id :: id in m
  {}

  /** What planning answers and what it leaves of the controller's states. */
  ghost predicate IsPlan(o: Adaptive.Options, s: RoomState, before: map<string, Adaptive.AdaptiveState>,
                         sample: Adaptive.Sample, p: Planned, after: map<string, Adaptive.AdaptiveState>)
  {
    if sample.userID == "" then p == NoUser && after == before
    else exists id :: IsStreamFor(s, sample, id) && IsPlanFor(o, s, before, sample, id, p, after)
  }

  ghost predicate IsPlanFor(o: Adaptive.Options, s: RoomState, before: map<string, Adaptive.AdaptiveState>,
                            sample: Adaptive.Sample, id: Id, p: Planned, after: map<string, Adaptive.AdaptiveState>)
  {
    if id !in s.streams then p == NoStream && after == before
    else if !Present(s, Id(sample.userID)) then p == NoPeer && after == before
    else
      var k := Adaptive.Key(sample.userID, id.name);
      var (st, d) := Adaptive.DecideOn(o, Adaptive.Lookup(before, k), sample.(streamID := id.name),
                                       CurrentLayer(s, Id(sample.userID), id), LayerSeq(s.streams[id].layers.Keys));
      p == Plan(d) && after == before[k := st]
  }

  /** Planning for a named stream: what is looked for, in order, and otherwise the controller's decision on the
      layer found, whichever way the stream's layers are listed. */
  lemma PlannedExactly(o: Adaptive.Options, s: RoomState, before: map<string, Adaptive.AdaptiveState>,
                       sample: Adaptive.Sample, p: Planned, after: map<string, Adaptive.AdaptiveState>, available: seq<Layer>)
    requires sample.streamID != "" && IsPlan(o, s, before, sample, p, after)
    ensures var u, id := Id(sample.userID), Id(sample.streamID);
            && (p == NoUser <==> sample.userID == "")
            && (p == NoStream <==> sample.userID != "" && id !in s.streams)
            && (p == NoPeer <==> sample.userID != "" && id in s.streams && u !in s.presenters && u !in s.viewers)
            && (!p.Plan? ==> after == before)
            && (p.Plan? && Adaptive.LayerSet(available) == s.streams[id].layers.Keys ==>
                  var k := Adaptive.Key(sample.userID, sample.streamID);
                  var recorded := s.streams[id].recorded;
                  var (st, d) := Adaptive.DecideOn(o, Get(before, k), sample, if u in recorded then recorded[u] else Medium, available);
                  p.decision == d && after == before[k := st])
  {
    if sample.userID != "" {
      var u, id := Id(sample.userID), Id(sample.streamID);
      assert sample.(streamID := id.name) == sample;
      if p.Plan? && Adaptive.LayerSet(available) == s.streams[id].layers.Keys {
        DecideIgnoresLayerOrder(o, Get(before, Adaptive.Key(sample.userID, sample.streamID)), sample, CurrentLayer(s, u, id),
                                LayerSeq(s.streams[id].layers.Keys), available);
      }
    }
  }

  /** A sample that names no stream is about the room's only one. */
  lemma OnlyStreamIsPlanned(o: Adaptive.Options, s: RoomState, before: map<string, Adaptive.AdaptiveState>,
                            sample: Adaptive.Sample, id: Id, p: Planned, after: map<string, Adaptive.AdaptiveState>)
    requires sample.userID != "" && sample.streamID == "" && s.streams.Keys == {id} && Present(s, Id(sample.userID))
    requires IsPlan(o, s, before, sample, p, after)
    ensures p.Plan? && p.decision.streamID == id.name && p.decision.userID == sample.userID
    ensures var recorded := s.streams[id].recorded;
            p.decision.previous == if Id(sample.userID) in recorded then recorded[Id(sample.userID)] else Medium
    ensures forall k :: k != Adaptive.Key(sample.userID, id.name) ==>
              (k in after <==> k in before) && (k in after ==> after[k] == before[k])
  {
    assert |s.streams| == |s.streams.Keys|;
    var x :| IsStreamFor(s, sample, x) && IsPlanFor(o, s, before, sample, x, p, after);
    DecisionNames(o, Adaptive.Lookup(before, Adaptive.Key(sample.userID, id.name)), sample.(streamID := id.name),
                  CurrentLayer(s, Id(sample.userID), id), LayerSeq(s.streams[id].layers.Keys));
  }

  /** One adaptation of a recorded subscriber moves its record towards the decided target, which
      is what bounded flapping asks of each report. */
  lemma AdaptMovesTowards(o: Adaptive.Options, s: RoomState, st0: Option<Adaptive.AdaptiveState>,
                          sample: Adaptive.Sample, available: seq<Layer>)
    requires Mesh(s) && sample.userID != "" && sample.streamID != ""
    requires var u := Id(sample.userID); var id := Id(sample.streamID);
             && Present(s, u) && id in s.streams && u in s.streams[id].recorded
             && Adaptive.LayerSet(available) == s.streams[id].layers.Keys
    ensures var u := Id(sample.userID); var id := Id(sample.streamID);
            var d := Adaptive.DecideOn(o, st0, sample, CurrentLayer(s, u, id), available).1;
            var (outcome, t) := ApplyDecision(s, d);
            && outcome == Done && id in t.streams
            && Towards(CurrentLayer(s, u, id), CurrentLayer(t, u, id), d.target)
  {
    var u, id := Id(sample.userID), Id(sample.streamID);
    var cur := CurrentLayer(s, u, id);
    var d := Adaptive.DecideOn(o, st0, sample, cur, available).1;
    assert LayersExist(s.streams[id]);
    DecisionNames(o, st0, sample, cur, available);
    ApplySucceeds(s, d);
    if d.changed || d.suspended {
      AppliedOnBestLayer(s, d);
      BestMovesTowards(cur, d.target, s.streams[id].layers.Keys);
    }
  }

  lemma DecisionNames(o: Adaptive.Options, st0: Option<Adaptive.AdaptiveState>, sample: Adaptive.Sample,
                      current: Layer, available: seq<Layer>)
    ensures var d := Adaptive.DecideOn(o, st0, sample, current, available).1;
            && d.userID == sample.userID && d.streamID == sample.streamID
            && d.previous == current && (d.changed <==> d.target != current)
  {}

  /** Audio first, end to end: whenever the decision for a recorded subscriber reports audio
      priority or suspension, then after the runtime policy (any policy) and the decision are
      applied, the subscriber is on record on the lowest layer its stream has. */
  lemma AudioFirstEndToEnd(o: Adaptive.Options, s: RoomState, st0: Option<Adaptive.AdaptiveState>,
                           sample: Adaptive.Sample, available: seq<Layer>,
                           policy: Option<AudioFirst.QualityPolicy>)
    requires Adaptive.Sane(o) && Mesh(s) && sample.userID != "" && sample.streamID != ""
    requires var u := Id(sample.userID); var id := Id(sample.streamID);
             && Present(s, u) && id in s.streams && u in s.streams[id].recorded
             && Adaptive.LayerSet(available) == s.streams[id].layers.Keys
    ensures var u := Id(sample.userID); var id := Id(sample.streamID);
            var d := Adaptive.DecideOn(o, st0, sample, CurrentLayer(s, u, id), available).1;
            var (outcome, t) := ApplyDecision(s, AudioFirst.ApplyPolicy(d, policy));
            && outcome == Done && id in t.streams && u in t.streams[id].recorded
            && (d.audioPriority || d.suspended ==>
                  forall q :: q in s.streams[id].layers ==> Rank(t.streams[id].recorded[u]) <= Rank(q))
  {
    var u, id := Id(sample.userID), Id(sample.streamID);
    var cur := CurrentLayer(s, u, id);
    var layers := s.streams[id].layers.Keys;
    var d := Adaptive.DecideOn(o, st0, sample, cur, available).1;
    var e := AudioFirst.ApplyPolicy(d, policy);
    assert LayersExist(s.streams[id]);
    assert cur in layers && cur in Adaptive.LayerSet(available);
    DecisionNames(o, st0, sample, cur, available);
    AudioFirst.PolicyNeverRaises(o, st0, sample, cur, available, policy);
    PolicyNames(d, policy);
    ApplySucceeds(s, e);
    if e.changed || e.suspended {
      AppliedOnBestLayer(s, e);
    }
    if d.audioPriority || d.suspended {
      assert forall q :: q in layers ==> q in Adaptive.LayerSet(available);
      assert forall q :: q in layers ==> Rank(e.target) <= Rank(q);
      BestOfFloorIsLowest(e.target, layers);
    }
  }

  lemma PolicyNames(d: Adaptive.Decision, policy: Option<AudioFirst.QualityPolicy>)
    ensures var e := AudioFirst.ApplyPolicy(d, policy);
            && e.userID == d.userID && e.streamID == d.streamID && e.previous == d.previous
            && ((d.changed <==> d.target != d.previous) ==> (e.changed <==> e.target != e.previous))
  {
    if policy.Some? {
      match policy.value.mode
      case ConserveBandwidth =>
      case ForceLow =>
      case AudioOnly =>
      case _ =>
    }
  }
}
