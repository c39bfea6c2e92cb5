/** Bounded flapping end to end: the controller's decisions, tightened by the runtime policy and
    applied by a room that changes under them (internal/service/call/media.go,
    internal/service/mediaops/service.go). */
module RoomFlapping {
  import opened Layers
  import opened Wrappers
  import opened RoomModel
  import opened RoomMesh
  import opened RoomControl
  import opened AudioFirst
  import Adaptive
  import Flapping

  /** A report of one subscriber about one stream, the room it finds and the policy in force; or the
      controller forgetting the user or the stream. */
  datatype Visit = Visit(room: RoomState, sample: Adaptive.Sample, policy: Option<QualityPolicy>) | Forgets

  /** The layer on record, or Medium where there is none. */
  function OnRecord(s: RoomState, u: Id, id: Id): Layer {
    if id in s.streams && u in s.streams[id].recorded then s.streams[id].recorded[u] else Medium
  }

  function Available(s: RoomState, id: Id): seq<Layer> {
    if id in s.streams then LayerSeq(s.streams[id].layers.Keys) else []
  }

  function DecisionAt(o: Adaptive.Options, st: Option<Adaptive.AdaptiveState>, v: Visit, u: Id, id: Id): Adaptive.Decision
    requires v.Visit?
  {
    Adaptive.DecideOn(o, st, v.sample, OnRecord(v.room, u, id), Available(v.room, id)).1
  }

  /** The layer on record once the decision has been through the policy and applied. */
  function Landed(o: Adaptive.Options, st: Option<Adaptive.AdaptiveState>, v: Visit, u: Id, id: Id): Layer
    requires v.Visit?
  {
    OnRecord(ApplyDecision(v.room, ApplyPolicy(DecisionAt(o, st, v, u, id), v.policy)).1, u, id)
  }

  /** A visit as the controller sees it. */
  function TickOf(o: Adaptive.Options, st: Option<Adaptive.AdaptiveState>, v: Visit, u: Id, id: Id): Flapping.Tick {
    match v
    case Forgets => Flapping.Forget
    case Visit(room, sample, _) =>
      Flapping.Report(OnRecord(room, u, id), sample, Available(room, id), Landed(o, st, v, u, id))
  }

  function Ticks(o: Adaptive.Options, start: Layer, visits: seq<Visit>, u: Id, id: Id): seq<Flapping.Tick> {
    if visits == [] then []
    else
      var before := Ticks(o, start, visits[..|visits| - 1], u, id);
      before + [TickOf(o, Flapping.Run(o, start, before).st, visits[|visits| - 1], u, id)]
  }

  function Trace(o: Adaptive.Options, start: Layer, visits: seq<Visit>, u: Id, id: Id): Flapping.Trace {
    Flapping.Run(o, start, Ticks(o, start, visits, u, id))
  }

  /** A sound room in which the subscriber is present and on record for the stream. */
  ghost predicate Visitable(v: Visit, u: Id, id: Id) {
    v.Visit? ==>
      && Mesh(v.room) && Present(v.room, u)
      && id in v.room.streams && u in v.room.streams[id].recorded
      && u.name != "" && id.name != "" && v.sample.userID == u.name && v.sample.streamID == id.name
  }

  ghost predicate AllVisitable(visits: seq<Visit>, u: Id, id: Id) {
    forall i :: 0 <= i < |visits| ==> Visitable(visits[i], u, id)
  }

  ghost predicate InTimeOrder(visits: seq<Visit>) {
    forall i, j :: 0 <= i < j < |visits| && visits[i].Visit? && visits[j].Visit? ==>
      visits[i].sample.at <= visits[j].sample.at
  }

  /** Reports come in time order. Between two of them anything may happen to the room: layers come
      and go, peers join and leave, and the subscriber may be put on another layer by hand. */
  ghost predicate Visits(visits: seq<Visit>, u: Id, id: Id) {
    AllVisitable(visits, u, id) && InTimeOrder(visits)
  }

  lemma VisitsPrefix(visits: seq<Visit>, u: Id, id: Id)
    requires Visits(visits, u, id) && visits != []
    ensures Visits(visits[..|visits| - 1], u, id)
  {
    var before := visits[..|visits| - 1];
    forall i | 0 <= i < |before| ensures Visitable(before[i], u, id) {
      assert Visitable(visits[i], u, id);
    }
  }

  lemma TraceGrows(o: Adaptive.Options, start: Layer, visits: seq<Visit>, u: Id, id: Id)
    requires visits != []
    ensures var before := Trace(o, start, visits[..|visits| - 1], u, id);
            Trace(o, start, visits, u, id) ==
            Flapping.Advance(o, before, TickOf(o, before.st, visits[|visits| - 1], u, id))
  {
    var before := Ticks(o, start, visits[..|visits| - 1], u, id);
    Flapping.OneMoreTick(o, start, before, TickOf(o, Flapping.Run(o, start, before).st, visits[|visits| - 1], u, id));
  }

  /** The last report of a run is one of its visits. */
  lemma {:induction false} LastIsVisit(o: Adaptive.Options, start: Layer, visits: seq<Visit>, u: Id, id: Id)
    requires Trace(o, start, visits, u, id).first.Some?
    ensures exists i :: 0 <= i < |visits| && visits[i].Visit? && visits[i].sample.at == Trace(o, start, visits, u, id).last
  {
    assert visits != [];
    var n := |visits| - 1;
    TraceGrows(o, start, visits, u, id);
    if visits[n].Forgets? {
      LastIsVisit(o, start, visits[..n], u, id);
      var i :| 0 <= i < n && visits[..n][i].Visit? && visits[..n][i].sample.at == Trace(o, start, visits[..n], u, id).last;
      assert visits[i].sample.at == Trace(o, start, visits, u, id).last;
    }
  }

  // ---- One visit -------------------------------------------------------------------------

  /** A policy that leaves targets alone. */
  predicate Neutral(policy: Option<QualityPolicy>) {
    policy == None || policy.value.mode == Auto || policy.value.mode == OtherMode
  }

  /** A policy that makes every target Low. */
  predicate Forcing(policy: Option<QualityPolicy>) {
    policy.Some? && (policy.value.mode == ForceLow || policy.value.mode == AudioOnly)
  }

  /** Where a visit leaves the subscriber: on the best layer for the target the policy lets through. */
  lemma Landing(o: Adaptive.Options, st: Option<Adaptive.AdaptiveState>, v: Visit, u: Id, id: Id)
    requires v.Visit? && Visitable(v, u, id)
    ensures var found := OnRecord(v.room, u, id);
            var e := ApplyPolicy(DecisionAt(o, st, v, u, id), v.policy);
            var layers := v.room.streams[id].layers.Keys;
            && found in layers
            && Landed(o, st, v, u, id) ==
               if e.target != found || e.suspended then BestAvailable(e.target, layers) else found
  {
    var found := OnRecord(v.room, u, id);
    var d := DecisionAt(o, st, v, u, id);
    var e := ApplyPolicy(d, v.policy);
    assert Id(v.sample.userID) == u && Id(v.sample.streamID) == id;
    assert LayersExist(v.room.streams[id]);
    DecisionNames(o, st, v.sample, found, Available(v.room, id));
    PolicyNames(d, v.policy);
    ApplySucceeds(v.room, e);
    if e.changed || e.suspended {
      AppliedOnBestLayer(v.room, e);
    }
  }

  lemma PolicyTargets(d: Adaptive.Decision, policy: Option<QualityPolicy>)
    ensures var e := ApplyPolicy(d, policy);
            && Rank(e.target) <= Rank(d.target)
            && (Neutral(policy) ==> e.target == d.target)
            && (Forcing(policy) ==> e.target == Low)
  {
    if policy.Some? {
      match policy.value.mode
      case ConserveBandwidth =>
      case ForceLow =>
      case AudioOnly =>
      case _ =>
    }
  }

  /** So it is never moved up unless the decision's own target is up, a policy that leaves targets alone
      moves it towards the target, and one that forces them low does not move it up. */
  lemma Moving(o: Adaptive.Options, st: Option<Adaptive.AdaptiveState>, v: Visit, u: Id, id: Id)
    requires v.Visit? && Visitable(v, u, id)
    ensures var found := OnRecord(v.room, u, id);
            var target := DecisionAt(o, st, v, u, id).target;
            var next := Landed(o, st, v, u, id);
            && (Rank(next) > Rank(found) ==> Rank(target) > Rank(found))
            && (Neutral(v.policy) ==> Towards(found, next, target))
            && (Forcing(v.policy) ==> Rank(next) <= Rank(found))
  {
    var d := DecisionAt(o, st, v, u, id);
    Landing(o, st, v, u, id);
    PolicyTargets(d, v.policy);
    BestMovesTowards(OnRecord(v.room, u, id), ApplyPolicy(d, v.policy).target, v.room.streams[id].layers.Keys);
  }

  // ---- Runs ------------------------------------------------------------------------------

  ghost predicate AllNeutral(visits: seq<Visit>) {
    forall i :: 0 <= i < |visits| && visits[i].Visit? ==> Neutral(visits[i].policy)
  }

  lemma VisitMayFollow(o: Adaptive.Options, t: Flapping.Trace, v: Visit, u: Id, id: Id)
    requires Visitable(v, u, id) && (v.Visit? && t.first.Some? ==> t.last <= v.sample.at)
    ensures Flapping.MayFollow(o, t, TickOf(o, t.st, v, u, id))
    ensures (v.Visit? ==> Neutral(v.policy)) ==> Flapping.FollowsTarget(o, t, TickOf(o, t.st, v, u, id))
  {
    if v.Visit? {
      Moving(o, t.st, v, u, id);
    }
  }

  lemma InOrderAfter(o: Adaptive.Options, start: Layer, visits: seq<Visit>, u: Id, id: Id)
    requires Visits(visits, u, id) && visits != [] && visits[|visits| - 1].Visit?
    ensures var t := Trace(o, start, visits[..|visits| - 1], u, id);
            t.first.Some? ==> t.last <= visits[|visits| - 1].sample.at
  {
    if Trace(o, start, visits[..|visits| - 1], u, id).first.Some? {
      LastIsVisit(o, start, visits[..|visits| - 1], u, id);
    }
  }

  lemma {:induction false} VisitsAreAdmissible(o: Adaptive.Options, start: Layer, visits: seq<Visit>, u: Id, id: Id)
    requires Visits(visits, u, id)
    ensures Flapping.Admissible(o, start, Ticks(o, start, visits, u, id))
    ensures AllNeutral(visits) ==> Flapping.Followed(o, start, Ticks(o, start, visits, u, id))
  {
    if visits != [] {
      var n := |visits| - 1;
      var before := Ticks(o, start, visits[..n], u, id);
      var t := Flapping.Run(o, start, before);
      VisitsPrefix(visits, u, id);
      VisitsAreAdmissible(o, start, visits[..n], u, id);
      if visits[n].Visit? {
        InOrderAfter(o, start, visits, u, id);
      }
      VisitMayFollow(o, t, visits[n], u, id);
      Flapping.OneMoreTick(o, start, before, TickOf(o, t.st, visits[n], u, id));
    }
  }

  /** However layers come and go in the room, whoever joins or leaves it, whatever policies are in force
      and whoever switches layers by hand: reports move one subscriber's recorded layer of one stream up at
      most once an interval, and they move it at most two times, plus three times as often as they move it
      up, plus twice as often as somebody else moved it. While no policy lowers a target, every move up also
      waits for the interval since the last move. */
  lemma RoomFlapsBounded(o: Adaptive.Options, start: Layer, visits: seq<Visit>, u: Id, id: Id)
    requires Adaptive.Sane(o) && Visits(visits, u, id)
    ensures Flapping.FlapsRarely(o, Trace(o, start, visits, u, id))
    ensures AllNeutral(visits) ==> Flapping.Spaced(o, Trace(o, start, visits, u, id))
  {
    VisitsAreAdmissible(o, start, visits, u, id);
    Flapping.BoundedFlapping(o, start, Ticks(o, start, visits, u, id));
  }
}
