/** Which runtime policies let the controller's interval hold for every move up. A policy that lowers a
    subscriber does so behind the controller's back: it remembers no switch, so once a policy lets the
    subscriber rise, the next report may move it up at once. */
module PolicyFlapping {
  import opened Layers
  import opened Wrappers
  import opened RoomModel
  import opened RoomMesh
  import opened RoomControl
  import opened AudioFirst
  import opened RoomFlapping
  import Adaptive
  import Flapping
  import Monotone

  ghost predicate UsesOnly(visits: seq<Visit>, policies: set<Option<QualityPolicy>>) {
    forall i :: 0 <= i < |visits| && visits[i].Visit? ==> visits[i].policy in policies
  }

  // ---- Policies that force every target low ------------------------------------------------

  ghost predicate NoneUp(log: seq<Flapping.Switch>) {
    forall j :: 0 <= j < |log| ==> !Flapping.Up(log[j])
  }

  lemma NotUpStep(o: Adaptive.Options, t: Flapping.Trace, tick: Flapping.Tick)
    requires NoneUp(t.log) && (tick.Report? ==> Rank(tick.next) <= Rank(tick.found))
    ensures NoneUp(Flapping.Advance(o, t, tick).log)
  {}

  lemma ForcedStep(o: Adaptive.Options, t: Flapping.Trace, v: Visit, u: Id, id: Id)
    requires Visitable(v, u, id) && (v.Visit? ==> Forcing(v.policy)) && NoneUp(t.log)
    ensures NoneUp(Flapping.Advance(o, t, TickOf(o, t.st, v, u, id)).log)
  {
    if v.Visit? {
      Moving(o, t.st, v, u, id);
    }
    NotUpStep(o, t, TickOf(o, t.st, v, u, id));
  }

  /** Under such policies reports move nobody up. */
  lemma {:induction false} ForcedNeverRises(o: Adaptive.Options, start: Layer, visits: seq<Visit>, u: Id, id: Id)
    requires Visits(visits, u, id)
    requires forall i :: 0 <= i < |visits| && visits[i].Visit? ==> Forcing(visits[i].policy)
    ensures NoneUp(Trace(o, start, visits, u, id).log)
  {
    if visits != [] {
      var n := |visits| - 1;
      VisitsPrefix(visits, u, id);
      ForcedNeverRises(o, start, visits[..n], u, id);
      TraceGrows(o, start, visits, u, id);
      ForcedStep(o, Trace(o, start, visits[..n], u, id), visits[n], u, id);
    }
  }

  // ---- A drop and a rise at the same time ---------------------------------------------------

  const SOURCE := Id("source")

  /** A room with one viewer, on record for layer `q` of one stream with the given layers. */
  function Small(u: Id, id: Id, layers: set<Layer>, q: Layer): RoomState {
    RoomState(false, map[], map[u := map[id := LocalTrack(0)]], map[],
              map[id := Stream(SOURCE, map l | l in layers :: LocalTrack(0), map[u := q])])
  }

  lemma SmallIsSound(u: Id, id: Id, layers: set<Layer>, q: Layer)
    requires q in layers
    ensures var s := Small(u, id, layers, q);
            && Mesh(s) && Present(s, u) && OnRecord(s, u, id) == q
            && id in s.streams && s.streams[id].layers.Keys == layers
            && u in s.streams[id].recorded
  {
    var s := Small(u, id, layers, q);
    assert s.streams[id].layers.Keys == layers;
    assert q in s.streams[id].layers;
    assert LayersExist(s.streams[id]);
  }

  /** A report of a perfect network. */
  function Perfect(o: Adaptive.Options, u: Id, id: Id, at: int): Adaptive.Sample {
    Monotone.CLEAN_SAMPLE.(userID := u.name, streamID := id.name, at := at,
                           availableKbps := o.criticalKbps + o.mediumMinKbps + o.highMinKbps)
  }

  function PerfectHealth(o: Adaptive.Options): Adaptive.Health {
    Adaptive.ZERO_HEALTH.(bandwidth := (o.criticalKbps + o.mediumMinKbps + o.highMinKbps) as real)
  }

  /** The controller has only ever seen a perfect network. */
  predicate SeenPerfect(o: Adaptive.Options, st: Adaptive.AdaptiveState) {
    st.initialized && st.health == PerfectHealth(o)
  }

  lemma EwmaOfSame(x: real, alpha: real)
    ensures Adaptive.Ewma(x, x, alpha) == x
  {}

  lemma StaysPerfect(o: Adaptive.Options, st: Adaptive.AdaptiveState, u: Id, id: Id, at: int)
    requires Adaptive.Sane(o) && (st.initialized ==> SeenPerfect(o, st))
    ensures Adaptive.UpdateState(o.alpha, st, Perfect(o, u, id, at)) ==
            st.(initialized := true, health := PerfectHealth(o))
  {
    EwmaOfSame(PerfectHealth(o).bandwidth, o.alpha);
    EwmaOfSame(0.0, o.alpha);
  }

  lemma PerfectIsHigh(o: Adaptive.Options, u: Id, id: Id, at: int)
    requires Adaptive.Sane(o)
    ensures var raw := Adaptive.RawDecision(o, PerfectHealth(o), Perfect(o, u, id, at));
            raw.quality == High && !raw.audioPriority && !raw.suspend
  {
    Monotone.RoundWhole(o.criticalKbps + o.mediumMinKbps + o.highMinKbps);
    assert Adaptive.BandwidthTier(o, PerfectHealth(o).bandwidth) == 3;
    assert Adaptive.TransportHealth(PerfectHealth(o)) == Adaptive.Clean;
  }

  /** On a perfect network the controller wants the highest layer there is, and waits for the good
      samples and the interval before moving up to it. */
  lemma PerfectDecision(o: Adaptive.Options, st0: Option<Adaptive.AdaptiveState>, u: Id, id: Id, at: int,
                        found: Layer, available: seq<Layer>)
    requires Adaptive.Sane(o) && (st0.Some? ==> SeenPerfect(o, st0.value))
    requires Rank(found) <= Rank(Adaptive.ClampQuality(High, available))
    ensures var (st, d) := Adaptive.DecideOn(o, st0, Perfect(o, u, id, at), found, available);
            var wanted := Adaptive.ClampQuality(High, available);
            var before := Adaptive.StateFor(st0, found, at);
            var good := if wanted == found then 0 else before.consecutiveGood + 1;
            var waits := wanted != found && (good < o.goodSamples || at - before.lastSwitchAt < o.minUpswitch);
            && SeenPerfect(o, st) && st.consecutiveGood == good && !d.suspended
            && d.target == (if waits then found else wanted)
            && st.lastSwitchAt == (if d.target == found then before.lastSwitchAt else at)
  {
    StaysPerfect(o, Adaptive.StateFor(st0, found, at), u, id, at);
    PerfectIsHigh(o, u, id, at);
  }

  function PerfectVisit(o: Adaptive.Options, u: Id, id: Id, layers: set<Layer>, q: Layer, at: int,
                 policy: Option<QualityPolicy>): Visit
  {
    Visit(Small(u, id, layers, q), Perfect(o, u, id, at), policy)
  }

  /** What a policy makes of a target. */
  function Under(policy: Option<QualityPolicy>, target: Layer): Layer {
    if Forcing(policy) then Low
    else if !Neutral(policy) && target == High then Medium
    else target
  }

  lemma UnderPolicy(d: Adaptive.Decision, policy: Option<QualityPolicy>)
    ensures ApplyPolicy(d, policy).target == Under(policy, d.target)
  {
    if policy.Some? {
      match policy.value.mode
      case ConserveBandwidth =>
      case ForceLow =>
      case AudioOnly =>
      case _ =>
    }
  }

  /** A visit of a perfect network leaves the subscriber on the best layer for what the policy makes of
      the target. */
  lemma PerfectLanding(o: Adaptive.Options, st: Option<Adaptive.AdaptiveState>, u: Id, id: Id,
                       layers: set<Layer>, q: Layer, at: int, policy: Option<QualityPolicy>)
    requires u.name != "" && id.name != "" && q in layers
    ensures var v := PerfectVisit(o, u, id, layers, q, at, policy);
            && Visitable(v, u, id) && OnRecord(v.room, u, id) == q && Available(v.room, id) == LayerSeq(layers)
            && Landed(o, st, v, u, id) == BestAvailable(Under(policy, DecisionAt(o, st, v, u, id).target), layers)
  {
    var v := PerfectVisit(o, u, id, layers, q, at, policy);
    SmallIsSound(u, id, layers, q);
    Landing(o, st, v, u, id);
    UnderPolicy(DecisionAt(o, st, v, u, id), policy);
  }

  lemma WantsBest(layers: set<Layer>, q: Layer)
    requires q in layers
    ensures Adaptive.ClampQuality(High, LayerSeq(layers)) == BestAvailable(High, layers)
    ensures Rank(q) <= Rank(BestAvailable(High, layers))
  {
    assert q in Adaptive.LayerSet(LayerSeq(layers));
  }

  // ---- Runs that can be reached ----------------------------------------------------------------

  /** Some run under the given policies, over by `at`, has the trace `t`. */
  ghost predicate CanReach(o: Adaptive.Options, policies: set<Option<QualityPolicy>>, u: Id, id: Id, at: int,
                           t: Flapping.Trace)
  {
    exists visits :: IsRun(visits, policies, u, id, at) && Trace(o, High, visits, u, id) == t
  }

  ghost predicate IsRun(visits: seq<Visit>, policies: set<Option<QualityPolicy>>, u: Id, id: Id, at: int) {
    Visits(visits, u, id) && UsesOnly(visits, policies) && OverBy(visits, at)
  }

  ghost predicate OverBy(visits: seq<Visit>, at: int) {
    forall i :: 0 <= i < |visits| && visits[i].Visit? ==> visits[i].sample.at <= at
  }

  lemma ReachStart(o: Adaptive.Options, policies: set<Option<QualityPolicy>>, u: Id, id: Id)
    ensures CanReach(o, policies, u, id, 0, Flapping.Run(o, High, []))
  {
    assert IsRun([], policies, u, id, 0) && Trace(o, High, [], u, id) == Flapping.Run(o, High, []);
  }

  lemma AllVisitableGrows(visits: seq<Visit>, u: Id, id: Id, v: Visit)
    requires AllVisitable(visits, u, id) && Visitable(v, u, id)
    ensures AllVisitable(visits + [v], u, id)
  {}

  lemma TimesGrow(visits: seq<Visit>, policies: set<Option<QualityPolicy>>, at: int, v: Visit)
    requires InTimeOrder(visits) && UsesOnly(visits, policies) && OverBy(visits, at)
    requires v.Visit? && v.policy in policies && at <= v.sample.at
    ensures InTimeOrder(visits + [v]) && UsesOnly(visits + [v], policies) && OverBy(visits + [v], v.sample.at)
  {}

  lemma ReachOne(o: Adaptive.Options, policies: set<Option<QualityPolicy>>, u: Id, id: Id, at: int,
                 t: Flapping.Trace, v: Visit)
    requires CanReach(o, policies, u, id, at, t)
    requires v.Visit? && Visitable(v, u, id) && v.policy in policies && at <= v.sample.at
    ensures CanReach(o, policies, u, id, v.sample.at, Flapping.Advance(o, t, TickOf(o, t.st, v, u, id)))
  {
    var visits :| IsRun(visits, policies, u, id, at) && Trace(o, High, visits, u, id) == t;
    assert (visits + [v])[..|visits|] == visits;
    TraceGrows(o, High, visits + [v], u, id);
    AllVisitableGrows(visits, u, id, v);
    TimesGrow(visits, policies, at, v);
    assert IsRun(visits + [v], policies, u, id, v.sample.at);
  }

  /** A report of a perfect network takes `t` to `t'`: it finds the subscriber on `q`, and the controller's
      target goes through the policy. */
  predicate IsPerfectStep(o: Adaptive.Options, t: Flapping.Trace, layers: set<Layer>, q: Layer, at: int,
                          policy: Option<QualityPolicy>, t': Flapping.Trace)
  {
    var best := BestAvailable(High, layers);
    var before := Adaptive.StateFor(t.st, q, at);
    var good := if best == q then 0 else before.consecutiveGood + 1;
    var waits := best != q && (good < o.goodSamples || at - before.lastSwitchAt < o.minUpswitch);
    var target := if waits then q else best;
    var next := BestAvailable(Under(policy, target), layers);
    && t'.st.Some? && SeenPerfect(o, t'.st.value) && t'.st.value.consecutiveGood == good
    && t'.st.value.lastSwitchAt == (if target == q then before.lastSwitchAt else at)
    && t'.cur == next && t'.moved == (if q == t.cur then t.moved else t.moved + 1)
    && t'.log == (if next == q then t.log else t.log + [Flapping.Switch(at, q, next)])
    && t'.first == (if t.first == None then Some(at) else t.first)
  }

  lemma PerfectAdvance(o: Adaptive.Options, t: Flapping.Trace, u: Id, id: Id, layers: set<Layer>, q: Layer, at: int,
                       policy: Option<QualityPolicy>, tick: Flapping.Tick)
    requires Adaptive.Sane(o) && (t.st.Some? ==> SeenPerfect(o, t.st.value)) && q in layers
    requires tick.Report? && tick.found == q && tick.sample == Perfect(o, u, id, at) && tick.available == LayerSeq(layers)
    requires tick.next == BestAvailable(Under(policy, Flapping.TargetOf(o, t, tick)), layers)
    ensures IsPerfectStep(o, t, layers, q, at, policy, Flapping.Advance(o, t, tick))
  {
    WantsBest(layers, q);
    PerfectDecision(o, t.st, u, id, at, q, LayerSeq(layers));
  }

  lemma PerfectStep(o: Adaptive.Options, policies: set<Option<QualityPolicy>>, u: Id, id: Id, now: int, t: Flapping.Trace,
                    layers: set<Layer>, q: Layer, at: int, policy: Option<QualityPolicy>) returns (t': Flapping.Trace)
    requires Adaptive.Sane(o) && (t.st.Some? ==> SeenPerfect(o, t.st.value))
    requires u.name != "" && id.name != "" && q in layers
    requires CanReach(o, policies, u, id, now, t) && now <= at && policy in policies
    ensures CanReach(o, policies, u, id, at, t') && IsPerfectStep(o, t, layers, q, at, policy, t')
  {
    var v := PerfectVisit(o, u, id, layers, q, at, policy);
    PerfectLanding(o, t.st, u, id, layers, q, at, policy);
    PerfectAdvance(o, t, u, id, layers, q, at, policy, TickOf(o, t.st, v, u, id));
    ReachOne(o, policies, u, id, now, t, v);
    t' := Flapping.Advance(o, t, TickOf(o, t.st, v, u, id));
  }

  /** Lowered just now, unknown to the controller, which has counted `k` good samples. */
  predicate Lowered(o: Adaptive.Options, t: Flapping.Trace, k: nat) {
    && t.st.Some? && SeenPerfect(o, t.st.value) && t.st.value.consecutiveGood == k && t.st.value.lastSwitchAt == 0
    && t.first == Some(0) && t.log == [Flapping.Switch(o.minUpswitch, High, Low)] && t.cur == Low && t.moved == 0
  }

  /** A subscriber on the only layer, which the controller sees at time 0. */
  lemma ReachFirst(o: Adaptive.Options, policies: set<Option<QualityPolicy>>, u: Id, id: Id, p: Option<QualityPolicy>)
    returns (t: Flapping.Trace)
    requires Adaptive.Sane(o) && u.name != "" && id.name != "" && p in policies
    ensures CanReach(o, policies, u, id, 0, t)
    ensures t.st.Some? && SeenPerfect(o, t.st.value) && t.st.value.lastSwitchAt == 0
    ensures t.first == Some(0) && t.log == [] && t.cur == High && t.moved == 0
  {
    var start := Flapping.Run(o, High, []);
    ReachStart(o, policies, u, id);
    assert forall want :: BestAvailable(want, {High}) == High;
    t := PerfectStep(o, policies, u, id, 0, start, {High}, High, 0, p);
  }

  lemma LandsLow(lower: Option<QualityPolicy>)
    requires !Neutral(lower)
    ensures BestAvailable(High, {Low, High}) == High
    ensures BestAvailable(Under(lower, High), {Low, High}) == Low
  {
    assert Under(lower, High) == Low || Under(lower, High) == Medium;
  }

  /** The interval later there is a lower layer, and the subscriber is lowered to it by a policy that does so. */
  lemma ReachLowered(o: Adaptive.Options, policies: set<Option<QualityPolicy>>, u: Id, id: Id, lower: Option<QualityPolicy>)
    returns (t: Flapping.Trace)
    requires Adaptive.Sane(o) && u.name != "" && id.name != "" && lower in policies && !Neutral(lower)
    ensures CanReach(o, policies, u, id, o.minUpswitch, t) && Lowered(o, t, 0)
  {
    t := ReachFirst(o, policies, u, id, lower);
    LandsLow(lower);
    t := PerfectStep(o, policies, u, id, 0, t, {Low, High}, High, o.minUpswitch, lower);
  }

  lemma Waits(o: Adaptive.Options, t: Flapping.Trace, lift: Option<QualityPolicy>, k: nat, t': Flapping.Trace)
    requires Lowered(o, t, k) && !Forcing(lift) && k + 1 < o.goodSamples
    requires IsPerfectStep(o, t, {Low, Medium, High}, Low, o.minUpswitch, lift, t')
    ensures Lowered(o, t', k + 1)
  {
    assert BestAvailable(High, {Low, Medium, High}) == High;
    assert BestAvailable(Under(lift, Low), {Low, Medium, High}) == Low;
  }

  lemma Rises(o: Adaptive.Options, t: Flapping.Trace, lift: Option<QualityPolicy>, k: nat, t': Flapping.Trace)
    requires Lowered(o, t, k) && !Forcing(lift) && k + 1 >= o.goodSamples
    requires IsPerfectStep(o, t, {Low, Medium, High}, Low, o.minUpswitch, lift, t')
    ensures t'.moved == 0 && (o.minUpswitch > 0 ==> !Flapping.Spaced(o, t'))
  {
    assert BestAvailable(High, {Low, Medium, High}) == High;
    assert Under(lift, High) == Medium || Under(lift, High) == High;
    assert BestAvailable(Under(lift, High), {Low, Medium, High}) == Under(lift, High);
    assert t'.log[..1] == [t'.log[0]];
  }

  lemma ReachOneMore(o: Adaptive.Options, policies: set<Option<QualityPolicy>>, u: Id, id: Id, lift: Option<QualityPolicy>,
                     t: Flapping.Trace, k: nat) returns (t': Flapping.Trace)
    requires Adaptive.Sane(o) && u.name != "" && id.name != "" && lift in policies && !Forcing(lift)
    requires CanReach(o, policies, u, id, o.minUpswitch, t) && Lowered(o, t, k)
    ensures CanReach(o, policies, u, id, o.minUpswitch, t')
    ensures if k + 1 < o.goodSamples then Lowered(o, t', k + 1) else t'.moved == 0 && !Flapping.Spaced(o, t')
  {
    t' := PerfectStep(o, policies, u, id, o.minUpswitch, t, {Low, Medium, High}, Low, o.minUpswitch, lift);
    if k + 1 < o.goodSamples {
      Waits(o, t, lift, k, t');
    } else {
      Rises(o, t, lift, k, t');
    }
  }

  /** `k` more reports at that moment, with all three layers and a policy that lets it rise. */
  lemma {:induction false} ReachCounted(o: Adaptive.Options, policies: set<Option<QualityPolicy>>, u: Id, id: Id,
                                        lower: Option<QualityPolicy>, lift: Option<QualityPolicy>, k: nat)
    returns (t: Flapping.Trace)
    requires Adaptive.Sane(o) && u.name != "" && id.name != "" && lower in policies && lift in policies
    requires !Neutral(lower) && !Forcing(lift) && k < o.goodSamples
    ensures CanReach(o, policies, u, id, o.minUpswitch, t) && Lowered(o, t, k)
  {
    if k == 0 {
      t := ReachLowered(o, policies, u, id, lower);
    } else {
      var before := ReachCounted(o, policies, u, id, lower, lift, k - 1);
      t := ReachOneMore(o, policies, u, id, lift, before, k - 1);
    }
  }

  /** A policy that lowers and one that lets rise break the spacing: two moves, down and up, at the same
      moment, and nobody else moves the subscriber. */
  lemma LiftedRisesAtOnce(o: Adaptive.Options, policies: set<Option<QualityPolicy>>, u: Id, id: Id,
                          lower: Option<QualityPolicy>, lift: Option<QualityPolicy>) returns (visits: seq<Visit>)
    requires Adaptive.Sane(o) && u.name != "" && id.name != "" && lower in policies && lift in policies
    requires !Neutral(lower) && !Forcing(lift)
    ensures Visits(visits, u, id) && UsesOnly(visits, policies)
    ensures Trace(o, High, visits, u, id).moved == 0 && !Flapping.Spaced(o, Trace(o, High, visits, u, id))
  {
    var before := ReachCounted(o, policies, u, id, lower, lift, o.goodSamples - 1);
    var t := ReachOneMore(o, policies, u, id, lift, before, o.goodSamples - 1);
    visits :| IsRun(visits, policies, u, id, o.minUpswitch) && Trace(o, High, visits, u, id) == t;
  }

  // ---- The exact condition --------------------------------------------------------------------

  /** Every move up waits for the interval since the last move, over every run under the given policies, if
      and only if none of them lowers a target or all of them force every target low; and the same for
      the runs in which nobody moves the subscriber between reports. */
  lemma SpacedExactly(o: Adaptive.Options, policies: set<Option<QualityPolicy>>, u: Id, id: Id)
    requires Adaptive.Sane(o) && u.name != "" && id.name != ""
    ensures (forall start, visits :: Visits(visits, u, id) && UsesOnly(visits, policies) ==>
               Flapping.Spaced(o, Trace(o, start, visits, u, id)))
            <==> (forall p :: p in policies ==> Neutral(p)) || (forall p :: p in policies ==> Forcing(p))
    ensures (forall start, visits :: Visits(visits, u, id) && UsesOnly(visits, policies)
                                     && Trace(o, start, visits, u, id).moved == 0 ==>
               Flapping.Spaced(o, Trace(o, start, visits, u, id)))
            <==> (forall p :: p in policies ==> Neutral(p)) || (forall p :: p in policies ==> Forcing(p))
  {
    if (forall p :: p in policies ==> Neutral(p)) || (forall p :: p in policies ==> Forcing(p)) {
      forall start, visits | Visits(visits, u, id) && UsesOnly(visits, policies)
        ensures Flapping.Spaced(o, Trace(o, start, visits, u, id))
      {
        if forall p :: p in policies ==> Neutral(p) {
          RoomFlapsBounded(o, start, visits, u, id);
        } else {
          ForcedNeverRises(o, start, visits, u, id);
        }
      }
    } else {
      var lower :| lower in policies && !Neutral(lower);
      var lift :| lift in policies && !Forcing(lift);
      var visits := LiftedRisesAtOnce(o, policies, u, id, lower, lift);
    }
  }
}
