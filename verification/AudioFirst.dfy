/** Audio is protected first, and the call service's runtime policy only ever tightens a decision
    (internal/media/sfu/adaptive.go, internal/service/call/media.go). */
module AudioFirst {
  import opened Layers
  import opened Wrappers
  import opened Adaptive

  /** No available layer is lower than `q`; with none available, `q` is Low. */
  ghost predicate NoHigherThanLowest(q: Layer, available: seq<Layer>) {
    if available == [] then q == Low
    else forall l :: l in available ==> Rank(q) <= Rank(l)
  }

  lemma ClampLowIsLowest(q: Layer, available: seq<Layer>)
    requires q == Low
    ensures NoHigherThanLowest(ClampQuality(q, available), available)
  {}

  /** Whenever Decide reports audio priority or suspension, the target is no higher than the lowest
      available layer, whatever the smoothed state, counters, device or hysteresis timers are. */
  lemma AudioFirstTarget(o: Options, st0: Option<AdaptiveState>, s: Sample, current: Layer, available: seq<Layer>)
    ensures var d := DecideOn(o, st0, s, current, available).1;
            d.audioPriority || d.suspended ==> NoHigherThanLowest(d.target, available)
  {
    var st := UpdateState(o.alpha, StateFor(st0, current, s.at), s);
    var raw := RawDecision(o, st.health, s);
    assert raw.audioPriority ==> raw.quality == Low;
    if raw.audioPriority || raw.suspend {
      ClampLowIsLowest(Low, available);
      SettleNeverAbove(o, st, raw, s, Wanted(raw, s, available), current);
    }
  }

  lemma SettleNeverAbove(o: Options, st: AdaptiveState, raw: Raw, s: Sample, wanted: Layer, current: Layer)
    ensures var d := Settle(o, st, raw, s, wanted, current).1;
            && d.audioPriority == raw.audioPriority && d.suspended == raw.suspend
            && (raw.audioPriority || raw.suspend ==> Rank(d.target) <= Rank(wanted))
  {}

  // ---- The runtime quality policy -----------------------------------------

  datatype PolicyMode = Auto | ConserveBandwidth | ForceLow | AudioOnly | OtherMode

  datatype QualityPolicy = QualityPolicy(mode: PolicyMode, meetingWideDowngrade: bool)

  /** applyRuntimeQualityPolicy; None is the nil policy. */
  function ApplyPolicy(d: Decision, policy: Option<QualityPolicy>): Decision {
    if policy == None then d
    else if !policy.value.meetingWideDowngrade && policy.value.mode == Auto then d
    else
      var e := match policy.value.mode
        case ConserveBandwidth =>
          d.(target := if d.target == High then Medium else d.target,
             maxFps := if d.maxFps > 20 then 20 else d.maxFps,
             maxKbps := if d.maxKbps > 900 then 900 else d.maxKbps)
        case ForceLow =>
          d.(target := Low, maxFps := 12,
             maxKbps := if d.maxKbps > 250 then 250 else d.maxKbps)
        case AudioOnly =>
          d.(target := Low, suspended := true, maxFps := 0, maxKbps := 0,
             videoBufferMs := 0, degradeMode := SuspendVideo)
        case _ => d;
      e.(changed := e.target != e.previous)
  }

  /** The call service's decision while the server does not know the track yet. */
  function FallbackDecision(s: Sample): Decision {
    var kbps := ReportedKbps(s);
    var (target, grade, maxFps, maxKbps) :=
      if s.loss >= 10.0 || s.rtt >= 700 || s.jitter >= 120.0 then
        (Low, Critical, 12, if kbps <= 0 || kbps > 250 then 250 else kbps)
      else if s.loss >= 4.0 || s.rtt >= 300 || s.jitter >= 60.0 then
        (Low, Poor, 15, if kbps <= 0 || kbps > 400 then 400 else kbps)
      else
        (Medium, Good, 30, if kbps <= 0 then 900 else kbps);
    Decision(s.userID, s.streamID, target, target, grade, false, false, false, false,
             AwaitingTrackMapping, maxKbps, maxFps, 60, 100, 100, maxKbps, 0, s.at)
  }

  /** It keeps the reported bitrate within the target's own bound, goes no higher than Medium, and is Low
      exactly when loss, delay or jitter is high. */
  lemma FallbackExactly(s: Sample)
    ensures var d := FallbackDecision(s);
            var kbps := ReportedKbps(s);
            var strained := s.loss >= 4.0 || s.rtt >= 300 || s.jitter >= 60.0;
            var broken := s.loss >= 10.0 || s.rtt >= 700 || s.jitter >= 120.0;
            && d.target == (if strained then Low else Medium) && d.previous == d.target && !d.changed && !d.suspended
            && d.grade == (if broken then Critical else if strained then Poor else Good)
            && d.maxFps == (if broken then 12 else if strained then 15 else 30)
            && (kbps > 0 ==> d.maxKbps == if broken then MinInt(kbps, 250) else if strained then MinInt(kbps, 400) else kbps)
            && (kbps <= 0 ==> d.maxKbps == if broken then 250 else if strained then 400 else 900)
  {}

  /** The policy raises neither layer nor caps of any decision whose caps are at least the
      policy's own floor, and only of those. */
  lemma PolicyTightensExactly(d: Decision, policy: Option<QualityPolicy>)
    ensures var e := ApplyPolicy(d, policy);
            && Rank(e.target) <= Rank(d.target)
            && (e.maxFps <= d.maxFps && e.maxKbps <= d.maxKbps <==>
                policy == None
                || ((policy.value.mode == ForceLow ==> d.maxFps >= 12) &&
                    (policy.value.mode == AudioOnly ==> d.maxFps >= 0 && d.maxKbps >= 0)))
  {}

  /** Every decision of the controller and every fallback decision meets that floor. */
  lemma DecisionCaps(o: Options, st0: Option<AdaptiveState>, s: Sample, current: Layer, available: seq<Layer>)
    requires Sane(o)
    ensures var d := DecideOn(o, st0, s, current, available).1; d.maxFps >= 12 && d.maxKbps >= 0
    ensures var d := FallbackDecision(s); d.maxFps >= 12 && d.maxKbps >= 0
  {}

  /** Hence the policy never raises layer, frame rate or bitrate of a decision that reaches it,
      and it keeps audio-first targets audio-first. */
  lemma PolicyNeverRaises(o: Options, st0: Option<AdaptiveState>, s: Sample, current: Layer,
                          available: seq<Layer>, policy: Option<QualityPolicy>)
    requires Sane(o)
    ensures var d := DecideOn(o, st0, s, current, available).1;
            var e := ApplyPolicy(d, policy);
            && Rank(e.target) <= Rank(d.target) && e.maxFps <= d.maxFps && e.maxKbps <= d.maxKbps
            && (d.suspended ==> e.suspended)
            && (d.audioPriority || d.suspended ==> NoHigherThanLowest(e.target, available))
    ensures var f := FallbackDecision(s);
            var e := ApplyPolicy(f, policy);
            Rank(e.target) <= Rank(f.target) && e.maxFps <= f.maxFps && e.maxKbps <= f.maxKbps
  {
    var d := DecideOn(o, st0, s, current, available).1;
    DecisionCaps(o, st0, s, current, available);
    PolicyTightensExactly(d, policy);
    PolicyTightensExactly(FallbackDecision(s), policy);
    AudioFirstTarget(o, st0, s, current, available);
  }

  lemma PolicyIdempotent(d: Decision, policy: Option<QualityPolicy>)
    ensures ApplyPolicy(ApplyPolicy(d, policy), policy) == ApplyPolicy(d, policy)
  {
    if policy.Some? {
      match policy.value.mode
      case Auto =>
      case OtherMode =>
      case ConserveBandwidth =>
      case ForceLow =>
      case AudioOnly =>
    }
  }

  /** The most a policy allows: a layer, a frame rate and a bitrate; High and -1 stand for no limit. */
  datatype Allowance = Allowance(layer: Layer, fps: int, kbps: int)

  function AllowanceOf(policy: Option<QualityPolicy>): Allowance {
    if policy == None then Allowance(High, -1, -1)
    else match policy.value.mode
      case ConserveBandwidth => Allowance(Medium, 20, 900)
      case ForceLow => Allowance(Low, 12, 250)
      case AudioOnly => Allowance(Low, 0, 0)
      case _ => Allowance(High, -1, -1)
  }

  function Limited(x: int, limit: int): int {
    if 0 <= limit < x then limit else x
  }

  /** Of a decision with the caps the controller gives, the policy leaves the lesser of what was decided and
      what it allows, in layer, frame rate and bitrate. */
  lemma PolicyIsMeet(d: Decision, policy: Option<QualityPolicy>)
    requires d.maxFps >= 12 && d.maxKbps >= 0
    ensures var e, a := ApplyPolicy(d, policy), AllowanceOf(policy);
            && e.target == (if Rank(d.target) <= Rank(a.layer) then d.target else a.layer)
            && e.maxFps == Limited(d.maxFps, a.fps) && e.maxKbps == Limited(d.maxKbps, a.kbps)
  {
    if policy.Some? {
      match policy.value.mode
      case ConserveBandwidth =>
      case ForceLow =>
      case AudioOnly =>
      case _ =>
    }
  }

  /** Audio only also suspends the video and empties its buffer. */
  lemma PolicySuspendsExactly(d: Decision, policy: Option<QualityPolicy>)
    ensures var e := ApplyPolicy(d, policy);
            if policy.Some? && policy.value.mode == AudioOnly
            then e.suspended && e.videoBufferMs == 0 && e.degradeMode == SuspendVideo
            else e.suspended == d.suspended && e.videoBufferMs == d.videoBufferMs && e.degradeMode == d.degradeMode
  {
    if policy.Some? {
      match policy.value.mode
      case ConserveBandwidth =>
      case ForceLow =>
      case AudioOnly =>
      case _ =>
    }
  }

  /** Nothing else is touched, but that the decision says whether its target is a change. */
  lemma PolicyTouchesNothingElse(d: Decision, policy: Option<QualityPolicy>)
    requires d.changed <==> d.target != d.previous
    ensures var e := ApplyPolicy(d, policy);
            && (e.changed <==> e.target != e.previous)
            && e.userID == d.userID && e.streamID == d.streamID && e.previous == d.previous && e.grade == d.grade
            && e.hold == d.hold && e.audioPriority == d.audioPriority && e.audioBufferMs == d.audioBufferMs
            && e.lipSyncMs == d.lipSyncMs && e.estimatedKbps == d.estimatedKbps && e.score == d.score
            && e.decidedAt == d.decidedAt
  {
    if policy.Some? {
      match policy.value.mode
      case ConserveBandwidth =>
      case ForceLow =>
      case AudioOnly =>
      case _ =>
    }
  }
}
