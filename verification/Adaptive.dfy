/** The adaptive quality controller (internal/media/sfu/adaptive.go).
    Durations and timestamps are integers of one unit; float64 metrics are reals. */
module Adaptive {
  import opened Layers
  import opened Wrappers

  datatype Options = Options(
    lowMinKbps: int, mediumMinKbps: int, highMinKbps: int, criticalKbps: int,
    minUpswitch: int, minDownswitch: int,
    goodSamples: int, poorSamples: int, alpha: real)

  const SECOND := 1000 // durations in milliseconds

  ghost predicate Sane(o: Options) {
    && o.lowMinKbps > 0 && o.mediumMinKbps > 0 && o.highMinKbps > 0 && o.criticalKbps > 0
    && o.minUpswitch > 0 && o.minDownswitch > 0
    && o.goodSamples > 0 && o.poorSamples > 0
    && 0.0 < o.alpha <= 1.0
  }

  function Positive(x: int, fallback: int): int {
    if x <= 0 then fallback else x
  }

  function WithDefaults(o: Options): (r: Options)
    ensures Sane(r)
    ensures Sane(o) ==> r == o
  {
    Options(
      Positive(o.lowMinKbps, 180), Positive(o.mediumMinKbps, 650),
      Positive(o.highMinKbps, 1600), Positive(o.criticalKbps, 120),
      Positive(o.minUpswitch, 8 * SECOND), Positive(o.minDownswitch, 1500),
      Positive(o.goodSamples, 3), Positive(o.poorSamples, 1),
      if o.alpha <= 0.0 || o.alpha > 1.0 then 0.35 else o.alpha)
  }

  datatype DeviceClass = Unspecified | Legacy | LowEnd | MidRange | HighEnd

  datatype Sample = Sample(
    userID: string, streamID: string,
    availableKbps: int, observedKbps: int,
    loss: real, rtt: int, jitter: real,
    audioLoss: real, audioJitter: real,
    fps: real, dropped: real, decode: real,
    freezes: int, nacks: int, plis: int,
    device: DeviceClass, lowPower: bool, screenShare: bool,
    at: int)

  /** The nine smoothed metrics of adaptiveState. */
  datatype Health = Health(
    bandwidth: real, loss: real, rtt: real, jitter: real,
    audioLoss: real, audioJitter: real, fps: real, dropped: real, decode: real)

  datatype AdaptiveState = AdaptiveState(
    initialized: bool, health: Health,
    lastQuality: Layer, lastSwitchAt: int,
    consecutiveGood: nat, consecutivePoor: nat)

  datatype Grade = Excellent | Good | Fair | Poor | Critical

  datatype DegradeMode = SuspendVideo | AudioFirst | PreserveResolution | ReduceResolution | Maintain
                       | AwaitingTrackMapping

  datatype Decision = Decision(
    userID: string, streamID: string,
    previous: Layer, target: Layer, grade: Grade,
    changed: bool, hold: bool, audioPriority: bool, suspended: bool,
    degradeMode: DegradeMode, maxKbps: int, maxFps: int,
    audioBufferMs: int, videoBufferMs: int, lipSyncMs: int,
    estimatedKbps: int, score: int, decidedAt: int)

  const ZERO_HEALTH := Health(0.0, 0.0, 0.0, 0.0, 0.0, 0.0, 0.0, 0.0, 0.0)

  function FreshState(current: Layer, now: int): AdaptiveState {
    AdaptiveState(false, ZERO_HEALTH, current, now, 0, 0)
  }

  // ---- Smoothing -------------------------------------------------------

  function Ewma(prev: real, next: real, alpha: real): real {
    prev * (1.0 - alpha) + next * alpha
  }

  function ReportedKbps(s: Sample): int {
    if s.availableKbps <= 0 then s.observedKbps else s.availableKbps
  }

  function UpdateState(alpha: real, st: AdaptiveState, s: Sample): AdaptiveState {
    var kbps := ReportedKbps(s);
    if !st.initialized then
      st.(initialized := true,
          health := Health(kbps as real, s.loss, s.rtt as real, s.jitter, s.audioLoss,
                           s.audioJitter, s.fps, s.dropped, s.decode))
    else
      var h := st.health;
      st.(health := Health(
            if kbps > 0 then Ewma(h.bandwidth, kbps as real, alpha) else h.bandwidth,
            Ewma(h.loss, s.loss, alpha),
            if s.rtt > 0 then Ewma(h.rtt, s.rtt as real, alpha) else h.rtt,
            Ewma(h.jitter, s.jitter, alpha),
            Ewma(h.audioLoss, s.audioLoss, alpha),
            Ewma(h.audioJitter, s.audioJitter, alpha),
            if s.fps > 0.0 then Ewma(h.fps, s.fps, alpha) else h.fps,
            Ewma(h.dropped, s.dropped, alpha),
            Ewma(h.decode, s.decode, alpha)))
  }

  // ---- Raw decision ----------------------------------------------------

  /** Go's int(x) on a float64: truncation toward zero. */
  function Trunc(x: real): int {
    if x < 0.0 then -((-x).Floor) else x.Floor
  }

  /** Go's int(math.Round(x)): nearest integer, halves away from zero. */
  function Round(x: real): int {
    if x < 0.0 then -((-x + 0.5).Floor) else (x + 0.5).Floor
  }

  function AtLeastZero(x: real): real {
    if x < 0.0 then 0.0 else x
  }

  function MinInt(a: int, b: int): int {
    if a < b then a else b
  }

  function TransportPenalty(h: Health): int {
    Trunc(h.loss * 4.0)
    + Trunc(AtLeastZero(h.rtt - 120.0) / 8.0)
    + Trunc(AtLeastZero(h.jitter - 20.0) / 2.0)
  }

  function DecodePenalty(h: Health): int {
    Trunc(h.dropped * 2.0) + Trunc(AtLeastZero(h.decode - 24.0) * 2.0)
  }

  function CounterPenalty(s: Sample): int {
    (if s.freezes > 0 then 15 + s.freezes * 4 else 0)
    + (if s.plis > 0 then s.plis * 3 else 0)
    + (if s.nacks > 0 then MinInt(s.nacks, 30) else 0)
  }

  function Score(h: Health, s: Sample): int {
    var score := 100 - TransportPenalty(h) - DecodePenalty(h) - CounterPenalty(s);
    if score < 0 then 0 else score
  }

  function GradeFromScore(score: int): Grade {
    if score >= 90 then Excellent
    else if score >= 75 then Good
    else if score >= 55 then Fair
    else if score >= 30 then Poor
    else Critical
  }

  /** Which branch of the bandwidth switch is taken: 0 is below the critical floor,
      3 is the default branch, taken also when no bandwidth is known. */
  function BandwidthTier(o: Options, bandwidth: real): nat {
    var kbps := Round(bandwidth);
    if 0 < kbps < o.criticalKbps then 0
    else if 0 < kbps < o.mediumMinKbps then 1
    else if 0 < kbps < o.highMinKbps then 2
    else 3
  }

  function TierLayer(tier: nat): Layer {
    if tier <= 1 then Low else if tier == 2 then Medium else High
  }

  datatype Transport = Clean | Moderate | Bad | Broken

  function TransportHealth(h: Health): Transport {
    if h.loss >= 12.0 || h.rtt >= 700.0 || h.jitter >= 120.0 then Broken
    else if h.loss >= 5.0 || h.rtt >= 400.0 || h.jitter >= 70.0 then Bad
    else if h.loss >= 2.0 || h.rtt >= 220.0 || h.jitter >= 40.0 then Moderate
    else Clean
  }

  function MaxKbpsFor(q: Layer, o: Options): int {
    match q
    case Low => o.mediumMinKbps - 1
    case Medium => o.highMinKbps - 1
    case High => o.highMinKbps * 2
  }

  function MaxFpsFor(q: Layer): int {
    match q
    case Low => 15
    case Medium => 24
    case High => 30
  }

  datatype Raw = Raw(quality: Layer, grade: Grade, score: int,
                     audioPriority: bool, suspend: bool, maxKbps: int, maxFps: int)

  function RawQuality(tier: nat, h: Health, s: Sample, audioPriority: bool): Layer {
    var q0 := TierLayer(tier);
    var q1 := match TransportHealth(h)
      case Broken => MinLayer(q0, Low)
      case Bad => MinLayer(q0, Low)
      case Moderate => MinLayer(q0, Medium)
      case Clean => q0;
    var q2 := if h.dropped >= 12.0 || h.decode >= 45.0 || s.freezes >= 2 then Downgrade(q1) else q1;
    if audioPriority then MinLayer(q2, Low) else q2
  }

  function RawDecision(o: Options, h: Health, s: Sample): Raw {
    var score := Score(h, s);
    var audioPriority := h.audioLoss >= 4.0 || h.audioJitter >= 55.0;
    var tier := BandwidthTier(o, h.bandwidth);
    var grade := if tier == 0 || TransportHealth(h) == Broken then Critical else GradeFromScore(score);
    var quality := RawQuality(tier, h, s, audioPriority);
    var suspend := tier == 0 || h.audioLoss >= 10.0 || h.audioJitter >= 120.0;
    var maxKbps := MaxKbpsFor(quality, o);
    var maxFps := MaxFpsFor(quality);
    if audioPriority || suspend then
      Raw(quality, grade, score, audioPriority, suspend,
          MinInt(maxKbps, MaxKbpsFor(Low, o)), MinInt(maxFps, 12))
    else
      Raw(quality, grade, score, audioPriority, suspend, maxKbps, maxFps)
  }

  // ---- Target, hysteresis and the decision --------------------------------

  function LayerSet(available: seq<Layer>): set<Layer> {
    set q | q in available
  }

  function ClampQuality(q: Layer, available: seq<Layer>): Layer {
    if available == [] then q else BestAvailable(q, LayerSet(available))
  }

  function CapForDevice(q: Layer, device: DeviceClass, lowPower: bool): Layer {
    if device == Legacy then MinLayer(q, Low)
    else if device == LowEnd || lowPower then MinLayer(q, Medium)
    else q
  }

  predicate DeviceConstrained(device: DeviceClass, lowPower: bool) {
    device == Legacy || device == LowEnd || lowPower
  }

  /** The layer wanted before hysteresis. */
  function Wanted(raw: Raw, s: Sample, available: seq<Layer>): Layer {
    if raw.suspend then ClampQuality(Low, available)
    else CapForDevice(ClampQuality(raw.quality, available), s.device, s.lowPower)
  }

  function Count(st: AdaptiveState, wanted: Layer, current: Layer): AdaptiveState {
    if Rank(wanted) > Rank(current) then
      st.(consecutiveGood := st.consecutiveGood + 1, consecutivePoor := 0)
    else if Rank(wanted) < Rank(current) then
      st.(consecutivePoor := st.consecutivePoor + 1, consecutiveGood := 0)
    else
      st.(consecutiveGood := 0, consecutivePoor := 0)
  }

  /** Whether hysteresis keeps the current layer; `st` already counts this sample. */
  predicate Holds(o: Options, st: AdaptiveState, raw: Raw, s: Sample, wanted: Layer, current: Layer) {
    if Rank(wanted) > Rank(current) then
      st.consecutiveGood < o.goodSamples || s.at - st.lastSwitchAt < o.minUpswitch
    else
      && Rank(wanted) < Rank(current)
      && raw.grade != Critical
      && !(raw.audioPriority || raw.suspend || DeviceConstrained(s.device, s.lowPower))
      && (st.consecutivePoor < o.poorSamples || s.at - st.lastSwitchAt < o.minDownswitch)
  }

  function DegradeModeFor(q: Layer, s: Sample, raw: Raw): DegradeMode {
    if raw.suspend then SuspendVideo
    else if raw.audioPriority then AudioFirst
    else if s.screenShare then PreserveResolution
    else if q == Low || q == Medium then ReduceResolution
    else Maintain
  }

  function AudioBufferMs(grade: Grade, audioPriority: bool): int {
    if audioPriority then 90
    else match grade case Critical => 110 case Poor => 80 case Fair => 60 case _ => 40
  }

  function VideoBufferMs(grade: Grade, audioPriority: bool, suspend: bool): int {
    if suspend then 0
    else if audioPriority then 150
    else match grade case Critical => 180 case Poor => 140 case Fair => 100 case _ => 60
  }

  function LipSyncMs(grade: Grade, audioPriority: bool): int {
    if audioPriority || grade == Critical then 120 else if grade == Poor then 100 else 80
  }

  function StateFor(st: Option<AdaptiveState>, current: Layer, now: int): AdaptiveState {
    match st case None => FreshState(current, now) case Some(v) => v
  }

  /** The decision record for a target; `hold` says whether hysteresis kept the current layer. */
  function Report(s: Sample, current: Layer, target: Layer, hold: bool, raw: Raw, h: Health): Decision {
    Decision(s.userID, s.streamID, current, target, raw.grade, target != current, hold,
             raw.audioPriority, raw.suspend, DegradeModeFor(target, s, raw),
             raw.maxKbps, raw.maxFps,
             AudioBufferMs(raw.grade, raw.audioPriority),
             VideoBufferMs(raw.grade, raw.audioPriority, raw.suspend),
             LipSyncMs(raw.grade, raw.audioPriority),
             Round(h.bandwidth), raw.score, s.at)
  }

  /** Counting, hysteresis and the switch bookkeeping, once the wanted layer is known. */
  function Settle(o: Options, st: AdaptiveState, raw: Raw, s: Sample, wanted: Layer, current: Layer)
    : (AdaptiveState, Decision)
  {
    var counted := Count(st, wanted, current);
    var hold := Holds(o, counted, raw, s, wanted, current);
    var target := if hold then current else wanted;
    (if target != current then counted.(lastSwitchAt := s.at, lastQuality := target) else counted,
     Report(s, current, target, hold, raw, st.health))
  }

  /** One call of Decide on the state kept for the sample's user and stream. */
  function DecideOn(o: Options, st0: Option<AdaptiveState>, s: Sample, current: Layer,
                    available: seq<Layer>): (AdaptiveState, Decision)
  {
    var st := UpdateState(o.alpha, StateFor(st0, current, s.at), s);
    var raw := RawDecision(o, st.health, s);
    Settle(o, st, raw, s, Wanted(raw, s, available), current)
  }

  // ---- The controller ----------------------------------------------------

  function Key(userID: string, streamID: string): string {
    userID + ":" + streamID
  }

  predicate HasPrefix(s: string, p: string) {
    |p| <= |s| && s[..|p|] == p
  }

  predicate HasSuffix(s: string, p: string) {
    |p| <= |s| && s[|s| - |p|..] == p
  }

  function Lookup(m: map<string, AdaptiveState>, k: string): Option<AdaptiveState> {
    if k in m then Some(m[k]) else None
  }

  class AdaptiveController {
    const options: Options
    var state: map<string, AdaptiveState>

    constructor (o: Options)
      ensures Sane(options) && (Sane(o) ==> options == o)
      ensures state == map[]
    {
      options := WithDefaults(o);
      state := map[];
    }

    /** `current` is None when the caller passes the empty layer. */
    method Decide(s: Sample, current: Option<Layer>, available: seq<Layer>) returns (d: Decision)
      modifies this
      ensures var cur := if current == None then Medium else current.value;
              var k := Key(s.userID, s.streamID);
              var (st, dec) := DecideOn(options, Lookup(old(state), k), s, cur, available);
              d == dec && state == old(state)[k := st]
    {
      var cur := if current == None then Medium else current.value;
      var k := Key(s.userID, s.streamID);
      if k !in state {
        state := state[k := FreshState(cur, s.at)];
      }
      var st := UpdateState(options.alpha, state[k], s);
      var raw := RawDecision(options, st.health, s);
      var target := Want(raw, s, available);
      st, d := SettleOn(options, st, raw, s, target, cur);
      state := state[k := st];
    }

    method ForgetUser(userID: string)
      modifies this
      ensures state == map k | k in old(state) && !HasPrefix(k, userID + ":") :: old(state)[k]
    {
      var todo := state.Keys;
      while todo != {}
        invariant todo <= old(state).Keys
        invariant state == map k | k in old(state) && (k in todo || !HasPrefix(k, userID + ":")) :: old(state)[k]
      {
        var k :| k in todo;
        if HasPrefix(k, userID + ":") {
          state := state - {k};
        }
        todo := todo - {k};
      }
    }

    method ForgetStream(streamID: string)
      modifies this
      ensures state == map k | k in old(state) && !HasSuffix(k, ":" + streamID) :: old(state)[k]
    {
      var todo := state.Keys;
      while todo != {}
        invariant todo <= old(state).Keys
        invariant state == map k | k in old(state) && (k in todo || !HasSuffix(k, ":" + streamID)) :: old(state)[k]
      {
        var k :| k in todo;
        if HasSuffix(k, ":" + streamID) {
          state := state - {k};
        }
        todo := todo - {k};
      }
    }
  }

  /** The layer Decide wants before hysteresis. */
  method Want(raw: Raw, s: Sample, available: seq<Layer>) returns (target: Layer)
    ensures target == Wanted(raw, s, available)
  {
    target := Clamp(raw.quality, available);
    target := CapForDevice(target, s.device, s.lowPower);
    if raw.suspend {
      target := Clamp(Low, available);
    }
  }

  /** The second half of Decide, as it updates the state it looked up. */
  method SettleOn(o: Options, st0: AdaptiveState, raw: Raw, s: Sample, wanted: Layer, current: Layer)
    returns (st: AdaptiveState, d: Decision)
    ensures (st, d) == Settle(o, st0, raw, s, wanted, current)
  {
    var target := wanted;
    st := st0;
    if Rank(target) > Rank(current) {
      st := st.(consecutiveGood := st.consecutiveGood + 1, consecutivePoor := 0);
    } else if Rank(target) < Rank(current) {
      st := st.(consecutivePoor := st.consecutivePoor + 1, consecutiveGood := 0);
    } else {
      st := st.(consecutiveGood := 0, consecutivePoor := 0);
    }
    var hold := Holds(o, st, raw, s, target, current);
    if hold {
      target := current;
    }
    if target != current {
      st := st.(lastSwitchAt := s.at, lastQuality := target);
    }
    d := Report(s, current, target, hold, raw, st.health);
  }

  /** clampQuality's two loops: collect the allowed layers, then walk the priority order. */
  method Clamp(q: Layer, available: seq<Layer>) returns (r: Layer)
    ensures r == ClampQuality(q, available)
  {
    if available == [] {
      return q;
    }
    var allowed: set<Layer> := {};
    for i := 0 to |available|
      invariant allowed == LayerSet(available[..i])
    {
      allowed := allowed + {available[i]};
    }
    assert available[..|available|] == available;
    var order := LayerPriority(q);
    for i := 0 to |order|
      invariant forall j :: 0 <= j < i ==> order[j] !in allowed
    {
      if order[i] in allowed {
        return order[i];
      }
    }
    assert available[0] in allowed;
    r := available[0];
  }

  // ---- Which states Forget drops --------------------------------------------

  /** With no ':' in user ids, ForgetUser drops exactly the user's own states. */
  lemma ForgetUserIsExact(userID: string, other: string, streamID: string)
    requires ':' !in userID && ':' !in other
    ensures HasPrefix(Key(other, streamID), userID + ":") <==> other == userID
  {
    var k := Key(other, streamID);
    var p := userID + ":";
    assert k[|other|] == ':' && k[..|other|] == other && p[|userID|] == ':';
    if HasPrefix(k, p) {
      assert forall i :: 0 <= i < |p| ==> k[i] == p[i];
      assert |userID| == |other|;
      assert userID == p[..|userID|] == k[..|userID|];
    }
  }

  /** ForgetStream drops the state of `other` exactly when `other` is the stream itself or ends
      in ":" + the stream: a longer stream id with that suffix loses its hysteresis state too. */
  lemma ForgetStreamIsExact(userID: string, streamID: string, other: string)
    requires ':' !in userID
    ensures HasSuffix(Key(userID, other), ":" + streamID) <==>
            other == streamID || HasSuffix(other, ":" + streamID)
  {
    var k := Key(userID, other);
    var p := ":" + streamID;
    if |p| <= |other| {
      assert k[|k| - |p|..] == other[|other| - |p|..];
    } else if |p| == |other| + 1 {
      assert k[|k| - |p|..] == ":" + other;
      assert p[1..] == streamID && (":" + other)[1..] == other;
    } else if |p| <= |k| {
      assert k[|k| - |p|..][0] == userID[|k| - |p|];
    }
  }
}
