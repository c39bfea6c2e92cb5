/** When the controller moves and when it stays put, told from the reports it has been given; and what
    it takes a report to mean. */
module Hysteresis {
  import opened Layers
  import opened Wrappers
  import opened Adaptive
  import opened QualityReports

  // ---- What a report asks for --------------------------------------------------------------

  /** The bandwidth is not known, or reaches every one of the thresholds up to the layer's. */
  predicate BandwidthFor(o: Options, kbps: int, q: Layer) {
    kbps <= 0 || (kbps >= o.criticalKbps && kbps >= o.mediumMinKbps && (q == High ==> kbps >= o.highMinKbps))
  }

  predicate TransportClean(h: Health) {
    h.loss < 2.0 && h.rtt < 220.0 && h.jitter < 40.0
  }

  predicate TransportFair(h: Health) {
    h.loss < 5.0 && h.rtt < 400.0 && h.jitter < 70.0
  }

  predicate TransportBroken(h: Health) {
    h.loss >= 12.0 || h.rtt >= 700.0 || h.jitter >= 120.0
  }

  predicate DecodeEasy(h: Health, s: Sample) {
    h.dropped < 12.0 && h.decode < 45.0 && s.freezes < 2
  }

  predicate AudioFine(h: Health) {
    h.audioLoss < 4.0 && h.audioJitter < 55.0
  }

  /** Which layer the smoothed metrics support: High when everything is in order; at least Medium when audio
      is, the transport is fair and the bandwidth suffices, with a layer to spare if decoding is hard. */
  lemma RawQualityExactly(o: Options, h: Health, s: Sample)
    ensures var raw := RawDecision(o, h, s);
            var kbps := Round(h.bandwidth);
            && (raw.quality == High <==>
                BandwidthFor(o, kbps, High) && TransportClean(h) && DecodeEasy(h, s) && AudioFine(h))
            && (raw.quality != Low <==>
                && BandwidthFor(o, kbps, Medium) && TransportFair(h) && AudioFine(h)
                && (DecodeEasy(h, s) || (BandwidthFor(o, kbps, High) && TransportClean(h))))
  {}

  lemma RawFlagsExactly(o: Options, h: Health, s: Sample)
    ensures var raw := RawDecision(o, h, s);
            var starved := 0 < Round(h.bandwidth) < o.criticalKbps;
            && (raw.audioPriority <==> !AudioFine(h))
            && (raw.suspend <==> starved || h.audioLoss >= 10.0 || h.audioJitter >= 120.0)
            && (raw.grade == Critical <==> starved || TransportBroken(h) || raw.score < 30)
            && (raw.audioPriority || raw.suspend ==> raw.maxFps <= 12 && raw.maxKbps <= o.mediumMinKbps - 1)
  {}

  /** The grade is that of the score, but for what makes it critical. */
  lemma GradeExactly(o: Options, h: Health, s: Sample)
    ensures var raw := RawDecision(o, h, s);
            raw.grade != Critical ==>
              && (raw.grade == Excellent <==> raw.score >= 90)
              && (raw.grade == Good <==> 75 <= raw.score < 90)
              && (raw.grade == Fair <==> 55 <= raw.score < 75)
              && (raw.grade == Poor <==> 30 <= raw.score < 55)
  {}

  /** How the video is to degrade: suspended first, then for the audio's sake, then for a shared screen's, and
      otherwise unless it is High. */
  lemma DegradesExactly(o: Options, st0: Option<AdaptiveState>, s: Sample, current: Layer, available: seq<Layer>)
    ensures var d := DecideOn(o, st0, s, current, available).1;
            && (d.degradeMode == SuspendVideo <==> d.suspended)
            && (d.degradeMode == AudioFirst <==> d.audioPriority && !d.suspended)
            && (d.degradeMode == PreserveResolution <==> s.screenShare && !d.audioPriority && !d.suspended)
            && (d.degradeMode == Maintain <==> d.target == High && !s.screenShare && !d.audioPriority && !d.suspended)
            && d.degradeMode != AwaitingTrackMapping
  {}

  /** Buffers grow as the grade falls; audio first shortens the audio's and lengthens the video's, and a
      suspended video has none. */
  lemma BuffersExactly(o: Options, st0: Option<AdaptiveState>, s: Sample, current: Layer, available: seq<Layer>)
    ensures var d := DecideOn(o, st0, s, current, available).1;
            var poorness := match d.grade case Excellent => 0 case Good => 0 case Fair => 1 case Poor => 2 case Critical => 3;
            && d.audioBufferMs == (if d.audioPriority then 90 else [40, 60, 80, 110][poorness])
            && d.videoBufferMs == (if d.suspended then 0 else if d.audioPriority then 150 else [60, 100, 140, 180][poorness])
            && d.lipSyncMs == (if d.audioPriority then 120 else [80, 80, 100, 120][poorness])
  {}

  /** A decision names its subscriber, stream and time, the layer it found, and the smoothed bandwidth and the
      score behind it. */
  lemma DecisionCarries(o: Options, st0: Option<AdaptiveState>, s: Sample, current: Layer, available: seq<Layer>)
    ensures var (st, d) := DecideOn(o, st0, s, current, available);
            && d.userID == s.userID && d.streamID == s.streamID && d.decidedAt == s.at
            && d.previous == current && (d.changed <==> d.target != current)
            && d.estimatedKbps == Round(st.health.bandwidth) && d.score == Score(st.health, s)
            && (d.changed ==> st.lastQuality == d.target)
  {}

  /** The frame rate goes with the supported layer. */
  lemma FrameRateExactly(o: Options, h: Health, s: Sample)
    ensures var raw := RawDecision(o, h, s);
            raw.maxFps == if raw.audioPriority || raw.suspend then 12
                          else if raw.quality == High then 30 else if raw.quality == Medium then 24 else 15
  {}

  /** The documented limits stand in for those that are not positive, one by one. */
  lemma DefaultsExactly(o: Options)
    ensures var r := WithDefaults(o);
            && r.lowMinKbps == (if o.lowMinKbps > 0 then o.lowMinKbps else 180)
            && r.mediumMinKbps == (if o.mediumMinKbps > 0 then o.mediumMinKbps else 650)
            && r.highMinKbps == (if o.highMinKbps > 0 then o.highMinKbps else 1600)
            && r.criticalKbps == (if o.criticalKbps > 0 then o.criticalKbps else 120)
            && r.minUpswitch == (if o.minUpswitch > 0 then o.minUpswitch else 8000)
            && r.minDownswitch == (if o.minDownswitch > 0 then o.minDownswitch else 1500)
            && r.goodSamples == (if o.goodSamples > 0 then o.goodSamples else 3)
            && r.poorSamples == (if o.poorSamples > 0 then o.poorSamples else 1)
            && r.alpha == (if 0.0 < o.alpha <= 1.0 then o.alpha else 0.35)
  {}

  /** The smoothed metrics that cost points are these whole numbers. */
  predicate Whole(h: Health, loss: nat, rtt: nat, jitter: nat, dropped: nat, decode: nat) {
    && h.loss == loss as real && h.rtt == rtt as real && h.jitter == jitter as real
    && h.dropped == dropped as real && h.decode == decode as real
  }

  /** What each of them costs, and each counter. */
  lemma ScoreOfWholeMetrics(h: Health, loss: nat, rtt: nat, jitter: nat, dropped: nat, decode: nat, s: Sample)
    requires Whole(h, loss, rtt, jitter, dropped, decode) && s.freezes >= 0 && s.plis >= 0 && s.nacks >= 0
    ensures var full := 100 - 4 * loss - Excess(rtt, 120) / 8 - Excess(jitter, 20) / 2 - 2 * dropped - 2 * Excess(decode, 24)
                        - (if s.freezes > 0 then 15 + 4 * s.freezes else 0) - 3 * s.plis
                        - (if s.nacks > 30 then 30 else s.nacks);
            Score(h, s) == if full < 0 then 0 else full
  {
    WholeTransport(h, loss, rtt, jitter, dropped, decode);
    WholeDecode(h, loss, rtt, jitter, dropped, decode);
  }

  lemma WholeTransport(h: Health, loss: nat, rtt: nat, jitter: nat, dropped: nat, decode: nat)
    requires Whole(h, loss, rtt, jitter, dropped, decode)
    ensures TransportPenalty(h) == 4 * loss + Excess(rtt, 120) / 8 + Excess(jitter, 20) / 2
  {
    WholeParts(4 * loss);
    WholeExcess(rtt, 120);
    WholeExcess(jitter, 20);
  }

  lemma WholeDecode(h: Health, loss: nat, rtt: nat, jitter: nat, dropped: nat, decode: nat)
    requires Whole(h, loss, rtt, jitter, dropped, decode)
    ensures DecodePenalty(h) == 2 * dropped + 2 * Excess(decode, 24)
  {
    WholeParts(2 * dropped);
    WholeExcess(decode, 24);
  }

  function Excess(n: nat, limit: nat): nat {
    if n > limit then n - limit else 0
  }

  lemma WholeExcess(n: nat, limit: nat)
    ensures Trunc(AtLeastZero(n as real - limit as real) * 2.0) == 2 * Excess(n, limit)
    ensures Trunc(AtLeastZero(n as real - limit as real) / 2.0) == Excess(n, limit) / 2
    ensures Trunc(AtLeastZero(n as real - limit as real) / 8.0) == Excess(n, limit) / 8
  {
    assert AtLeastZero(n as real - limit as real) == Excess(n, limit) as real;
    WholeParts(Excess(n, limit));
  }

  lemma WholeParts(n: nat)
    ensures Trunc(n as real) == n && Trunc(n as real * 2.0) == 2 * n && Trunc(n as real / 2.0) == n / 2 && Trunc(n as real / 8.0) == n / 8
  {}

  /** The bitrate cap of a layer is the most bandwidth for which the tiers choose that layer; for High it is
      twice what High needs. */
  lemma CapsMatchTiers(o: Options, q: Layer)
    requires Sane(o) && o.criticalKbps < o.mediumMinKbps < o.highMinKbps
    ensures TierLayer(BandwidthTier(o, MaxKbpsFor(q, o) as real)) == q
    ensures q != High ==> Rank(TierLayer(BandwidthTier(o, (MaxKbpsFor(q, o) + 1) as real))) == Rank(q) + 1
    ensures q == High ==> MaxKbpsFor(q, o) == 2 * o.highMinKbps
  {}

  /** What is wanted of the available layers: the lowest when video is to be suspended; otherwise the best
      for the supported layer, capped at Low on legacy devices and at Medium on weak ones. */
  lemma WantedExactly(raw: Raw, s: Sample, available: seq<Layer>)
    requires available != []
    ensures var want := Wanted(raw, s, available);
            if raw.suspend then IsBest(want, Low, LayerSet(available))
            else if s.device == Legacy then want == Low
            else exists best :: IsBest(best, raw.quality, LayerSet(available))
                   && want == if (s.device == LowEnd || s.lowPower) && best == High then Medium else best
  {
    assert available[0] in LayerSet(available);
    assert IsBest(ClampQuality(raw.quality, available), raw.quality, LayerSet(available));
  }

  // ---- Runs of reports ------------------------------------------------------------------------

  function Last(reports: seq<Report>): Report
    requires reports != []
  {
    reports[|reports| - 1]
  }

  /** The decision on the last report. */
  function Decided(o: Options, reports: seq<Report>): Decision
    requires reports != []
  {
    DecideOn(o, After(o, reports[..|reports| - 1]), Last(reports).sample, Last(reports).current, Last(reports).available).1
  }

  /** The layer the last report asks for, by the metrics smoothed up to and including it. */
  function WantedNow(o: Options, reports: seq<Report>): Layer
    requires reports != []
  {
    var r := Last(reports);
    var before := StateFor(After(o, reports[..|reports| - 1]), r.current, r.sample.at);
    Wanted(RawDecision(o, UpdateState(o.alpha, before, r.sample).health, r.sample), r.sample, r.available)
  }

  predicate WantsHigher(o: Options, reports: seq<Report>) {
    reports != [] && Rank(WantedNow(o, reports)) > Rank(Last(reports).current)
  }

  predicate WantsLower(o: Options, reports: seq<Report>) {
    reports != [] && Rank(WantedNow(o, reports)) < Rank(Last(reports).current)
  }

  /** Each of the last `n` reports asked for a layer above the one it found. */
  predicate HigherFor(o: Options, reports: seq<Report>, n: nat) {
    n == 0 || (WantsHigher(o, reports) && HigherFor(o, reports[..|reports| - 1], n - 1))
  }

  predicate LowerFor(o: Options, reports: seq<Report>, n: nat) {
    n == 0 || (WantsLower(o, reports) && LowerFor(o, reports[..|reports| - 1], n - 1))
  }

  /** The time of the last report whose decision was a switch, or else of the first. */
  function LastSwitch(o: Options, reports: seq<Report>): int
    requires reports != []
  {
    if Decided(o, reports).target != Last(reports).current then Last(reports).sample.at
    else if |reports| == 1 then Last(reports).sample.at
    else LastSwitch(o, reports[..|reports| - 1])
  }

  /** How long the last report comes after the switch before it. */
  function SinceSwitch(o: Options, reports: seq<Report>): int
    requires reports != []
  {
    if |reports| == 1 then 0 else Last(reports).sample.at - LastSwitch(o, reports[..|reports| - 1])
  }

  /** The counters count the reports that ask for the same direction in a row, and the clock is that of the
      last switch. */
  lemma {:induction false} StateCounts(o: Options, reports: seq<Report>)
    requires reports != []
    ensures After(o, reports).Some?
    ensures After(o, reports).value.lastSwitchAt == LastSwitch(o, reports)
    ensures forall n: nat :: n <= After(o, reports).value.consecutiveGood <==> HigherFor(o, reports, n)
    ensures forall n: nat :: n <= After(o, reports).value.consecutivePoor <==> LowerFor(o, reports, n)
  {
    var front := reports[..|reports| - 1];
    if front != [] {
      StateCounts(o, front);
    }
    StepCounts(o, After(o, front), Last(reports));
  }

  lemma StepCounts(o: Options, st0: Option<AdaptiveState>, r: Report)
    ensures var (st, d) := DecideOn(o, st0, r.sample, r.current, r.available);
            var before := StateFor(st0, r.current, r.sample.at);
            var want := Wanted(RawDecision(o, UpdateState(o.alpha, before, r.sample).health, r.sample), r.sample, r.available);
            && st.consecutiveGood == (if Rank(want) > Rank(r.current) then before.consecutiveGood + 1 else 0)
            && st.consecutivePoor == (if Rank(want) < Rank(r.current) then before.consecutivePoor + 1 else 0)
            && st.lastSwitchAt == (if d.target != r.current then r.sample.at else before.lastSwitchAt)
  {}

  /** Nothing may wait: the grade is critical, audio or the device comes first, or video is suspended. */
  predicate Urgent(d: Decision, s: Sample) {
    d.grade == Critical || d.audioPriority || d.suspended || s.device == Legacy || s.device == LowEnd || s.lowPower
  }

  /** Over every run of reports: the target is the wanted layer or the one found. It moves up exactly when
      the last GoodSamplesForUpgrade reports all asked for more and the last switch is the interval ago;
      down exactly when it is urgent, or the last PoorSamplesForDowngrade reports all asked for less and
      the last switch is that interval ago. */
  lemma TargetExactly(o: Options, reports: seq<Report>)
    requires Sane(o) && reports != []
    ensures var d := Decided(o, reports);
            var found := Last(reports).current;
            var want := WantedNow(o, reports);
            && (d.target == want || d.target == found) && (d.hold <==> d.target != want)
            && (Rank(want) > Rank(found) ==>
                  (d.target == want <==>
                   HigherFor(o, reports, o.goodSamples) && SinceSwitch(o, reports) >= o.minUpswitch))
            && (Rank(want) < Rank(found) ==>
                  (d.target == want <==>
                   Urgent(d, Last(reports).sample)
                   || (LowerFor(o, reports, o.poorSamples) && SinceSwitch(o, reports) >= o.minDownswitch)))
  {
    var front := reports[..|reports| - 1];
    if front != [] {
      StateCounts(o, front);
    }
    StateCounts(o, reports);
    StepTarget(o, After(o, front), Last(reports));
  }

  lemma StepTarget(o: Options, st0: Option<AdaptiveState>, r: Report)
    ensures var (st, d) := DecideOn(o, st0, r.sample, r.current, r.available);
            var before := StateFor(st0, r.current, r.sample.at);
            var want := Wanted(RawDecision(o, UpdateState(o.alpha, before, r.sample).health, r.sample), r.sample, r.available);
            var since := r.sample.at - before.lastSwitchAt;
            && (d.target == want || d.target == r.current) && (d.hold <==> d.target != want)
            && (Rank(want) > Rank(r.current) ==>
                  (d.target == want <==> st.consecutiveGood >= o.goodSamples && since >= o.minUpswitch))
            && (Rank(want) < Rank(r.current) ==>
                  (d.target == want <==>
                   Urgent(d, r.sample) || (st.consecutivePoor >= o.poorSamples && since >= o.minDownswitch)))
  {}
}
