/** Quality reports as the call service accepts them, and what that buys the controller behind it
    (internal/service/call/media.go, internal/media/sfu/adaptive.go). */
module QualityReports {
  import opened Layers
  import opened Wrappers
  import opened Adaptive
  import opened Smoothing

  datatype Verdict = Accepted | StreamMissing | BitrateNegative | RttNegative
                   | PercentOutOfRange | TimingNegative | CounterNegative

  predicate Percent(x: real) {
    0.0 <= x <= 100.0
  }

  /** Everything a sound report promises. */
  ghost predicate Sound(s: Sample) {
    && s.streamID != ""
    && s.availableKbps >= 0 && s.observedKbps >= 0 && s.rtt >= 0
    && Percent(s.loss) && Percent(s.audioLoss) && Percent(s.dropped)
    && s.jitter >= 0.0 && s.audioJitter >= 0.0 && s.fps >= 0.0 && s.decode >= 0.0
    && s.freezes >= 0 && s.nacks >= 0 && s.plis >= 0
  }

  /** validateQualityReport: a report is accepted exactly when it is sound, and a refusal names
      something that is wrong with it. */
  method ValidateQualityReport(s: Sample) returns (v: Verdict)
    ensures v == Accepted <==> Sound(s)
    ensures v == Accepted ==> s.loss <= 100.0 && s.audioLoss <= 100.0 && s.dropped <= 100.0
    ensures v == StreamMissing <==> s.streamID == ""
    ensures v == BitrateNegative ==> s.availableKbps < 0 || s.observedKbps < 0
    ensures v == RttNegative ==> s.rtt < 0
    ensures v == PercentOutOfRange ==> !Percent(s.loss) || !Percent(s.audioLoss) || !Percent(s.dropped)
    ensures v == TimingNegative ==> s.jitter < 0.0 || s.audioJitter < 0.0 || s.fps < 0.0 || s.decode < 0.0
    ensures v == CounterNegative ==> s.freezes < 0 || s.nacks < 0 || s.plis < 0
  {
    if s.streamID == "" {
      return StreamMissing;
    }
    if s.availableKbps < 0 || s.observedKbps < 0 {
      return BitrateNegative;
    }
    if s.rtt < 0 {
      return RttNegative;
    }
    var percents := [s.loss, s.audioLoss, s.dropped];
    for i := 0 to |percents|
      invariant forall j :: 0 <= j < i ==> Percent(percents[j])
    {
      if percents[i] < 0.0 || percents[i] > 100.0 {
        assert !Percent(percents[i]);
        return PercentOutOfRange;
      }
    }
    assert Percent(percents[0]) && Percent(percents[1]) && Percent(percents[2]);
    if s.jitter < 0.0 || s.audioJitter < 0.0 || s.fps < 0.0 || s.decode < 0.0 {
      return TimingNegative;
    }
    if s.freezes < 0 || s.nacks < 0 || s.plis < 0 {
      return CounterNegative;
    }
    v := Accepted;
  }

  // ---- What a run of accepted reports keeps --------------------------------------------

  /** The range a metric may be reported in. */
  predicate InRange(m: Metric, x: real) {
    if m.Loss? || m.AudioLoss? || m.Dropped? then Percent(x) else x >= 0.0
  }

  ghost predicate Healthy(st: AdaptiveState) {
    st.initialized ==> forall m :: InRange(m, Reading(st.health, m))
  }

  lemma FoldedInRange(initialized: bool, s: Sample, m: Metric)
    requires Sound(s)
    ensures Folded(initialized, s, m).Some? ==> InRange(m, Folded(initialized, s, m).value)
  {}

  lemma UpdateKeepsHealthy(alpha: real, st: AdaptiveState, s: Sample)
    requires 0.0 < alpha <= 1.0 && Healthy(st) && Sound(s)
    ensures Healthy(UpdateState(alpha, st, s)) && UpdateState(alpha, st, s).initialized
  {
    forall m ensures InRange(m, Reading(UpdateState(alpha, st, s).health, m)) {
      UpdateReading(alpha, st, s, m);
      FoldedInRange(st.initialized, s, m);
      var folded := Folded(st.initialized, s, m);
      if folded.Some? && st.initialized {
        var a, b := Reading(st.health, m), folded.value;
        assert InRange(m, a);
        EwmaWithin(a, b, alpha, if a < b then a else b, if a < b then b else a);
      }
    }
    UpdateReading(alpha, st, s, Loss);
  }

  lemma TruncNotNegative(x: real)
    requires x >= 0.0
    ensures Trunc(x) >= 0 && Round(x) >= 0
  {}

  /** Metrics and counters in range cannot raise the score above 100. */
  lemma ScoreWithinHundred(h: Health, s: Sample)
    requires forall m :: InRange(m, Reading(h, m))
    requires s.freezes >= 0 && s.nacks >= 0 && s.plis >= 0
    ensures 0 <= Score(h, s) <= 100
    ensures Round(h.bandwidth) >= 0
  {
    assert InRange(Loss, Reading(h, Loss)) && InRange(Dropped, Reading(h, Dropped));
    assert InRange(Bandwidth, Reading(h, Bandwidth));
    TruncNotNegative(h.loss * 4.0);
    TruncNotNegative(AtLeastZero(h.rtt - 120.0) / 8.0);
    TruncNotNegative(AtLeastZero(h.jitter - 20.0) / 2.0);
    TruncNotNegative(h.dropped * 2.0);
    TruncNotNegative(AtLeastZero(h.decode - 24.0) * 2.0);
    TruncNotNegative(h.bandwidth);
  }

  datatype Report = Report(sample: Sample, current: Layer, available: seq<Layer>)

  /** The state kept for one subscriber's stream after a run of reports. */
  function After(o: Options, reports: seq<Report>): Option<AdaptiveState> {
    if reports == [] then None
    else
      var r := reports[|reports| - 1];
      Some(DecideOn(o, After(o, reports[..|reports| - 1]), r.sample, r.current, r.available).0)
  }

  lemma DecideKeepsHealthy(o: Options, st0: Option<AdaptiveState>, r: Report)
    requires Sane(o) && Sound(r.sample) && (st0.Some? ==> Healthy(st0.value))
    ensures var (st, d) := DecideOn(o, st0, r.sample, r.current, r.available);
            && Healthy(st) && st.initialized
            && 0 <= d.score <= 100 && d.estimatedKbps >= 0
  {
    var st := UpdateState(o.alpha, StateFor(st0, r.current, r.sample.at), r.sample);
    UpdateKeepsHealthy(o.alpha, StateFor(st0, r.current, r.sample.at), r.sample);
    var raw := RawDecision(o, st.health, r.sample);
    ScoreWithinHundred(st.health, r.sample);
    SettleKeepsHealth(o, st, raw, r.sample, Wanted(raw, r.sample, r.available), r.current);
  }

  lemma SettleKeepsHealth(o: Options, st: AdaptiveState, raw: Raw, s: Sample, wanted: Layer, current: Layer)
    ensures var (st', d) := Settle(o, st, raw, s, wanted, current);
            && st'.health == st.health && st'.initialized == st.initialized
            && d.score == raw.score && d.estimatedKbps == Round(st.health.bandwidth)
  {}

  /** Over every run of accepted reports, whatever the layers and timers do: every smoothed metric
      stays in the range a report may have, and every decision's score is between 0 and 100. */
  lemma {:induction false} AcceptedRunsStayInRange(o: Options, reports: seq<Report>)
    requires Sane(o)
    requires forall i :: 0 <= i < |reports| ==> Sound(reports[i].sample)
    ensures reports != [] ==> After(o, reports).Some? && After(o, reports).value.initialized
    ensures After(o, reports).Some? ==> Healthy(After(o, reports).value)
    ensures reports != [] ==>
              var r := reports[|reports| - 1];
              var d := DecideOn(o, After(o, reports[..|reports| - 1]), r.sample, r.current, r.available).1;
              0 <= d.score <= 100 && d.estimatedKbps >= 0
  {
    if reports != [] {
      var n := |reports| - 1;
      AcceptedRunsStayInRange(o, reports[..n]);
      DecideKeepsHealthy(o, After(o, reports[..n]), reports[n]);
    }
  }

  /** The controller alone does not promise that: a report with a negative loss, which the service
      refuses, would be scored 140. */
  lemma RefusedReportWouldScoreAbove(s: Sample)
    requires s == Sample("u", "s", 0, 0, -10.0, 0, 0.0, 0.0, 0.0, 0.0, 0.0, 0.0, 0, 0, 0, Unspecified, false, false, 0)
    ensures !Sound(s)
    ensures Score(ZERO_HEALTH.(loss := s.loss), s) == 140
  {}
}
