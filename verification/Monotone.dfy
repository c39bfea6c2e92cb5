/** A worse network never yields a better raw decision, exactly as far as that is true. */
module Monotone {
  import opened Layers
  import opened Adaptive

  /** `b` is no healthier than `a`, bandwidth aside. */
  ghost predicate NoHealthier(b: Health, sb: Sample, a: Health, sa: Sample) {
    && a.loss <= b.loss && a.rtt <= b.rtt && a.jitter <= b.jitter
    && a.audioLoss <= b.audioLoss && a.audioJitter <= b.audioJitter
    && a.dropped <= b.dropped && a.decode <= b.decode
    && sa.freezes <= sb.freezes && sa.nacks <= sb.nacks && sa.plis <= sb.plis
  }

  function GradeRank(g: Grade): nat {
    match g
    case Critical => 0
    case Poor => 1
    case Fair => 2
    case Good => 3
    case Excellent => 4
  }

  /** `y` is no better a decision than `x`, in any respect. */
  ghost predicate NoBetter(y: Raw, x: Raw) {
    && Rank(y.quality) <= Rank(x.quality)
    && y.score <= x.score
    && GradeRank(y.grade) <= GradeRank(x.grade)
    && y.maxFps <= x.maxFps
    && (x.audioPriority ==> y.audioPriority)
    && (x.suspend ==> y.suspend)
  }

  lemma TransportPenaltyMonotone(a: Health, b: Health)
    requires a.loss <= b.loss && a.rtt <= b.rtt && a.jitter <= b.jitter
    ensures TransportPenalty(a) <= TransportPenalty(b)
  {}

  lemma DecodePenaltyMonotone(a: Health, b: Health)
    requires a.dropped <= b.dropped && a.decode <= b.decode
    ensures DecodePenalty(a) <= DecodePenalty(b)
  {}

  lemma ScoreMonotone(a: Health, sa: Sample, b: Health, sb: Sample)
    requires NoHealthier(b, sb, a, sa)
    ensures Score(b, sb) <= Score(a, sa)
  {
    TransportPenaltyMonotone(a, b);
    DecodePenaltyMonotone(a, b);
  }

  lemma QualityMonotone(ta: nat, a: Health, sa: Sample, pa: bool, tb: nat, b: Health, sb: Sample, pb: bool)
    requires NoHealthier(b, sb, a, sa)
    requires tb <= ta && (pa ==> pb)
    ensures Rank(RawQuality(tb, b, sb, pb)) <= Rank(RawQuality(ta, a, sa, pa))
  {}

  lemma GradeMonotone(x: int, y: int)
    requires y <= x
    ensures GradeRank(GradeFromScore(y)) <= GradeRank(GradeFromScore(x))
  {}

  lemma GradesMonotone(o: Options, a: Health, sa: Sample, b: Health, sb: Sample)
    requires NoHealthier(b, sb, a, sa)
    requires BandwidthTier(o, b.bandwidth) <= BandwidthTier(o, a.bandwidth)
    ensures RawDecision(o, b, sb).score <= RawDecision(o, a, sa).score
    ensures GradeRank(RawDecision(o, b, sb).grade) <= GradeRank(RawDecision(o, a, sa).grade)
  {
    ScoreMonotone(a, sa, b, sb);
    GradeMonotone(Score(a, sa), Score(b, sb));
  }

  lemma LayersMonotone(o: Options, a: Health, sa: Sample, b: Health, sb: Sample)
    requires NoHealthier(b, sb, a, sa)
    requires BandwidthTier(o, b.bandwidth) <= BandwidthTier(o, a.bandwidth)
    ensures Rank(RawDecision(o, b, sb).quality) <= Rank(RawDecision(o, a, sa).quality)
    ensures RawDecision(o, b, sb).maxFps <= RawDecision(o, a, sa).maxFps
    ensures RawDecision(o, a, sa).audioPriority ==> RawDecision(o, b, sb).audioPriority
    ensures RawDecision(o, a, sa).suspend ==> RawDecision(o, b, sb).suspend
  {
    var x := RawDecision(o, a, sa);
    var y := RawDecision(o, b, sb);
    QualityMonotone(BandwidthTier(o, a.bandwidth), a, sa, x.audioPriority,
                    BandwidthTier(o, b.bandwidth), b, sb, y.audioPriority);
  }

  /** With the bandwidth tiers in order, no metric that got worse makes any part of the raw
      decision better. */
  lemma RawDecisionMonotone(o: Options, a: Health, sa: Sample, b: Health, sb: Sample)
    requires NoHealthier(b, sb, a, sa)
    requires BandwidthTier(o, b.bandwidth) <= BandwidthTier(o, a.bandwidth)
    ensures NoBetter(RawDecision(o, b, sb), RawDecision(o, a, sa))
  {
    GradesMonotone(o, a, sa, b, sb);
    LayersMonotone(o, a, sa, b, sb);
  }

  predicate Known(bandwidth: real) {
    Round(bandwidth) > 0
  }

  /** Less bandwidth means a lower tier exactly when the lower one is known, or the higher one
      is in the top tier (or unknown) as well: a bandwidth that rounds to zero or less counts as
      unlimited. */
  lemma TierFollowsBandwidth(o: Options, less: real, more: real)
    requires less <= more
    ensures BandwidthTier(o, less) <= BandwidthTier(o, more) <==> Known(less) || BandwidthTier(o, more) == 3
  {}

  const CLEAN_SAMPLE := Sample("u", "s", 0, 0, 0.0, 0, 0.0, 0.0, 0.0, 0.0, 0.0, 0.0, 0, 0, 0,
                               Unspecified, false, false, 0)

  /** For given bandwidths, the decision is monotone in everything else if and only if the
      bandwidth tiers are ordered. */
  lemma MonotoneExactly(o: Options, more: real, less: real)
    ensures (forall a: Health, sa: Sample, b: Health, sb: Sample
             {:trigger NoHealthier(b, sb, a, sa)} ::
               a.bandwidth == more && b.bandwidth == less && NoHealthier(b, sb, a, sa) ==>
                 NoBetter(RawDecision(o, b, sb), RawDecision(o, a, sa)))
            <==> BandwidthTier(o, less) <= BandwidthTier(o, more)
  {
    if BandwidthTier(o, less) <= BandwidthTier(o, more) {
      forall a: Health, sa: Sample, b: Health, sb: Sample
        | a.bandwidth == more && b.bandwidth == less && NoHealthier(b, sb, a, sa)
        ensures NoBetter(RawDecision(o, b, sb), RawDecision(o, a, sa))
      {
        RawDecisionMonotone(o, a, sa, b, sb);
      }
    } else {
      var a := ZERO_HEALTH.(bandwidth := more);
      var b := ZERO_HEALTH.(bandwidth := less);
      assert NoHealthier(b, CLEAN_SAMPLE, a, CLEAN_SAMPLE);
      CleanDecision(o, more);
      CleanDecision(o, less);
      assert !NoBetter(RawDecision(o, b, CLEAN_SAMPLE), RawDecision(o, a, CLEAN_SAMPLE));
    }
  }

  lemma CleanDecision(o: Options, bandwidth: real)
    ensures var raw := RawDecision(o, ZERO_HEALTH.(bandwidth := bandwidth), CLEAN_SAMPLE);
            && raw.quality == TierLayer(BandwidthTier(o, bandwidth))
            && raw.grade == (if BandwidthTier(o, bandwidth) == 0 then Critical else Excellent)
  {}

  /** The promise fails at an unknown bandwidth: none reported decides High, 400 kbps decides Low. */
  lemma UnknownBandwidthCountsAsUnlimited()
    ensures var o := WithDefaults(Options(0, 0, 0, 0, 0, 0, 0, 0, 0.0));
            var none := RawDecision(o, ZERO_HEALTH, CLEAN_SAMPLE);
            var some := RawDecision(o, ZERO_HEALTH.(bandwidth := 400.0), CLEAN_SAMPLE);
            none.quality == High && some.quality == Low
  {
    var o := WithDefaults(Options(0, 0, 0, 0, 0, 0, 0, 0, 0.0));
    RoundWhole(0);
    RoundWhole(400);
    assert BandwidthTier(o, 0.0) == 3 && BandwidthTier(o, 400.0) <= 1;
    CleanDecision(o, 0.0);
    CleanDecision(o, 400.0);
    assert ZERO_HEALTH == ZERO_HEALTH.(bandwidth := 0.0);
  }

  lemma RoundWhole(n: nat)
    ensures Round(n as real) == n
  {}
}
