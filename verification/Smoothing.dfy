/** Bounds and convergence of the nine smoothed metrics. */
module Smoothing {
  import opened Wrappers
  import opened Adaptive

  datatype Metric = Bandwidth | Loss | Rtt | Jitter | AudioLoss | AudioJitter | Fps | Dropped | Decode

  function Reading(h: Health, m: Metric): real {
    match m
    case Bandwidth => h.bandwidth
    case Loss => h.loss
    case Rtt => h.rtt
    case Jitter => h.jitter
    case AudioLoss => h.audioLoss
    case AudioJitter => h.audioJitter
    case Fps => h.fps
    case Dropped => h.dropped
    case Decode => h.decode
  }

  /** The value a sample contributes to a metric, if any: once the state is initialised, a
      missing bandwidth, round-trip time or frame rate leaves the metric alone. */
  function Folded(initialized: bool, s: Sample, m: Metric): Option<real> {
    match m
    case Bandwidth => if initialized && ReportedKbps(s) <= 0 then None else Some(ReportedKbps(s) as real)
    case Rtt => if initialized && s.rtt <= 0 then None else Some(s.rtt as real)
    case Fps => if initialized && s.fps <= 0.0 then None else Some(s.fps)
    case Loss => Some(s.loss)
    case Jitter => Some(s.jitter)
    case AudioLoss => Some(s.audioLoss)
    case AudioJitter => Some(s.audioJitter)
    case Dropped => Some(s.dropped)
    case Decode => Some(s.decode)
  }

  function FoldAll(alpha: real, st: AdaptiveState, samples: seq<Sample>): AdaptiveState {
    if samples == [] then st
    else UpdateState(alpha, FoldAll(alpha, st, samples[..|samples| - 1]), samples[|samples| - 1])
  }

  lemma UpdateReading(alpha: real, st: AdaptiveState, s: Sample, m: Metric)
    ensures UpdateState(alpha, st, s).initialized
    ensures Reading(UpdateState(alpha, st, s).health, m) ==
            match Folded(st.initialized, s, m)
            case None => Reading(st.health, m)
            case Some(x) => if st.initialized then Ewma(Reading(st.health, m), x, alpha) else x
  {}

  lemma EwmaWithin(prev: real, next: real, alpha: real, lo: real, hi: real)
    requires 0.0 < alpha <= 1.0
    requires lo <= prev <= hi && lo <= next <= hi
    ensures lo <= Ewma(prev, next, alpha) <= hi
  {
    var beta := 1.0 - alpha;
    MulNonNegative(prev - lo, beta);
    MulNonNegative(next - lo, alpha);
    MulNonNegative(hi - prev, beta);
    MulNonNegative(hi - next, alpha);
    assert Ewma(prev, next, alpha) - lo == (prev - lo) * beta + (next - lo) * alpha;
    assert hi - Ewma(prev, next, alpha) == (hi - prev) * beta + (hi - next) * alpha;
  }

  lemma MulNonNegative(a: real, b: real)
    requires a >= 0.0 && b >= 0.0
    ensures a * b >= 0.0
  {}

  /** Every smoothed metric stays within any bounds that hold the values folded into it (and the
      starting value, if there was one). */
  lemma {:induction false} SmoothedWithinHull(o: Options, st: AdaptiveState, samples: seq<Sample>,
                                              m: Metric, lo: real, hi: real)
    requires st.initialized || samples != []
    requires st.initialized ==> lo <= Reading(st.health, m) <= hi
    requires forall i :: 0 <= i < |samples| ==>
      match Folded(st.initialized || i > 0, samples[i], m) case None => true case Some(x) => lo <= x <= hi
    ensures var end := FoldAll(WithDefaults(o).alpha, st, samples);
            end.initialized && lo <= Reading(end.health, m) <= hi
  {
    var alpha := WithDefaults(o).alpha;
    assert Sane(WithDefaults(o));
    if samples != [] {
      var n := |samples| - 1;
      var before := FoldAll(alpha, st, samples[..n]);
      if st.initialized || n > 0 {
        SmoothedWithinHull(o, st, samples[..n], m, lo, hi);
      }
      assert before.initialized == (st.initialized || n > 0);
      UpdateReading(alpha, before, samples[n], m);
      var folded := Folded(before.initialized, samples[n], m);
      if folded.Some? && before.initialized {
        EwmaWithin(Reading(before.health, m), folded.value, alpha, lo, hi);
      }
    }
  }

  function Pow(x: real, n: nat): real {
    if n == 0 then 1.0 else x * Pow(x, n - 1)
  }

  /** A distance `d` after n steps that each keep the fraction `beta` of it. */
  function Decay(d: real, beta: real, n: nat): real {
    if n == 0 then d else Decay(d, beta, n - 1) * beta
  }

  lemma {:induction false} DecayIsPower(d: real, beta: real, n: nat)
    ensures Decay(d, beta, n) == Pow(beta, n) * d
  {
    if n > 0 {
      DecayIsPower(d, beta, n - 1);
      MulRotate(Pow(beta, n - 1), d, beta);
    }
  }

  lemma MulRotate(a: real, b: real, c: real)
    ensures (a * b) * c == (c * a) * b
  {}

  lemma EwmaShrinks(prev: real, x: real, alpha: real)
    ensures Ewma(prev, x, alpha) - x == (prev - x) * (1.0 - alpha)
  {}

  function EwmaTimes(prev: real, x: real, alpha: real, n: nat): real {
    if n == 0 then prev else Ewma(EwmaTimes(prev, x, alpha, n - 1), x, alpha)
  }

  /** A run of samples that all fold `x` into a metric applies the average n times to it, whatever
      else the samples carry. */
  lemma {:induction false} FoldIsEwmaTimes(alpha: real, st: AdaptiveState, samples: seq<Sample>, m: Metric, x: real)
    requires st.initialized
    requires forall i :: 0 <= i < |samples| ==> Folded(true, samples[i], m) == Some(x)
    ensures FoldAll(alpha, st, samples).initialized
    ensures Reading(FoldAll(alpha, st, samples).health, m)
         == EwmaTimes(Reading(st.health, m), x, alpha, |samples|)
  {
    if samples != [] {
      var n := |samples| - 1;
      FoldIsEwmaTimes(alpha, st, samples[..n], m, x);
      UpdateReading(alpha, FoldAll(alpha, st, samples[..n]), samples[n], m);
    }
  }

  lemma {:induction false} EwmaTimesDecays(prev: real, x: real, alpha: real, n: nat)
    ensures EwmaTimes(prev, x, alpha, n) - x == Decay(prev - x, 1.0 - alpha, n)
  {
    if n > 0 {
      EwmaTimesDecays(prev, x, alpha, n - 1);
      EwmaShrinks(EwmaTimes(prev, x, alpha, n - 1), x, alpha);
    }
  }

  /** n identical values leave exactly (1 - alpha)^n of the distance to their value. */
  lemma {:induction false} EwmaTimesConverges(prev: real, x: real, alpha: real, n: nat)
    ensures EwmaTimes(prev, x, alpha, n) - x == Pow(1.0 - alpha, n) * (prev - x)
  {
    EwmaTimesDecays(prev, x, alpha, n);
    DecayIsPower(prev - x, 1.0 - alpha, n);
  }
}
