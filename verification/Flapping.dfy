/** How often one subscriber's layer can change over a whole run of quality reports. */
module Flapping {
  import opened Layers
  import opened Wrappers
  import opened Adaptive

  /** A report that finds the subscriber on `found` and, decided and applied, leaves it on `next`; or
      the controller forgetting the user or the stream. */
  datatype Tick = Report(found: Layer, sample: Sample, available: seq<Layer>, next: Layer) | Forget

  datatype Switch = Switch(at: int, from: Layer, to: Layer)

  /** `st` is the controller's state for this subscriber, `cur` the layer the last report left it
      on, `log` the changes made by reports so far, `moved` how often a report found the subscriber
      elsewhere, `first` and `last` the times of the first and last reports. */
  datatype Trace = Trace(st: Option<AdaptiveState>, cur: Layer, log: seq<Switch>, moved: nat,
                         first: Option<int>, last: int)

  predicate Up(s: Switch) {
    Rank(s.to) > Rank(s.from)
  }

  function Ups(log: seq<Switch>): nat {
    if log == [] then 0
    else Ups(log[..|log| - 1]) + if Up(log[|log| - 1]) then 1 else 0
  }

  function Advance(o: Options, t: Trace, tick: Tick): Trace {
    match tick
    case Forget => t.(st := None)
    case Report(found, s, available, next) =>
      Record(t, found, DecideOn(o, t.st, s, found, available).0, s.at, next)
  }

  function Record(t: Trace, found: Layer, st: AdaptiveState, at: int, next: Layer): Trace {
    Trace(Some(st), next,
          if next == found then t.log else t.log + [Switch(at, found, next)],
          if found == t.cur then t.moved else t.moved + 1,
          if t.first == None then Some(at) else t.first, at)
  }

  function Run(o: Options, start: Layer, ticks: seq<Tick>): Trace {
    if ticks == [] then Trace(None, start, [], 0, None, 0)
    else Advance(o, Run(o, start, ticks[..|ticks| - 1]), ticks[|ticks| - 1])
  }

  /** The target of the decision that a report leads to. */
  function TargetOf(o: Options, t: Trace, tick: Tick): Layer
    requires tick.Report?
  {
    DecideOn(o, t.st, tick.sample, tick.found, tick.available).1.target
  }

  /** A tick that may come after the run `t`: reports come in time order, and one moves the subscriber up
      only in the direction of its target. Down it may move for other reasons, and between reports it
      may be moved at will. */
  predicate MayFollow(o: Options, t: Trace, tick: Tick) {
    tick.Report? ==>
      && (t.first.Some? ==> t.last <= tick.sample.at)
      && (Rank(tick.next) > Rank(tick.found) ==> Rank(TargetOf(o, t, tick)) > Rank(tick.found))
  }

  /** A report that moves the subscriber down, too, only in the direction of its target: exact feedback of
      the target is one way, resolving it against the available layers (Layers.BestMovesTowards)
      another. */
  predicate FollowsTarget(o: Options, t: Trace, tick: Tick) {
    tick.Report? ==> Towards(tick.found, tick.next, TargetOf(o, t, tick))
  }

  ghost predicate Admissible(o: Options, start: Layer, ticks: seq<Tick>) {
    ticks == [] ||
    (var before := ticks[..|ticks| - 1];
     Admissible(o, start, before) && MayFollow(o, Run(o, start, before), ticks[|ticks| - 1]))
  }

  ghost predicate Followed(o: Options, start: Layer, ticks: seq<Tick>) {
    ticks == [] ||
    (var before := ticks[..|ticks| - 1];
     Followed(o, start, before) && FollowsTarget(o, Run(o, start, before), ticks[|ticks| - 1]))
  }

  lemma OneMoreTick(o: Options, start: Layer, ticks: seq<Tick>, tick: Tick)
    ensures Run(o, start, ticks + [tick]) == Advance(o, Run(o, start, ticks), tick)
    ensures Admissible(o, start, ticks + [tick]) <==>
            Admissible(o, start, ticks) && MayFollow(o, Run(o, start, ticks), tick)
    ensures Followed(o, start, ticks + [tick]) <==>
            Followed(o, start, ticks) && FollowsTarget(o, Run(o, start, ticks), tick)
  {
    assert (ticks + [tick])[..|ticks|] == ticks;
  }

  // ---- What is promised -----------------------------------------------------------------

  /** The time of the last up-switch of a log, or of the first report. */
  function LastRise(first: int, log: seq<Switch>): int {
    if log == [] then first
    else if Up(log[|log| - 1]) then log[|log| - 1].at
    else LastRise(first, log[..|log| - 1])
  }

  /** Every up-switch comes the interval after the up-switch before it, or after the first report. */
  ghost predicate RisesApart(o: Options, first: int, log: seq<Switch>) {
    forall j :: 0 <= j < |log| && Up(log[j]) ==> log[j].at - LastRise(first, log[..j]) >= o.minUpswitch
  }

  /** The time of the last switch of a log, or of the first report. */
  function LastSwitch(first: int, log: seq<Switch>): int {
    if log == [] then first else log[|log| - 1].at
  }

  /** Every up-switch comes the interval after the switch before it, or after the first report. */
  ghost predicate Spaced(o: Options, t: Trace) {
    t.first == None ||
    forall j :: 0 <= j < |t.log| && Up(t.log[j]) ==> t.log[j].at - LastSwitch(t.first.value, t.log[..j]) >= o.minUpswitch
  }

  /** Up-switches are the interval apart, so there are at most elapsed / interval of them, and all
      switches number at most two, plus three times the up-switches, plus twice the moves made
      between reports. */
  ghost predicate FlapsRarely(o: Options, t: Trace)
    requires o.minUpswitch > 0
  {
    && |t.log| <= 2 + 3 * Ups(t.log) + 2 * t.moved
    && (t.first == None ==> t.log == [])
    && (t.first.Some? ==>
          RisesApart(o, t.first.value, t.log) && Ups(t.log) <= (t.last - t.first.value) / o.minUpswitch)
  }

  // ---- What a run keeps -----------------------------------------------------------------

  /** Every down-switch undoes part of an up-switch, of a move or of the starting layer. */
  predicate DownsPaidFor(start: Layer, t: Trace) {
    |t.log| - Ups(t.log) <= Rank(start) - Rank(t.cur) + 2 * Ups(t.log) + 2 * t.moved
  }

  /** The time the up-switches of the log must have taken. */
  function UpTime(o: Options, log: seq<Switch>): int {
    Ups(log) * o.minUpswitch
  }

  /** The state of the controller remembers a switch no earlier than `since`. */
  predicate Remembers(t: Trace, since: int) {
    since <= t.last && (t.st.Some? ==> since <= t.st.value.lastSwitchAt <= t.last)
  }

  ghost predicate Paced(o: Options, t: Trace) {
    match t.first
    case None => t.log == [] && t.st == None
    case Some(first) =>
      && RisesApart(o, first, t.log)
      && Remembers(t, LastRise(first, t.log))
      && UpTime(o, t.log) <= LastRise(first, t.log) - first
  }

  /** What a run that follows its targets keeps besides. */
  ghost predicate PacedBySwitches(o: Options, t: Trace) {
    Spaced(o, t) && (t.first.Some? ==> Remembers(t, LastSwitch(t.first.value, t.log)))
  }

  /** An up-switch decision waits for the interval since the last switch the state remembers. */
  lemma UpswitchWaits(o: Options, st0: Option<AdaptiveState>, s: Sample, cur: Layer, available: seq<Layer>)
    ensures var (st, d) := DecideOn(o, st0, s, cur, available);
            var before := StateFor(st0, cur, s.at).lastSwitchAt;
            && st.lastSwitchAt == (if d.target == cur then before else s.at)
            && (Rank(d.target) > Rank(cur) ==> s.at - before >= o.minUpswitch)
  {}

  lemma LogGrows(o: Options, first: int, log: seq<Switch>, s: Switch)
    ensures Ups(log + [s]) == Ups(log) + if Up(s) then 1 else 0
    ensures UpTime(o, log + [s]) == UpTime(o, log) + if Up(s) then o.minUpswitch else 0
    ensures LastRise(first, log + [s]) == if Up(s) then s.at else LastRise(first, log)
    ensures RisesApart(o, first, log) && (Up(s) ==> s.at - LastRise(first, log) >= o.minUpswitch) ==>
              RisesApart(o, first, log + [s])
  {
    var grown := log + [s];
    assert grown[..|log|] == log;
    assert forall j :: 0 <= j < |log| ==> grown[j] == log[j] && grown[..j] == log[..j];
  }

  /** The facts about a decision that the bounds rest on. */
  ghost predicate Waited(o: Options, t: Trace, found: Layer, st: AdaptiveState, at: int, target: Layer) {
    var before := if t.st.Some? then t.st.value.lastSwitchAt else at;
    && st.lastSwitchAt == (if target == found then before else at)
    && (Rank(target) > Rank(found) ==> at - before >= o.minUpswitch)
  }

  lemma RecordPaced(o: Options, t: Trace, found: Layer, st: AdaptiveState, at: int, next: Layer, target: Layer)
    requires Paced(o, t) && (t.first.Some? ==> t.last <= at)
    requires o.minUpswitch > 0 && Waited(o, t, found, st, at, target)
    requires Rank(next) > Rank(found) ==> Rank(target) > Rank(found)
    ensures Paced(o, Record(t, found, st, at, next))
  {
    assert UpTime(o, []) == 0;
    if next != found {
      LogGrows(o, if t.first.Some? then t.first.value else at, t.log, Switch(at, found, next));
    }
  }

  lemma RecordPaidFor(start: Layer, t: Trace, found: Layer, st: AdaptiveState, at: int, next: Layer)
    requires DownsPaidFor(start, t)
    ensures DownsPaidFor(start, Record(t, found, st, at, next))
  {
    if next != found {
      var s := Switch(at, found, next);
      assert (t.log + [s])[..|t.log|] == t.log;
    }
  }

  lemma RecordPacedBySwitches(o: Options, t: Trace, found: Layer, st: AdaptiveState, at: int, next: Layer, target: Layer)
    requires PacedBySwitches(o, t) && (if t.first.Some? then t.last <= at else t.log == [] && t.st == None)
    requires o.minUpswitch > 0 && Waited(o, t, found, st, at, target) && Towards(found, next, target)
    ensures PacedBySwitches(o, Record(t, found, st, at, next))
  {
    var log := Record(t, found, st, at, next).log;
    assert forall j :: 0 <= j < |t.log| ==> log[j] == t.log[j] && log[..j] == t.log[..j];
    assert log[..|t.log|] == t.log;
  }

  lemma {:induction false} RunIsBounded(o: Options, start: Layer, ticks: seq<Tick>)
    requires Sane(o) && Admissible(o, start, ticks)
    ensures Paced(o, Run(o, start, ticks)) && DownsPaidFor(start, Run(o, start, ticks))
  {
    if ticks != [] {
      var t := Run(o, start, ticks[..|ticks| - 1]);
      RunIsBounded(o, start, ticks[..|ticks| - 1]);
      var tick := ticks[|ticks| - 1];
      if tick.Report? {
        var (st, d) := DecideOn(o, t.st, tick.sample, tick.found, tick.available);
        UpswitchWaits(o, t.st, tick.sample, tick.found, tick.available);
        RecordPaced(o, t, tick.found, st, tick.sample.at, tick.next, d.target);
        RecordPaidFor(start, t, tick.found, st, tick.sample.at, tick.next);
      }
    }
  }

  lemma {:induction false} RunIsSpaced(o: Options, start: Layer, ticks: seq<Tick>)
    requires Sane(o) && Admissible(o, start, ticks) && Followed(o, start, ticks)
    ensures PacedBySwitches(o, Run(o, start, ticks))
  {
    if ticks != [] {
      var t := Run(o, start, ticks[..|ticks| - 1]);
      RunIsSpaced(o, start, ticks[..|ticks| - 1]);
      RunIsBounded(o, start, ticks[..|ticks| - 1]);
      var tick := ticks[|ticks| - 1];
      if tick.Report? {
        var (st, d) := DecideOn(o, t.st, tick.sample, tick.found, tick.available);
        UpswitchWaits(o, t.st, tick.sample, tick.found, tick.available);
        RecordPacedBySwitches(o, t, tick.found, st, tick.sample.at, tick.next, d.target);
      }
    }
  }

  /** Bounded flapping over every run, whatever lowers the subscriber and whoever moves it between
      reports; when only the targets move it down, every up-switch also waits for the interval since
      the last switch of either direction. Forgetting the user or the stream never loosens this. */
  lemma BoundedFlapping(o: Options, start: Layer, ticks: seq<Tick>)
    requires Sane(o) && Admissible(o, start, ticks)
    ensures FlapsRarely(o, Run(o, start, ticks))
    ensures Followed(o, start, ticks) ==> Spaced(o, Run(o, start, ticks))
  {
    RunIsBounded(o, start, ticks);
    PacedFlapsRarely(o, start, Run(o, start, ticks));
    if Followed(o, start, ticks) {
      RunIsSpaced(o, start, ticks);
    }
  }

  lemma PacedFlapsRarely(o: Options, start: Layer, t: Trace)
    requires o.minUpswitch > 0 && Paced(o, t) && DownsPaidFor(start, t)
    ensures FlapsRarely(o, t)
  {
    if t.first.Some? {
      QuotientBound(Ups(t.log), o.minUpswitch, t.last - t.first.value);
    }
  }

  lemma QuotientBound(n: nat, d: int, e: int)
    requires d > 0 && n * d <= e
    ensures n <= e / d
  {
    var q := e / d;
    assert e < q * d + d;
    if q < n {
      MulOrder(q + 1, n, d);
    }
  }

  lemma MulOrder(a: int, b: int, d: int)
    requires a <= b && 0 <= d
    ensures a * d <= b * d
  {}
}
