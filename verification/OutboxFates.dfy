/** The outbox refines a simple account of each event: what became of it is told by the acts about it. */
module OutboxFates {
  import opened Wrappers
  import opened Outbox
  import opened OutboxRuns

  /** What has become of an event; `from` is the time from which it may be handed out. */
  datatype Fate = Unknown | Waiting(from: int, failed: bool) | Held(from: int, at: int) | Delivered(from: int) | GivenUp(from: int)

  const FIVE_MINUTES := 300000

  /** How often something has been enqueued: the last sequence number. */
  function Enqueues(log: seq<Timed>): nat {
    if log == [] then 0
    else Enqueues(log[..|log| - 1]) + if log[|log| - 1].act.Enqueued? then 1 else 0
  }

  function From(f: Fate): int {
    if f == Unknown then 0 else f.from
  }

  function FateOf(log: seq<Timed>, n: nat): Fate {
    if log == [] then Unknown
    else
      var front, last := log[..|log| - 1], log[|log| - 1];
      var before := FateOf(front, n);
      match last.act
      case Enqueued(timestamp, _) => if n == Enqueues(log) then Waiting(timestamp, false) else before
      case Claimed(seqs, _) => if n in seqs then Held(From(before), last.now) else before
      case PublishedOne(m) => if m == n && before != Unknown then Delivered(last.now) else before
      case FailedOne(m, retryAt, dead) =>
        if m != n || before == Unknown then before
        else
          var from := if retryAt.Some? then retryAt.value else From(before);
          if dead then GivenUp(from) else Waiting(from, true)
      case Reset(stuckAfter) =>
        var limit := if stuckAfter <= 0 then FIVE_MINUTES else stuckAfter / 1000 * 1000;
        if before.Held? && before.at < last.now - limit then Waiting(before.from, false) else before
  }

  /** It may be handed out: it waits and its time has come, or whoever held it has had it for more than five
      minutes. */
  predicate Ready(f: Fate, now: int) {
    match f
    case Waiting(from, _) => from <= now
    case Held(from, at) => from <= now && at < now - FIVE_MINUTES
    case _ => false
  }

  predicate Matches(f: Fate, r: Option<Row>) {
    match f
    case Unknown => r == None
    case Waiting(from, failed) =>
      && r.Some? && r.value.status == (if failed then Failed else Pending)
      && r.value.availableAt == from && r.value.lockedAt == None
    case Held(from, at) =>
      r.Some? && r.value.status == Processing && r.value.availableAt == from && r.value.lockedAt == Some(at)
    case Delivered(from) => r.Some? && r.value.status == Published && r.value.availableAt == from && r.value.lockedAt == None
    case GivenUp(from) => r.Some? && r.value.status == Dead && r.value.availableAt == from && r.value.lockedAt == None
  }

  /** Over every history, each row is where the acts about its event have brought it. */
  lemma {:induction false} RowsFollowFates(log: seq<Timed>)
    requires Lawful(log)
    ensures Run(log).next == Enqueues(log) + 1
    ensures forall n: nat :: Matches(FateOf(log, n), Get(Run(log).rows, n))
    ensures forall n: nat :: n in Run(log).rows ==> n < Run(log).next
  {
    if log != [] {
      var m := |log| - 1;
      LawfulPrefix(log, m);
      RowsFollowFates(log[..m]);
      assert LawfulAt(log, m);
      forall n: nat ensures Matches(FateOf(log, n), Get(Run(log).rows, n)) {
        ActFollowsFate(log, n);
      }
    }
  }

  lemma ActFollowsFate(log: seq<Timed>, n: nat)
    requires log != [] && LawfulAt(log, |log| - 1)
    requires var t := Run(log[..|log| - 1]);
             && Matches(FateOf(log[..|log| - 1], n), Get(t.rows, n))
             && t.next == Enqueues(log[..|log| - 1]) + 1 && (n in t.rows ==> n < t.next)
    ensures Matches(FateOf(log, n), Get(Run(log).rows, n))
  {
    var act := log[|log| - 1].act;
    if act.Claimed? && n in act.seqs {
      var x :| 0 <= x < |act.seqs| && act.seqs[x] == n;
    }
  }

  /** The tries an event is given: what its enqueue asked for, or eight. */
  function TriesAsked(log: seq<Timed>, n: nat): nat {
    if log == [] then 0
    else
      var last := log[|log| - 1];
      if last.act.Enqueued? && n == Enqueues(log) then (if last.act.maxAttempts > 0 then last.act.maxAttempts else 8)
      else TriesAsked(log[..|log| - 1], n)
  }

  lemma {:induction false} TriesAreKept(log: seq<Timed>, n: nat)
    requires Lawful(log) && n in Run(log).rows
    ensures Run(log).rows[n].maxAttempts == TriesAsked(log, n)
  {
    var m := |log| - 1;
    LawfulPrefix(log, m);
    RowsFollowFates(log[..m]);
    if n in Run(log[..m]).rows {
      TriesAreKept(log[..m], n);
    }
  }

  /** The events before `n` that may be handed out. */
  function ReadyBelow(log: seq<Timed>, n: nat, now: int): set<nat> {
    set m: nat | m < n && Ready(FateOf(log, m), now)
  }

  /** A claim hands an event out exactly if it may be handed out and fewer than a batch of earlier ones may. */
  lemma ClaimTakesExactly(log: seq<Timed>, i: nat, n: nat)
    requires Lawful(log) && i < |log| && log[i].act.Claimed?
    ensures var batch := log[i].act.batchSize;
            n in log[i].act.seqs <==>
            Ready(FateOf(log[..i], n), log[i].now)
            && |ReadyBelow(log[..i], n, log[i].now)| < if batch <= 0 then 100 else batch
  {
    assert LawfulAt(log, i);
    LawfulPrefix(log, i);
    RowsFollowFates(log[..i]);
    ReadyIsClaimable(log[..i], log[i].now);
    SelectedExactly(Run(log[..i]).rows, log[i].now, Batch(log[i].act.batchSize), log[i].act.seqs, n,
                    ReadyBelow(log[..i], n, log[i].now));
  }

  lemma ReadyIsClaimable(log: seq<Timed>, now: int)
    requires forall n: nat :: Matches(FateOf(log, n), Get(Run(log).rows, n))
    ensures forall n: nat :: Ready(FateOf(log, n), now) <==> n in Run(log).rows && Claimable(Run(log).rows[n], now)
  {
    forall n: nat ensures Ready(FateOf(log, n), now) <==> n in Run(log).rows && Claimable(Run(log).rows[n], now) {
      assert Matches(FateOf(log, n), Get(Run(log).rows, n));
    }
  }

  lemma SelectedExactly(rows: map<nat, Row>, now: int, batch: nat, seqs: seq<nat>, n: nat, below: set<nat>)
    requires IsSelection(rows, now, batch, seqs)
    requires forall m: nat :: m in below <==> m < n && m in rows && Claimable(rows[m], now)
    ensures n in seqs <==> n in rows && Claimable(rows[n], now) && |below| < batch
  {
    DistinctSize(seqs);
    if n in seqs {
      var x :| 0 <= x < |seqs| && seqs[x] == n;
      forall m | m in below ensures m in Elements(seqs) - {n} {}
      SubsetSize(below, Elements(seqs) - {n});
    } else if n in rows && Claimable(rows[n], now) {
      SubsetSize(Elements(seqs), below);
    }
  }

  /** An event that has been published is handed out again only after somebody marks it failed. */
  lemma PublishedIsNotClaimed(log: seq<Timed>, i: nat, j: nat, n: nat)
    requires Lawful(log) && i < j < |log| && log[i].act == PublishedOne(n) && n in Run(log[..i]).rows
    requires Claims(log[j].act, n)
    ensures exists k :: i < k < j && log[k].act.FailedOne? && log[k].act.n == n
  {
    if forall k :: i < k < j ==> !(log[k].act.FailedOne? && log[k].act.n == n) {
      StaysDelivered(log, i, j, n);
      ClaimTakesExactly(log, j, n);
    }
  }

  /** Until then it stays published, unlocked, and out of every claim and reset. */
  lemma StaysDelivered(log: seq<Timed>, i: nat, j: nat, n: nat)
    requires Lawful(log) && i < j <= |log| && log[i].act == PublishedOne(n) && n in Run(log[..i]).rows
    requires forall k :: i < k < j ==> !(log[k].act.FailedOne? && log[k].act.n == n)
    ensures FateOf(log[..j], n).Delivered? && n in Run(log[..j]).rows
    ensures var r := Run(log[..j]).rows[n];
            r.status == Published && r.lockedAt == None && forall after, now :: !Stuck(r, after, now)
  {
    LawfulPrefix(log, i);
    RowsFollowFates(log[..i]);
    assert Matches(FateOf(log[..i], n), Get(Run(log[..i]).rows, n));
    FateStaysDelivered(log, i, j, n);
    LawfulPrefix(log, j);
    RowsFollowFates(log[..j]);
    assert Matches(FateOf(log[..j], n), Get(Run(log[..j]).rows, n));
  }

  lemma {:induction false} FateStaysDelivered(log: seq<Timed>, i: nat, j: nat, n: nat)
    requires Lawful(log) && i < j <= |log| && log[i].act == PublishedOne(n) && FateOf(log[..i], n) != Unknown
    requires n in Run(log[..i]).rows
    requires forall k :: i < k < j ==> !(log[k].act.FailedOne? && log[k].act.n == n)
    ensures FateOf(log[..j], n).Delivered? && n <= Enqueues(log[..j])
  {
    var front := log[..j - 1];
    assert log[..j][..j - 1] == front;
    if i == j - 1 {
      LawfulPrefix(log, i);
      RowsFollowFates(log[..i]);
    } else {
      FateStaysDelivered(log, i, j - 1, n);
      if log[j - 1].act.Claimed? {
        ClaimTakesExactly(log, j - 1, n);
      }
    }
    DeliveredStep(log[..j], n);
  }

  lemma DeliveredStep(log: seq<Timed>, n: nat)
    requires log != [] && n <= Enqueues(log[..|log| - 1])
    requires var before, last := FateOf(log[..|log| - 1], n), log[|log| - 1];
             if last.act == PublishedOne(n) then before != Unknown
             else before.Delivered? && !(last.act.FailedOne? && last.act.n == n) && !Claims(last.act, n)
    ensures n <= Enqueues(log)
    ensures var before, last := FateOf(log[..|log| - 1], n), log[|log| - 1];
            FateOf(log, n) == if last.act == PublishedOne(n) then Delivered(last.now) else before
  {}
}
