/** What every history of the outbox keeps: leases, bounded bypass and the count of attempts. */
module OutboxRuns {
  import opened Wrappers
  import opened Outbox

  datatype Act =
    | Enqueued(timestamp: int, maxAttempts: int)
    | Claimed(seqs: seq<nat>, batchSize: int)
    | PublishedOne(n: nat)
    | FailedOne(n: nat, retryAt: Option<int>, dead: bool)
    | Reset(stuckAfter: int)

  datatype Timed = Timed(act: Act, now: int)

  function Do(t: Table, a: Act, now: int): Table {
    match a
    case Enqueued(timestamp, maxAttempts) => Enqueue(t, timestamp, maxAttempts)
    case Claimed(seqs, _) => Claim(t, seqs, now)
    case PublishedOne(n) => MarkPublished(t, n, now)
    case FailedOne(n, retryAt, dead) => MarkFailed(t, n, retryAt, dead)
    case Reset(stuckAfter) => ResetStuck(t, stuckAfter, now)
  }

  function Run(log: seq<Timed>): Table {
    if log == [] then EMPTY_TABLE
    else Do(Run(log[..|log| - 1]), log[|log| - 1].act, log[|log| - 1].now)
  }

  /** Claims take what the query selects, and the clock does not go back. */
  ghost predicate Lawful(log: seq<Timed>) {
    forall i :: 0 <= i < |log| ==> LawfulAt(log, i)
  }

  ghost predicate LawfulAt(log: seq<Timed>, i: nat)
    requires i < |log|
  {
    && (forall j :: 0 <= j < i ==> log[j].now <= log[i].now)
    && (log[i].act.Claimed? ==>
          IsSelection(Run(log[..i]).rows, log[i].now, Batch(log[i].act.batchSize), log[i].act.seqs))
  }

  lemma LawfulPrefix(log: seq<Timed>, n: nat)
    requires Lawful(log) && n <= |log|
    ensures Lawful(log[..n])
  {
    forall i | 0 <= i < n ensures LawfulAt(log[..n], i) {
      assert LawfulAt(log, i) && log[..n][..i] == log[..i];
    }
  }

  predicate Claims(a: Act, n: nat) {
    a.Claimed? && n in a.seqs
  }

  /** The act at `k` puts event `n` back: it marks it failed, or resets it while it is stuck. */
  predicate PutsBack(log: seq<Timed>, k: nat, n: nat)
    requires k < |log|
  {
    match log[k].act
    case FailedOne(m, _, _) => m == n
    case Reset(stuckAfter) =>
      n in Run(log[..k]).rows && Stuck(Run(log[..k]).rows[n], StuckAfter(stuckAfter), log[k].now)
    case _ => false
  }

  // ---- Leases -----------------------------------------------------------------------------

  /** While nothing puts a claimed event back, it is published or locked since its last claim. */
  ghost predicate Held(log: seq<Timed>, i: nat, n: nat)
    requires i < |log|
  {
    n in Run(log).rows &&
    var r := Run(log).rows[n];
    r.status == Published || (r.status == Processing && r.lockedAt.Some? && r.lockedAt.value >= log[i].now)
  }

  lemma DoHeld(t: Table, a: Act, now: int, since: int, n: nat)
    requires since <= now && n in t.rows && n < t.next
    requires t.rows[n].status == Published ||
             (t.rows[n].status == Processing && t.rows[n].lockedAt.Some? && t.rows[n].lockedAt.value >= since)
    requires !(a.FailedOne? && a.n == n)
    requires !(a.Reset? && Stuck(t.rows[n], StuckAfter(a.stuckAfter), now))
    ensures n in Do(t, a, now).rows
    ensures var r := Do(t, a, now).rows[n];
            r.status == Published || (r.status == Processing && r.lockedAt.Some? && r.lockedAt.value >= since)
  {}

  /** Sequences in the table are below the next one. */
  lemma {:induction false} BelowNext(log: seq<Timed>)
    ensures forall n :: n in Run(log).rows ==> n < Run(log).next
  {
    if log != [] {
      BelowNext(log[..|log| - 1]);
    }
  }

  lemma {:induction false} HeldUntilPutBack(log: seq<Timed>, i: nat, n: nat)
    requires Lawful(log) && i < |log| && Claims(log[i].act, n)
    requires forall k :: i < k < |log| ==> !PutsBack(log, k, n)
    ensures Held(log, i, n)
  {
    var m := |log| - 1;
    assert LawfulAt(log, m);
    if i == m {
      assert n in Run(log[..m]).rows by {
        var x :| 0 <= x < |log[i].act.seqs| && log[i].act.seqs[x] == n;
      }
    } else {
      LawfulPrefix(log, m);
      forall k | i < k < m ensures !PutsBack(log[..m], k, n) {
        assert !PutsBack(log, k, n) && log[..m][..k] == log[..k];
      }
      HeldUntilPutBack(log[..m], i, n);
      BelowNext(log[..m]);
      assert !PutsBack(log, m, n);
      DoHeld(Run(log[..m]), log[m].act, log[m].now, log[i].now, n);
    }
  }

  /** An event is claimed twice only if in between it was marked failed, was reset while stuck, or
      more than its five-minute lease went by. */
  lemma ClaimedTwiceOnlyAfter(log: seq<Timed>, i: nat, j: nat, n: nat)
    requires Lawful(log) && i < j < |log|
    requires Claims(log[i].act, n) && Claims(log[j].act, n)
    ensures || (exists k :: i < k < j && PutsBack(log, k, n))
            || log[j].now - log[i].now > LEASE
  {
    if forall k :: i < k < j ==> !PutsBack(log, k, n) {
      LawfulPrefix(log, j);
      forall k | i < k < j ensures !PutsBack(log[..j], k, n) {
        assert !PutsBack(log, k, n) && log[..j][..k] == log[..k];
      }
      HeldUntilPutBack(log[..j], i, n);
      assert LawfulAt(log, j);
      var x :| 0 <= x < |log[j].act.seqs| && log[j].act.seqs[x] == n;
    }
  }

  // ---- Being passed over ------------------------------------------------------------------

  /** The act at `i` is a claim that leaves event `n` out although it is claimable. */
  predicate PassesOver(log: seq<Timed>, i: nat, n: nat)
    requires i < |log|
  {
    && log[i].act.Claimed? && n !in log[i].act.seqs
    && n in Run(log[..i]).rows && Claimable(Run(log[..i]).rows[n], log[i].now)
  }

  /** The batch sizes of the claims from `from` on that pass over event `n`, added up. */
  function PassedOver(log: seq<Timed>, from: nat, n: nat): nat {
    if |log| <= from then 0
    else
      var m := |log| - 1;
      PassedOver(log[..m], from, n) + if PassesOver(log, m, n) then Batch(log[m].act.batchSize) else 0
  }

  /** The events those claims take instead. */
  function TakenInstead(log: seq<Timed>, from: nat, n: nat): set<nat> {
    if |log| <= from then {}
    else
      var m := |log| - 1;
      TakenInstead(log[..m], from, n) + if PassesOver(log, m, n) then Elements(log[m].act.seqs) else {}
  }

  /** From `from` on no more than a lease goes by and no event before `n` is put back. */
  ghost predicate Undisturbed(log: seq<Timed>, from: nat, n: nat) {
    && (forall k: nat, x: nat :: from <= k < |log| && x < n ==> !PutsBack(log, k, x))
    && (from < |log| ==> log[|log| - 1].now - log[from].now <= LEASE)
  }

  function RowsBelow(t: Table, n: nat): set<nat> {
    set x | x in t.rows && x < n
  }

  lemma {:induction false} TakenWereClaimed(log: seq<Timed>, from: nat, n: nat, x: nat)
    requires Lawful(log) && x in TakenInstead(log, from, n)
    ensures x < n && exists i :: from <= i < |log| && Claims(log[i].act, x)
  {
    var m := |log| - 1;
    LawfulPrefix(log, m);
    assert LawfulAt(log, m);
    if x in TakenInstead(log[..m], from, n) {
      TakenWereClaimed(log[..m], from, n, x);
      var i :| from <= i < m && Claims(log[..m][i].act, x);
      assert log[..m][i] == log[i];
    } else {
      assert Claims(log[m].act, x);
    }
  }

  /** Nothing taken instead of `n` is taken again. */
  lemma NoneTakenAgain(log: seq<Timed>, from: nat, n: nat, x: nat)
    requires Lawful(log) && Undisturbed(log, from, n) && from < |log|
    requires x in TakenInstead(log[..|log| - 1], from, n)
    ensures !Claims(log[|log| - 1].act, x)
  {
    var m := |log| - 1;
    LawfulPrefix(log, m);
    TakenWereClaimed(log[..m], from, n, x);
    var i :| from <= i < m && Claims(log[..m][i].act, x);
    assert LawfulAt(log, i) && log[from].now <= log[i].now;
    if Claims(log[m].act, x) {
      ClaimedTwiceOnlyAfter(log, i, m, x);
    }
  }

  lemma RowsStay(t: Table, a: Act, now: int, n: nat)
    ensures RowsBelow(t, n) <= RowsBelow(Do(t, a, now), n)
  {}

  /** A claim that passes over an event is full of events before it. */
  lemma PassedOverAt(log: seq<Timed>, i: nat, n: nat)
    requires Lawful(log) && i < |log| && PassesOver(log, i, n)
    ensures var seqs := log[i].act.seqs;
            && |Elements(seqs)| == |seqs| == Batch(log[i].act.batchSize)
            && Elements(seqs) <= RowsBelow(Run(log[..i]), n)
  {
    assert LawfulAt(log, i);
    DistinctSize(log[i].act.seqs);
  }

  /** Claims that pass over an event have taken as many different events before it as their batches
      hold. */
  lemma {:induction false} PassedOverForDistinct(log: seq<Timed>, from: nat, n: nat)
    requires Lawful(log) && Undisturbed(log, from, n)
    ensures |TakenInstead(log, from, n)| == PassedOver(log, from, n)
    ensures TakenInstead(log, from, n) <= RowsBelow(Run(log), n)
  {
    if from < |log| {
      var m := |log| - 1;
      UndisturbedPrefix(log, from, n);
      LawfulPrefix(log, m);
      PassedOverForDistinct(log[..m], from, n);
      RowsStay(Run(log[..m]), log[m].act, log[m].now, n);
      if PassesOver(log, m, n) {
        PassedOverAt(log, m, n);
        var seqs := log[m].act.seqs;
        assert TakenInstead(log[..m], from, n) !! Elements(seqs) by {
          forall x | x in TakenInstead(log[..m], from, n) ensures x !in Elements(seqs) {
            NoneTakenAgain(log, from, n, x);
          }
        }
      }
    }
  }

  lemma UndisturbedPrefix(log: seq<Timed>, from: nat, n: nat)
    requires Lawful(log) && Undisturbed(log, from, n) && from < |log|
    ensures Undisturbed(log[..|log| - 1], from, n)
  {
    var m := |log| - 1;
    assert LawfulAt(log, m);
    forall k: nat, x: nat | from <= k < m && x < n ensures !PutsBack(log[..m], k, x) {
      assert !PutsBack(log, k, x) && log[..m][..k] == log[..k];
    }
  }

  /** Within a lease, and with no event before it put back, an event is passed over by claims for at
      most as many places as there are events before it. */
  lemma BoundedBypass(log: seq<Timed>, from: nat, n: nat)
    requires Lawful(log) && Undisturbed(log, from, n)
    ensures PassedOver(log, from, n) <= |RowsBelow(Run(log), n)|
  {
    PassedOverForDistinct(log, from, n);
    SubsetSize(TakenInstead(log, from, n), RowsBelow(Run(log), n));
  }

  // ---- Attempts ------------------------------------------------------------------------------

  /** How often the history claims event `n`. */
  function ClaimCount(log: seq<Timed>, n: nat): nat {
    if log == [] then 0
    else ClaimCount(log[..|log| - 1], n) + if Claims(log[|log| - 1].act, n) then 1 else 0
  }

  /** The attempts of every event equal the number of claims in the history. */
  lemma {:induction false} AttemptsCountClaims(log: seq<Timed>, n: nat)
    requires Lawful(log)
    ensures n in Run(log).rows ==> Run(log).rows[n].attempts == ClaimCount(log, n)
    ensures n !in Run(log).rows ==> ClaimCount(log, n) == 0
    ensures forall k :: k in Run(log).rows ==> k < Run(log).next
  {
    if log != [] {
      var m := |log| - 1;
      LawfulPrefix(log, m);
      AttemptsCountClaims(log[..m], n);
      assert LawfulAt(log, m);
      if Claims(log[m].act, n) {
        var x :| 0 <= x < |log[m].act.seqs| && log[m].act.seqs[x] == n;
      }
    }
  }

  /** A claim hands an event out as its k-th attempt, k being the number of claims up to then. */
  lemma ClaimNumbersAttempts(log: seq<Timed>, i: nat, n: nat)
    requires Lawful(log) && i < |log| && Claims(log[i].act, n)
    ensures n in Run(log[..i + 1]).rows
    ensures Run(log[..i + 1]).rows[n].attempts == ClaimCount(log[..i + 1], n) >= 1
  {
    LawfulPrefix(log, i + 1);
    AttemptsCountClaims(log[..i + 1], n);
    assert log[..i + 1][i] == log[i];
  }
}
