/** Who is claimed when: no job before its time, none while another worker has it, and none passed over but
    for jobs that have waited no less. */
module SearchFairness {
  import opened Wrappers
  import opened SearchQueue
  import opened SearchDrain
  import Backoff

  const FIVE_MINUTES := 300000

  /** The row's time has come, and it waits for a worker or its worker has had it for more than five minutes. */
  predicate Due(r: Row, now: int) {
    && r.availableAt <= now
    && (r.status == Pending || r.status == Failed
        || (r.status == Processing && r.lockedAt.Some? && r.lockedAt.value < now - FIVE_MINUTES))
  }

  /** `a` became available before `b`, or at the same time and was created no later. */
  predicate NoLater(a: Row, b: Row) {
    a.availableAt < b.availableAt || (a.availableAt == b.availableAt && a.createdAt <= b.createdAt)
  }

  /** What a claim takes is due and in the order of waiting; what it leaves out is due only if the claim is
      full of rows that became available no later. */
  lemma ClaimTakesLongestWaiting(rows: map<Key, Row>, now: int, batch: nat, keys: seq<Key>, k: Key)
    requires IsSelection(rows, now, batch, keys) && k in rows
    ensures k in keys ==> Due(rows[k], now)
    ensures k !in keys && Due(rows[k], now) ==>
              |keys| == batch && forall x :: x in keys ==> x in rows && NoLater(rows[x], rows[k])
    ensures forall i, j :: 0 <= i < j < |keys| ==>
              keys[i] in rows && keys[j] in rows && keys[i] != keys[j] && NoLater(rows[keys[i]], rows[keys[j]])
  {}

  /** The other rows that are due and became available no later. */
  function Rivals(rows: map<Key, Row>, now: int, k: Key): set<Key>
    requires k in rows
  {
    set x | x in rows && x != k && Due(rows[x], now) && NoLater(rows[x], rows[k])
  }

  /** A due row with fewer than a batch of those is claimed. */
  lemma FewRivalsMeansClaimed(rows: map<Key, Row>, now: int, batch: nat, keys: seq<Key>, k: Key)
    requires IsSelection(rows, now, batch, keys) && k in rows && Due(rows[k], now)
    requires |Rivals(rows, now, k)| < batch
    ensures k in keys
  {
    if k !in keys {
      ClaimTakesLongestWaiting(rows, now, batch, keys, k);
      DistinctSize(keys);
      forall x | x in keys ensures x in Rivals(rows, now, k) {
        ClaimTakesLongestWaiting(rows, now, batch, keys, x);
      }
      SubsetSize(Elements(keys), Rivals(rows, now, k));
    }
  }

  // ---- Leases and retry delays ---------------------------------------------------------------

  /** A row just claimed is nobody else's for five minutes; if its worker is never heard of again it is due
      from then on. */
  lemma ClaimedIsLeased(rows: map<Key, Row>, keys: seq<Key>, now: int, k: Key, later: int)
    requires k in keys && k in rows && rows[k].availableAt <= now <= later
    ensures Due(ClaimRows(rows, keys, now)[k], later) <==> later > now + FIVE_MINUTES
  {}

  /** A failed job with tries left is not claimed before its retry delay is over, and then it is due. */
  lemma FailedWaitsItsDelay(q: Queue, job: Job, retryBackoff: nat, at: int, now: int, batch: nat, keys: seq<Key>)
    requires job.key in q.rows && 1 <= job.attempts < job.maxAttempts
    requires IsSelection(FailJob(q, job, retryBackoff, at).rows, now, batch, keys)
    ensures var wait := Backoff.Delay(retryBackoff, 3600000, job.attempts);
            && (job.key in keys ==> now >= at + wait)
            && (Due(FailJob(q, job, retryBackoff, at).rows[job.key], now) <==> now >= at + wait)
  {
    ClaimTakesLongestWaiting(FailJob(q, job, retryBackoff, at).rows, now, batch, keys, job.key);
  }

  /** A job that has used up its tries is never claimed again. */
  lemma DeadIsNotClaimed(q: Queue, job: Job, retryBackoff: nat, at: int, now: int, batch: nat, keys: seq<Key>)
    requires job.key in q.rows && job.attempts >= job.maxAttempts
    requires IsSelection(FailJob(q, job, retryBackoff, at).rows, now, batch, keys)
    ensures job.key !in keys
  {
    ClaimTakesLongestWaiting(FailJob(q, job, retryBackoff, at).rows, now, batch, keys, job.key);
  }

  // ---- No starvation --------------------------------------------------------------------------

  /** Something happens to the queue: a key is enqueued, or a worker works off a batch. */
  datatype Turn = Enqueued(key: Key, row: Row) | Worked(round: Round)

  function After(q: Queue, turn: Turn, retryBackoff: nat): Queue
    requires turn.Worked? ==> |turn.round.answers| >= |turn.round.keys|
    requires turn.Worked? ==> forall i :: 0 <= i < |turn.round.keys| ==> turn.round.keys[i] in q.rows
  {
    match turn
    case Enqueued(key, row) => q.(rows := q.rows[key := row])
    case Worked(r) => Batch(q, r.keys, r.now, r.answers, retryBackoff).0
  }

  /** A turn that does not concern `k`: what is enqueued becomes available later than `k` did, and a batch
      that does not take `k` records its failures no earlier than it started. */
  ghost predicate WithoutTaking(q: Queue, turn: Turn, k: Key)
    requires k in q.rows
  {
    match turn
    case Enqueued(key, row) =>
      key != k && row.status == Pending && row.attempts < row.maxAttempts && row.availableAt > q.rows[k].availableAt
    case Worked(r) =>
      && RoundOf(q, r) && k !in r.keys && q.rows[k].availableAt <= r.now
      && forall i :: 0 <= i < |r.keys| && r.answers[i].NotApplied? ==> r.answers[i].at >= r.now
  }

  /** The other rows still to be done that became available no later than `k`. */
  function Older(rows: map<Key, Row>, k: Key): set<Key>
    requires k in rows
  {
    set x | x in rows && x != k && rows[x].status != Processed && rows[x].status != Dead && NoLater(rows[x], rows[k])
  }

  /** How many places went to others while `k` was due. */
  function Passed(q: Queue, turn: Turn, k: Key): nat
    requires k in q.rows
  {
    if turn.Worked? && Due(q.rows[k], turn.round.now) then turn.round.batch else 0
  }

  /** What failed of these keys becomes available only later. */
  ghost predicate FailuresLater(rows: map<Key, Row>, keys: seq<Key>, since: int) {
    forall k :: k in keys && k in rows && rows[k].status == Failed ==> rows[k].availableAt > since
  }

  lemma {:induction false} FailedComeLater(q: Queue, keys: seq<Key>, jobs: seq<Job>, answers: seq<Answer>,
                                          retryBackoff: nat, since: int)
    requires retryBackoff > 0 && |answers| >= |jobs| && FailuresLater(q.rows, keys, since)
    requires forall i :: 0 <= i < |jobs| && answers[i].NotApplied? ==> answers[i].at >= since
    ensures FailuresLater(Work(q, jobs, answers, retryBackoff).0.rows, keys, since)
  {
    if jobs != [] {
      var n := |jobs| - 1;
      FailedComeLater(q, keys, jobs[..n], answers, retryBackoff, since);
      var (q', t) := Work(q, jobs[..n], answers, retryBackoff);
      FailedComesLater(q', t, keys, jobs[n], answers[n], retryBackoff, since);
    }
  }

  lemma FailedComesLater(q: Queue, t: Tally, keys: seq<Key>, job: Job, a: Answer, retryBackoff: nat, since: int)
    requires (a.NotApplied? ==> a.at >= since) && retryBackoff > 0 && FailuresLater(q.rows, keys, since)
    ensures FailuresLater(WorkOne(q, t, job, a, retryBackoff).0.rows, keys, since)
  {
    Backoff.DelayPositive(retryBackoff, HOUR, job.attempts);
  }

  /** A batch that does not take `k` leaves, of the older rows, only those it did not take either. */
  lemma BatchLeavesOlder(q: Queue, r: Round, k: Key, retryBackoff: nat)
    requires Between(q.rows) && k in q.rows && WithoutTaking(q, Worked(r), k) && retryBackoff > 0
    ensures var rows' := Batch(q, r.keys, r.now, r.answers, retryBackoff).0.rows;
            && Between(rows') && k in rows' && rows'[k] == q.rows[k]
            && Older(rows', k) <= Older(q.rows, k) - Elements(r.keys)
  {
    var claimed := ClaimRows(q.rows, r.keys, r.now);
    NeverRefused(q.rows, r.now, r.batch, r.keys);
    BatchSpends(q, r.now, r.batch, r.keys, r.answers, retryBackoff);
    BatchWorksOff(q, r.now, r.batch, r.keys, r.answers, retryBackoff);
    var jobs := JobsOf(claimed, r.keys);
    FailedComeLater(q.(rows := claimed), r.keys, jobs, r.answers, retryBackoff, r.now);
    OlderAreLeft(q.rows, claimed, r, k, Batch(q, r.keys, r.now, r.answers, retryBackoff).0.rows);
  }

  lemma OlderAreLeft(rows: map<Key, Row>, claimed: map<Key, Row>, r: Round, k: Key, rows': map<Key, Row>)
    requires k in rows && k !in r.keys && rows[k].availableAt <= r.now
    requires claimed == ClaimRows(rows, r.keys, r.now) && WorkedOff(claimed, r.keys, |r.keys|, rows')
    requires FailuresLater(rows', r.keys, r.now)
    ensures k in rows' && rows'[k] == rows[k]
    ensures Older(rows', k) <= Older(rows, k) - Elements(r.keys)
  {
    assert r.keys[..|r.keys|] == r.keys;
    assert rows'[k] == claimed[k];
    forall x | x in Older(rows', k) ensures x in Older(rows, k) && x !in r.keys {
      assert x in r.keys ==> Settled(claimed[x], rows'[x]);
    }
  }

  lemma TakenAreOlder(q: Queue, r: Round, k: Key)
    requires Between(q.rows) && k in q.rows && RoundOf(q, r) && k !in r.keys && Due(q.rows[k], r.now)
    ensures Elements(r.keys) <= Older(q.rows, k) && |Elements(r.keys)| == r.batch
  {
    DistinctSize(r.keys);
    ClaimTakesLongestWaiting(q.rows, r.now, r.batch, r.keys, k);
    forall x | x in r.keys ensures x in Older(q.rows, k) {
      ClaimTakesLongestWaiting(q.rows, r.now, r.batch, r.keys, x);
    }
  }

  lemma TurnLeavesOlder(q: Queue, turn: Turn, k: Key, retryBackoff: nat)
    requires Between(q.rows) && k in q.rows && WithoutTaking(q, turn, k) && retryBackoff > 0
    ensures var q' := After(q, turn, retryBackoff);
            && Between(q'.rows) && k in q'.rows && q'.rows[k] == q.rows[k]
            && |Older(q'.rows, k)| + Passed(q, turn, k) <= |Older(q.rows, k)|
  {
    var q' := After(q, turn, retryBackoff);
    match turn
    case Enqueued(key, row) =>
      SubsetSize(Older(q'.rows, k), Older(q.rows, k));
    case Worked(r) =>
      BatchLeavesOlder(q, r, k, retryBackoff);
      SubsetSize(Older(q'.rows, k), Older(q.rows, k) - Elements(r.keys));
      SubsetSize(Older(q.rows, k) - Elements(r.keys), Older(q.rows, k));
      if Due(q.rows[k], r.now) {
        TakenAreOlder(q, r, k);
      }
  }

  /** The turns follow one another from `q`, and none takes `k`. */
  ghost predicate NeverTaken(q: Queue, turns: seq<Turn>, k: Key, retryBackoff: nat)
    decreases |turns|
  {
    turns == [] ||
    (k in q.rows && WithoutTaking(q, turns[0], k) && NeverTaken(After(q, turns[0], retryBackoff), turns[1..], k, retryBackoff))
  }

  /** The places that went to others while `k` was due, over all the turns. */
  ghost function PassedOver(q: Queue, turns: seq<Turn>, k: Key, retryBackoff: nat): nat
    requires NeverTaken(q, turns, k, retryBackoff)
    decreases |turns|
  {
    if turns == [] then 0
    else Passed(q, turns[0], k) + PassedOver(After(q, turns[0], retryBackoff), turns[1..], k, retryBackoff)
  }

  /** Nobody starves: with one worker, whatever is enqueued later and whatever fails, a due job is passed over
      for at most as many places as there are jobs that became available no later. */
  lemma {:induction false} NoStarvation(q: Queue, turns: seq<Turn>, k: Key, retryBackoff: nat)
    requires Between(q.rows) && k in q.rows && retryBackoff > 0 && NeverTaken(q, turns, k, retryBackoff)
    ensures PassedOver(q, turns, k, retryBackoff) <= |Older(q.rows, k)|
    decreases |turns|
  {
    if turns != [] {
      TurnLeavesOlder(q, turns[0], k, retryBackoff);
      NoStarvation(After(q, turns[0], retryBackoff), turns[1..], k, retryBackoff);
    }
  }
}
