/** The queue drains: no job is tried more than max_attempts times, every non-empty batch spends a
    try, and the one way a claim can be refused. */
module SearchDrain {
  import opened Wrappers
  import opened SearchQueue

  predicate Open(s: Status) {
    s == Pending || s == Failed || s == Processing
  }

  /** Attempts stay within bounds, and a row waiting to be tried has a try left. */
  predicate RowBounded(r: Row) {
    && r.attempts <= r.maxAttempts
    && (r.status == Pending || r.status == Failed ==> r.attempts < r.maxAttempts)
  }

  ghost predicate Bounded(rows: map<Key, Row>) {
    forall k :: k in rows ==> RowBounded(rows[k])
  }

  /** No row is left in the hands of a worker: what a single worker finds between batches when its
      status writes succeed. */
  ghost predicate NoneProcessing(rows: map<Key, Row>) {
    forall k :: k in rows ==> rows[k].status != Processing
  }

  /** The tries an open row has left. */
  function Left(r: Row): int {
    if Open(r.status) then r.maxAttempts - r.attempts else 0
  }

  /** The tries left over the whole queue. */
  ghost function Budget(rows: map<Key, Row>): int
    decreases |rows|
  {
    if rows == map[] then 0
    else
      assert |rows| == |rows.Keys|;
      var k :| k in rows;
      Shrinks(rows, k);
      Left(rows[k]) + Budget(rows - {k})
  }

  lemma Shrinks(rows: map<Key, Row>, k: Key)
    requires k in rows
    ensures |rows - {k}| == |rows| - 1
  {}

  lemma {:induction false} BudgetAt(rows: map<Key, Row>, k: Key)
    requires k in rows
    ensures Budget(rows) == Left(rows[k]) + Budget(rows - {k})
    decreases |rows|
  {
    Shrinks(rows, k);
    var x :| x in rows && Budget(rows) == Left(rows[x]) + Budget(rows - {x});
    if x != k {
      Shrinks(rows, x);
      BudgetAt(rows - {x}, k);
      BudgetAt(rows - {k}, x);
      assert rows - {x} - {k} == rows - {k} - {x};
    }
  }

  /** When no row gains tries, the budget does not grow. */
  lemma {:induction false} BudgetMonotone(a: map<Key, Row>, b: map<Key, Row>)
    requires a.Keys == b.Keys
    requires forall k :: k in a ==> Left(b[k]) <= Left(a[k])
    ensures Budget(b) <= Budget(a)
    decreases |a|
  {
    if a.Keys == {} {
      assert a == map[] && b == map[];
    } else {
      var k :| k in a;
      BudgetAt(a, k);
      BudgetAt(b, k);
      Shrinks(a, k);
      BudgetMonotone(a - {k}, b - {k});
    }
  }

  lemma BudgetFalls(a: map<Key, Row>, b: map<Key, Row>, k: Key)
    requires a.Keys == b.Keys && k in a
    requires forall x :: x in a ==> Left(b[x]) <= Left(a[x])
    requires Left(b[k]) < Left(a[k])
    ensures Budget(b) < Budget(a)
  {
    BudgetAt(a, k);
    BudgetAt(b, k);
    BudgetMonotone(a - {k}, b - {k});
  }

  lemma {:induction false} BudgetNotNegative(rows: map<Key, Row>)
    requires Bounded(rows)
    ensures Budget(rows) >= 0
    decreases |rows|
  {
    if rows.Keys == {} {
      assert rows == map[];
    } else {
      var k :| k in rows;
      BudgetAt(rows, k);
      Shrinks(rows, k);
      BudgetNotNegative(rows - {k});
    }
  }

  // ---- Claims that are refused ------------------------------------------------------

  /** A row whose lease ran out on its last try. */
  predicate OutOfTries(r: Row, now: int) {
    Claimable(r, now) && r.status == Processing && r.attempts == r.maxAttempts
  }

  /** The other claimable rows no later in line than `h`. */
  function Ahead(rows: map<Key, Row>, now: int, h: Key): set<Key>
    requires h in rows
  {
    set k | k in rows && k != h && Claimable(rows[k], now) && InOrder(rows[k], rows[h])
  }

  /** Those of them that are not tied with `h`. */
  function Before(rows: map<Key, Row>, now: int, h: Key): set<Key>
    requires h in rows
  {
    set k | k in Ahead(rows, now, h) && !InOrder(rows[h], rows[k])
  }

  /** No two claimable rows are available since the same time and created at the same time. */
  ghost predicate NoTies(rows: map<Key, Row>, now: int) {
    forall j, k :: j in rows && k in rows && j != k && Claimable(rows[j], now) && Claimable(rows[k], now) ==>
      !(InOrder(rows[j], rows[k]) && InOrder(rows[k], rows[j]))
  }

  /** Which claimable rows a claim takes. */
  lemma Taken(rows: map<Key, Row>, now: int, batch: nat, keys: seq<Key>, h: Key)
    requires IsSelection(rows, now, batch, keys)
    requires h in rows && Claimable(rows[h], now)
    ensures h in keys ==> |Before(rows, now, h)| < batch
    ensures |Ahead(rows, now, h)| < batch ==> h in keys
  {
    DistinctSize(keys);
    if h in keys {
      SubsetSize(Before(rows, now, h), Elements(keys) - {h});
    } else {
      SubsetSize(Elements(keys), Ahead(rows, now, h));
    }
  }

  /** A claim is refused exactly when a row whose lease ran out on its last try has fewer than a batch
      of claimable rows before it; among rows tied with it the query may choose. */
  lemma ClaimRefusedExactly(rows: map<Key, Row>, now: int, batch: nat, keys: seq<Key>)
    requires Bounded(rows) && IsSelection(rows, now, batch, keys)
    ensures (exists h :: h in rows && OutOfTries(rows[h], now) && |Ahead(rows, now, h)| < batch) ==> Refused(rows, keys)
    ensures Refused(rows, keys) ==> exists h :: h in rows && OutOfTries(rows[h], now) && |Before(rows, now, h)| < batch
    ensures NoTies(rows, now) ==>
            (Refused(rows, keys) <==>
             exists h :: h in rows && OutOfTries(rows[h], now) && |Ahead(rows, now, h)| < batch)
  {
    forall h | h in rows && OutOfTries(rows[h], now)
      ensures h in keys ==> |Before(rows, now, h)| < batch
      ensures |Ahead(rows, now, h)| < batch ==> h in keys
      ensures NoTies(rows, now) ==> Before(rows, now, h) == Ahead(rows, now, h)
    {
      Taken(rows, now, batch, keys, h);
    }
    if Refused(rows, keys) {
      var h :| h in keys && h in rows && rows[h].attempts >= rows[h].maxAttempts;
      assert RowBounded(rows[h]) && OutOfTries(rows[h], now);
    }
  }

  /** One batch is enough to get there: the job of a row with one try is applied, the completion
      fails, and once its lease is over the row is out of tries and every later claim that could take
      it is refused. */
  lemma FailedCompletionBlocks(k: Key, body: Body, now: int, batch: nat, later: int, keys: seq<Key>, retryBackoff: nat)
    requires now + LEASE < later && batch >= 1
    requires var q := Queue(map[k := UpsertRow(body, now, 1, now)], map[]);
             IsSelection(Batch(q, [k], now, [Applied(false)], retryBackoff).0.rows, later, batch, keys)
    ensures var q := Queue(map[k := UpsertRow(body, now, 1, now)], map[]);
            var q' := Batch(q, [k], now, [Applied(false)], retryBackoff).0;
            && IsSelection(q.rows, now, batch, [k])
            && Bounded(q'.rows) && NoTies(q'.rows, later) && k in q'.rows && OutOfTries(q'.rows[k], later)
            && Refused(q'.rows, keys)
  {
    var q := Queue(map[k := UpsertRow(body, now, 1, now)], map[]);
    var rows := ClaimRows(q.rows, [k], now);
    var jobs := JobsOf(rows, [k]);
    assert jobs[..0] == [] && k in [k];
    assert Work(q.(rows := rows), jobs, [Applied(false)], retryBackoff)
        == WorkOne(q.(rows := rows), Tally(0, 0, 0, true), jobs[0], Applied(false), retryBackoff);
    var q' := Batch(q, [k], now, [Applied(false)], retryBackoff).0;
    assert q'.rows == map[k := ClaimRow(UpsertRow(body, now, 1, now), now)];
    assert Ahead(q'.rows, later, k) == {};
    ClaimRefusedExactly(q'.rows, later, batch, keys);
  }

  /** Such a row blocks the whole queue while it is first in line: every claim selects it, so every
      batch is refused and changes nothing. */
  lemma StuckHeadBlocksEveryBatch(q: Queue, head: Key, now: int, batch: nat, keys: seq<Key>,
                                  answers: seq<Answer>, retryBackoff: nat)
    requires head in q.rows && Claimable(q.rows[head], now) && q.rows[head].attempts == q.rows[head].maxAttempts
    requires forall k :: k in q.rows && k != head && Claimable(q.rows[k], now) ==> !InOrder(q.rows[k], q.rows[head])
    requires batch >= 1 && IsSelection(q.rows, now, batch, keys) && |answers| >= |keys|
    ensures head in keys
    ensures Batch(q, keys, now, answers, retryBackoff) == (q, Tally(0, 0, 0, false))
  {
    if keys != [] {
      assert keys[0] in keys && Claimable(q.rows[keys[0]], now);
    }
  }

  // ---- One worker, status writes succeeding ------------------------------------------

  predicate Recorded(a: Answer) {
    match a
    case Applied(completed) => completed
    case NotApplied(recorded, _) => recorded
  }

  /** What working off claimed rows leaves: the first `n` jobs are closed or failed with a try
      left, everything else is as it was claimed. */
  ghost predicate WorkedOff(claimed: map<Key, Row>, keys: seq<Key>, n: nat, rows: map<Key, Row>)
    requires n <= |keys|
  {
    && rows.Keys == claimed.Keys
    && (forall k :: k in rows && k !in keys[..n] ==> rows[k] == claimed[k])
    && (forall k :: k in rows && k in keys[..n] ==> Settled(claimed[k], rows[k]))
  }

  /** A row after its job has been dealt with. */
  predicate Settled(claimed: Row, r: Row) {
    && r.attempts == claimed.attempts && r.maxAttempts == claimed.maxAttempts
    && (r.status == Processed || r.status == (if r.attempts >= r.maxAttempts then Dead else Failed))
  }

  lemma {:induction false} WorkSettles(q: Queue, keys: seq<Key>, jobs: seq<Job>, n: nat, answers: seq<Answer>, retryBackoff: nat)
    requires n <= |keys| <= |answers|
    requires forall i :: 0 <= i < |keys| ==> keys[i] in q.rows
    requires forall i, j :: 0 <= i < j < |keys| ==> keys[i] != keys[j]
    requires jobs == JobsOf(q.rows, keys)
    requires forall i :: 0 <= i < |keys| ==> Recorded(answers[i])
    ensures var (q', t) := Work(q, jobs[..n], answers, retryBackoff);
            t.ok && WorkedOff(q.rows, keys, n, q'.rows)
  {
    if n > 0 {
      WorkSettles(q, keys, jobs, n - 1, answers, retryBackoff);
      assert jobs[..n][..n - 1] == jobs[..n - 1];
      var (q', t) := Work(q, jobs[..n - 1], answers, retryBackoff);
      var k := keys[n - 1];
      assert k !in keys[..n - 1];
      assert q'.rows[k] == q.rows[k];
      assert keys[..n] == keys[..n - 1] + [k];
      OneMoreSettled(q, q', keys, n, t, jobs[n - 1], answers[n - 1], retryBackoff);
    }
  }

  lemma OneMoreSettled(q: Queue, q': Queue, keys: seq<Key>, n: nat, t: Tally, job: Job, a: Answer, retryBackoff: nat)
    requires 0 < n <= |keys| && keys[..n] == keys[..n - 1] + [keys[n - 1]]
    requires keys[n - 1] in q.rows && keys[n - 1] !in keys[..n - 1]
    requires WorkedOff(q.rows, keys, n - 1, q'.rows)
    requires job == JobOf(keys[n - 1], q.rows[keys[n - 1]]) && Recorded(a) && t.ok
    ensures WorkedOff(q.rows, keys, n, WorkOne(q', t, job, a, retryBackoff).0.rows)
    ensures WorkOne(q', t, job, a, retryBackoff).1.ok
  {}

  ghost predicate Between(rows: map<Key, Row>) {
    Bounded(rows) && NoneProcessing(rows)
  }

  lemma NeverRefused(rows: map<Key, Row>, now: int, batch: nat, keys: seq<Key>)
    requires Between(rows) && IsSelection(rows, now, batch, keys)
    ensures !Refused(rows, keys)
  {}

  lemma BatchWorksOff(q: Queue, now: int, batch: nat, keys: seq<Key>, answers: seq<Answer>, retryBackoff: nat)
    requires Between(q.rows) && IsSelection(q.rows, now, batch, keys) && |answers| >= |keys|
    requires forall i :: 0 <= i < |keys| ==> Recorded(answers[i])
    ensures var (q', t) := Batch(q, keys, now, answers, retryBackoff);
            t.ok && WorkedOff(ClaimRows(q.rows, keys, now), keys, |keys|, q'.rows)
  {
    NeverRefused(q.rows, now, batch, keys);
    var rows := ClaimRows(q.rows, keys, now);
    var jobs := JobsOf(rows, keys);
    WorkSettles(q.(rows := rows), keys, jobs, |keys|, answers, retryBackoff);
    assert jobs[..|keys|] == jobs;
  }

  /** One row over a whole batch. */
  lemma RowSpends(rows: map<Key, Row>, now: int, batch: nat, keys: seq<Key>, rows': map<Key, Row>, k: Key)
    requires Between(rows) && IsSelection(rows, now, batch, keys) && k in rows
    requires WorkedOff(ClaimRows(rows, keys, now), keys, |keys|, rows')
    ensures RowBounded(rows'[k]) && rows'[k].status != Processing
    ensures k !in keys ==> rows'[k] == rows[k]
    ensures k in keys ==> Left(rows'[k]) < Left(rows[k])
  {}

  /** With one worker whose status writes succeed, a batch is never refused, keeps every row within
      its attempts, leaves nothing in processing, and if it claimed anything the tries left over the
      whole queue strictly fall. */
  lemma BatchSpends(q: Queue, now: int, batch: nat, keys: seq<Key>, answers: seq<Answer>, retryBackoff: nat)
    requires Between(q.rows) && IsSelection(q.rows, now, batch, keys) && |answers| >= |keys|
    requires forall i :: 0 <= i < |keys| ==> Recorded(answers[i])
    ensures var (q', t) := Batch(q, keys, now, answers, retryBackoff);
            && t.ok && Between(q'.rows)
            && (keys != [] ==> Budget(q'.rows) < Budget(q.rows))
  {
    BatchWorksOff(q, now, batch, keys, answers, retryBackoff);
    var rows' := Batch(q, keys, now, answers, retryBackoff).0.rows;
    forall k | k in q.rows
      ensures RowBounded(rows'[k]) && rows'[k].status != Processing && Left(rows'[k]) <= Left(q.rows[k])
      ensures k in keys ==> Left(rows'[k]) < Left(q.rows[k])
    {
      RowSpends(q.rows, now, batch, keys, rows', k);
    }
    if keys != [] {
      assert keys[0] in keys;
      BudgetFalls(q.rows, rows', keys[0]);
    }
  }

  /** A batch that claims nothing although every row's time has come finds nothing left to do. */
  lemma EmptyBatchMeansDone(q: Queue, now: int, batch: nat)
    requires NoneProcessing(q.rows) && batch >= 1 && IsSelection(q.rows, now, batch, [])
    requires forall k :: k in q.rows ==> q.rows[k].availableAt <= now
    ensures forall k :: k in q.rows ==> q.rows[k].status == Processed || q.rows[k].status == Dead
  {}

  // ---- Runs of batches --------------------------------------------------------------

  datatype Round = Round(now: int, batch: nat, keys: seq<Key>, answers: seq<Answer>)

  ghost predicate RoundOf(q: Queue, r: Round) {
    && IsSelection(q.rows, r.now, r.batch, r.keys) && |r.answers| >= |r.keys|
    && forall i :: 0 <= i < |r.keys| ==> Recorded(r.answers[i])
  }

  /** The rounds follow one another from `q`, each claiming something. */
  ghost predicate Drains(q: Queue, rounds: seq<Round>, retryBackoff: nat)
    decreases |rounds|
  {
    rounds == [] ||
    (RoundOf(q, rounds[0]) && rounds[0].keys != [] &&
     Drains(Batch(q, rounds[0].keys, rounds[0].now, rounds[0].answers, retryBackoff).0, rounds[1..], retryBackoff))
  }

  /** However the batches fall and fail, there are at most as many non-empty ones as tries left. */
  lemma {:induction false} DrainIsBounded(q: Queue, rounds: seq<Round>, retryBackoff: nat)
    requires Between(q.rows) && Drains(q, rounds, retryBackoff)
    ensures |rounds| <= Budget(q.rows)
    decreases |rounds|
  {
    if rounds == [] {
      BudgetNotNegative(q.rows);
    } else {
      var r := rounds[0];
      BatchSpends(q, r.now, r.batch, r.keys, r.answers, retryBackoff);
      DrainIsBounded(Batch(q, r.keys, r.now, r.answers, retryBackoff).0, rounds[1..], retryBackoff);
    }
  }

  /** New enqueues keep the queue fit for draining. */
  lemma EnqueueKeepsBetween(rows: map<Key, Row>, k: Key, body: Body, createdAt: int, maxAttempts: nat, now: int)
    requires Between(rows) && maxAttempts >= 1
    ensures Between(rows[k := UpsertRow(body, createdAt, maxAttempts, now)])
    ensures Between(rows[k := DeleteRow(Get(rows, k), maxAttempts, now)])
  {}
}
