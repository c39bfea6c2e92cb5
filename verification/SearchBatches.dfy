/** What a whole batch does, job by job, whatever fails in it; and when a row is locked. */
module SearchBatches {
  import opened Wrappers
  import opened SearchQueue
  import opened SearchAgreement
  import Backoff

  /** No completion before position `i` fails: the worker gets that far. */
  predicate Gets(answers: seq<Answer>, i: nat)
    requires i <= |answers|
  {
    i == 0 || (Gets(answers, i - 1) && answers[i - 1] != Applied(false))
  }

  /** The row a worked-off job leaves. */
  function RowLeft(r: Row, a: Answer, retryBackoff: nat): Row {
    match a
    case Applied(true) => r.(status := Processed, lockedAt := None)
    case NotApplied(true, at) =>
      if r.attempts < r.maxAttempts
      then r.(status := Failed, lockedAt := None, availableAt := at + Backoff.Delay(retryBackoff, 3600000, r.attempts))
      else r.(status := Dead, lockedAt := None, availableAt := at)
    case _ => r
  }

  /** The index entry it leaves: the index is written even if the completion then fails. */
  function EntryLeft(r: Row, a: Answer, was: Option<Doc>): Option<Doc> {
    match a
    case Applied(_) => if r.op == Upsert then Some(Doc(r.body, r.createdAt)) else None
    case _ => was
  }

  ghost predicate LeftAt(q: Queue, q': Queue, k: Key, reached: bool, a: Answer, retryBackoff: nat)
    requires k in q.rows && k in q'.rows
  {
    if reached then
      && q'.rows[k] == RowLeft(q.rows[k], a, retryBackoff)
      && Get(q'.index, k) == EntryLeft(q.rows[k], a, Get(q.index, k))
    else q'.rows[k] == q.rows[k] && Get(q'.index, k) == Get(q.index, k)
  }

  ghost predicate Untouched(q: Queue, q': Queue, k: Key) {
    Get(q'.rows, k) == Get(q.rows, k) && Get(q'.index, k) == Get(q.index, k)
  }

  predicate GivesUp(r: Row, a: Answer) {
    a.NotApplied? && r.attempts >= r.maxAttempts
  }

  /** The first `n` positions the worker gets to whose answer is of the kind. */
  ghost function Done(answers: seq<Answer>, n: nat): set<nat>
    requires n <= |answers|
  {
    set i: nat | i < n && Gets(answers, i) && answers[i] == Applied(true)
  }

  predicate FailsAt(r: Row, answers: seq<Answer>, i: nat, forGood: bool)
    requires i < |answers|
  {
    Gets(answers, i) && answers[i].NotApplied? && (GivesUp(r, answers[i]) <==> forGood)
  }

  function RowsAt(q: Queue, keys: seq<Key>): (rows: seq<Row>)
    requires forall i :: 0 <= i < |keys| ==> keys[i] in q.rows
    ensures |rows| == |keys| && forall i :: 0 <= i < |keys| ==> rows[i] == q.rows[keys[i]]
  {
    seq(|keys|, i requires 0 <= i < |keys| => q.rows[keys[i]])
  }

  ghost function Failing(rows: seq<Row>, answers: seq<Answer>, n: nat, forGood: bool): set<nat>
    requires n <= |rows| <= |answers|
  {
    set i: nat | i < n && FailsAt(rows[i], answers, i, forGood)
  }

  ghost predicate TallyIs(rows: seq<Row>, answers: seq<Answer>, n: nat, t: Tally)
    requires n <= |rows| <= |answers|
  {
    && t.processed == |Done(answers, n)| && t.dead == |Failing(rows, answers, n, true)|
    && t.failed == |Failing(rows, answers, n, false)| && (t.ok <==> Gets(answers, n))
  }

  ghost predicate WorkedUpTo(q: Queue, q': Queue, keys: seq<Key>, answers: seq<Answer>, n: nat, retryBackoff: nat)
    requires n <= |keys| <= |answers| && forall i :: 0 <= i < |keys| ==> keys[i] in q.rows
  {
    && q'.rows.Keys == q.rows.Keys
    && (forall i :: 0 <= i < n ==> LeftAt(q, q', keys[i], Gets(answers, i), answers[i], retryBackoff))
    && (forall k :: k !in keys[..n] ==> Untouched(q, q', k))
  }

  lemma OneMore(a: set<nat>, b: set<nat>, n: nat, more: bool)
    requires n !in a && forall i: nat :: i in b <==> i in a || (more && i == n)
    ensures |b| == |a| + if more then 1 else 0
  {
    assert b == if more then a + {n} else a;
  }

  lemma DoneGrows(answers: seq<Answer>, n: nat)
    requires 0 < n <= |answers|
    ensures |Done(answers, n)| == |Done(answers, n - 1)| + if Gets(answers, n - 1) && answers[n - 1] == Applied(true) then 1 else 0
  {
    OneMore(Done(answers, n - 1), Done(answers, n), n - 1, Gets(answers, n - 1) && answers[n - 1] == Applied(true));
  }

  lemma FailingGrows(rows: seq<Row>, answers: seq<Answer>, n: nat, forGood: bool)
    requires 0 < n <= |rows| <= |answers|
    ensures |Failing(rows, answers, n, forGood)| ==
            |Failing(rows, answers, n - 1, forGood)| + if FailsAt(rows[n - 1], answers, n - 1, forGood) then 1 else 0
  {
    OneMore(Failing(rows, answers, n - 1, forGood), Failing(rows, answers, n, forGood), n - 1,
            FailsAt(rows[n - 1], answers, n - 1, forGood));
  }

  lemma TallyGrows(rows: seq<Row>, answers: seq<Answer>, n: nat, t: Tally, t': Tally)
    requires 0 < n <= |rows| <= |answers| && TallyIs(rows, answers, n - 1, t)
    requires var r, a := rows[n - 1], answers[n - 1];
             if !t.ok then t' == t
             else match a
               case Applied(true) => t' == t.(processed := t.processed + 1)
               case Applied(false) => t' == t.(ok := false)
               case NotApplied(_, _) =>
                 t' == if r.attempts >= r.maxAttempts then t.(dead := t.dead + 1) else t.(failed := t.failed + 1)
    ensures TallyIs(rows, answers, n, t')
  {
    DoneGrows(answers, n);
    FailingGrows(rows, answers, n, true);
    FailingGrows(rows, answers, n, false);
  }

  /** One job more. */
  lemma OneJobLeaves(q: Queue, q': Queue, t: Tally, k: Key, a: Answer, retryBackoff: nat)
    requires k in q.rows && k in q'.rows && Untouched(q, q', k)
    ensures var q'' := WorkOne(q', t, JobOf(k, q.rows[k]), a, retryBackoff).0;
            && q''.rows.Keys == q'.rows.Keys && LeftAt(q, q'', k, true, a, retryBackoff)
            && forall x :: x != k ==> Untouched(q', q'', x)
  {
    Stored(q'.index, k, DocOf(q.rows[k].op, q.rows[k].body, q.rows[k].createdAt), k);
    forall x | x != k ensures Untouched(q', WorkOne(q', t, JobOf(k, q.rows[k]), a, retryBackoff).0, x) {
      Stored(q'.index, k, DocOf(q.rows[k].op, q.rows[k].body, q.rows[k].createdAt), x);
    }
  }

  lemma WorkedOneMore(q: Queue, q': Queue, q'': Queue, keys: seq<Key>, answers: seq<Answer>, n: nat, retryBackoff: nat)
    requires 0 < n <= |keys| <= |answers| && forall i :: 0 <= i < |keys| ==> keys[i] in q.rows
    requires forall i, j :: 0 <= i < j < |keys| ==> keys[i] != keys[j]
    requires WorkedUpTo(q, q', keys, answers, n - 1, retryBackoff)
    requires q''.rows.Keys == q'.rows.Keys && LeftAt(q, q'', keys[n - 1], Gets(answers, n - 1), answers[n - 1], retryBackoff)
    requires forall x :: x != keys[n - 1] ==> Untouched(q', q'', x)
    ensures WorkedUpTo(q, q'', keys, answers, n, retryBackoff)
  {
    assert keys[..n] == keys[..n - 1] + [keys[n - 1]];
    forall i | 0 <= i < n ensures LeftAt(q, q'', keys[i], Gets(answers, i), answers[i], retryBackoff) {
      if i < n - 1 {
        StillLeft(q, q', q'', keys[i], Gets(answers, i), answers[i], retryBackoff);
      }
    }
    forall k | k !in keys[..n] ensures Untouched(q, q'', k) {
      assert Untouched(q, q', k) && Untouched(q', q'', k);
    }
  }

  lemma StillLeft(q: Queue, q': Queue, q'': Queue, k: Key, reached: bool, a: Answer, retryBackoff: nat)
    requires k in q.rows && k in q'.rows && k in q''.rows
    requires LeftAt(q, q', k, reached, a, retryBackoff) && Untouched(q', q'', k)
    ensures LeftAt(q, q'', k, reached, a, retryBackoff)
  {}

  lemma {:induction false} WorkExactly(q: Queue, keys: seq<Key>, jobs: seq<Job>, n: nat, answers: seq<Answer>, retryBackoff: nat)
    requires n <= |keys| <= |answers| && forall i :: 0 <= i < |keys| ==> keys[i] in q.rows
    requires forall i, j :: 0 <= i < j < |keys| ==> keys[i] != keys[j]
    requires jobs == JobsOf(q.rows, keys)
    ensures var (q', t) := Work(q, jobs[..n], answers, retryBackoff);
            WorkedUpTo(q, q', keys, answers, n, retryBackoff) && TallyIs(RowsAt(q, keys), answers, n, t)
  {
    if n > 0 {
      WorkExactly(q, keys, jobs, n - 1, answers, retryBackoff);
      assert jobs[..n][..n - 1] == jobs[..n - 1];
      var (q', t) := Work(q, jobs[..n - 1], answers, retryBackoff);
      var k := keys[n - 1];
      assert k !in keys[..n - 1] && Untouched(q, q', k);
      OneJobLeaves(q, q', t, k, answers[n - 1], retryBackoff);
      var (q'', t') := Work(q, jobs[..n], answers, retryBackoff);
      WorkedOneMore(q, q', q'', keys, answers, n, retryBackoff);
      TallyGrows(RowsAt(q, keys), answers, n, t, t');
    }
  }

  /** A whole batch that is not refused: up to the first completion that fails, each job leaves its row and its
      index entry as its answer says; later ones stay claimed; no other key is touched; and the counts are the
      numbers of jobs that went each way. */
  lemma BatchExactly(q: Queue, keys: seq<Key>, now: int, answers: seq<Answer>, retryBackoff: nat)
    requires |answers| >= |keys| && forall i :: 0 <= i < |keys| ==> keys[i] in q.rows
    requires forall i, j :: 0 <= i < j < |keys| ==> keys[i] != keys[j]
    requires forall k :: k in keys && k in q.rows ==> q.rows[k].attempts < q.rows[k].maxAttempts
    ensures var claimed := q.(rows := ClaimRows(q.rows, keys, now));
            var (q', t) := Batch(q, keys, now, answers, retryBackoff);
            && WorkedUpTo(claimed, q', keys, answers, |keys|, retryBackoff) && TallyIs(RowsAt(claimed, keys), answers, |keys|, t)
  {
    var claimed := q.(rows := ClaimRows(q.rows, keys, now));
    var jobs := JobsOf(claimed.rows, keys);
    WorkExactly(claimed, keys, jobs, |keys|, answers, retryBackoff);
    assert jobs[..|keys|] == jobs;
  }

  // ---- Locks -----------------------------------------------------------------------------

  /** A row is locked exactly while a worker has it. */
  ghost predicate LocksSound(rows: map<Key, Row>) {
    forall k :: k in rows ==> (rows[k].lockedAt.Some? <==> rows[k].status == Processing)
  }

  lemma WorkOneKeepsLocks(q: Queue, t: Tally, job: Job, a: Answer, retryBackoff: nat)
    requires LocksSound(q.rows)
    ensures LocksSound(WorkOne(q, t, job, a, retryBackoff).0.rows)
  {}

  lemma {:induction false} WorkKeepsLocks(q: Queue, jobs: seq<Job>, answers: seq<Answer>, retryBackoff: nat)
    requires LocksSound(q.rows) && |answers| >= |jobs|
    ensures LocksSound(Work(q, jobs, answers, retryBackoff).0.rows)
  {
    if jobs != [] {
      var n := |jobs| - 1;
      WorkKeepsLocks(q, jobs[..n], answers, retryBackoff);
      var (q', t) := Work(q, jobs[..n], answers, retryBackoff);
      WorkOneKeepsLocks(q', t, jobs[n], answers[n], retryBackoff);
    }
  }

  /** Over every run of enqueues and batches. */
  lemma {:induction false} RunKeepsLocks(c: Config, index: Direct, events: seq<Event>, q: Queue)
    requires Reaches(c, index, events, q)
    ensures LocksSound(q.rows)
  {
    if events != [] {
      var n := |events| - 1;
      var p :| ReachesVia(c, index, events, p, q);
      RunKeepsLocks(c, index, events[..n], p);
      match events[n]
      case EnqueueUpsert(_, _, _, _) =>
      case EnqueueDelete(_, _) =>
      case ProcessBatch(keys, now, answers) =>
        if !Refused(p.rows, keys) {
          var rows := ClaimRows(p.rows, keys, now);
          WorkKeepsLocks(p.(rows := rows), JobsOf(rows, keys), answers, c.retryBackoff);
        }
    }
  }

  /** Enqueueing puts a key in line as of now, with all its tries and no lock, whatever its row was; a deletion
      keeps the creation time the key had. */
  lemma EnqueuedInLine(c: Config, q: Queue, e: Event, k: Key)
    requires (e.EnqueueUpsert? || e.EnqueueDelete?) && Possible(q, e) && e.key == k
    ensures var q' := Apply(c, q, e);
            && k in q'.rows && q'.index == q.index && (forall x :: x != k ==> Get(q'.rows, x) == Get(q.rows, x))
            && var r := q'.rows[k];
               && r.status == Pending && r.attempts == 0 && r.maxAttempts == c.maxAttempts
               && r.availableAt == e.now && r.lockedAt == None
               && r.op == (if e.EnqueueUpsert? then Upsert else Delete)
               && r.createdAt == if e.EnqueueUpsert? then e.createdAt
                                 else if k in q.rows then q.rows[k].createdAt else e.now
  {}
}
