/** The search index and its coalescing job queue (internal/repository/postgres/search.go). The
    two tables are maps keyed by resource: the unique constraint allows one job row a resource, and
    a row keeps its id when it is enqueued again, so the key stands for the job's id. Times are
    milliseconds. */
module SearchQueue {
  import opened Wrappers
  import Backoff

  const LEASE := 5 * 60 * 1000
  const HOUR := 60 * 60 * 1000

  datatype ResourceType = Message | File | Channel | User

  datatype Key = Key(workspace: nat, kind: ResourceType, resource: nat)

  datatype Body = Body(channel: Option<nat>, title: string, content: string, metadata: string)

  /** The content fields of an indexed document. */
  datatype Doc = Doc(body: Body, createdAt: int)

  datatype Operation = Upsert | Delete

  datatype Status = Pending | Processing | Failed | Processed | Dead

  datatype Row = Row(op: Operation, body: Body, createdAt: int, status: Status,
                     attempts: nat, maxAttempts: nat, availableAt: int, lockedAt: Option<int>)

  /** A worker's copy of a claimed row. */
  datatype Job = Job(key: Key, op: Operation, body: Body, createdAt: int, attempts: nat, maxAttempts: nat)

  datatype Queue = Queue(rows: map<Key, Row>, index: map<Key, Doc>)

  const EMPTY_BODY := Body(None, "", "", "{}")

  // ---- Enqueueing ------------------------------------------------------------

  function UpsertRow(body: Body, createdAt: int, maxAttempts: nat, now: int): Row {
    Row(Upsert, body, createdAt, Pending, 0, maxAttempts, now, None)
  }

  /** A conflicting delete leaves the row's creation time alone. */
  function DeleteRow(old0: Option<Row>, maxAttempts: nat, now: int): Row {
    Row(Delete, EMPTY_BODY, if old0.Some? then old0.value.createdAt else now, Pending, 0, maxAttempts, now, None)
  }

  // ---- Claiming ----------------------------------------------------------------

  predicate Claimable(r: Row, now: int) {
    && r.availableAt <= now
    && (r.status == Pending || r.status == Failed
        || (r.status == Processing && r.lockedAt.Some? && r.lockedAt.value < now - LEASE))
  }

  /** ORDER BY available_at, created_at. */
  predicate InOrder(a: Row, b: Row) {
    a.availableAt < b.availableAt || (a.availableAt == b.availableAt && a.createdAt <= b.createdAt)
  }

  /** A query result: distinct claimable rows in order, at most `batch` of them, and no claimable
      row left out unless the batch is full of rows not after it. */
  ghost predicate IsSelection(rows: map<Key, Row>, now: int, batch: nat, keys: seq<Key>) {
    && |keys| <= batch
    && (forall i, j :: 0 <= i < j < |keys| ==> keys[i] != keys[j])
    && (forall i :: 0 <= i < |keys| ==> keys[i] in rows && Claimable(rows[keys[i]], now))
    && (forall i, j :: 0 <= i < j < |keys| ==> InOrder(rows[keys[i]], rows[keys[j]]))
    && (forall k :: k in rows && Claimable(rows[k], now) && k !in keys ==>
          |keys| == batch && forall i :: 0 <= i < |keys| ==> InOrder(rows[keys[i]], rows[k]))
  }

  function ClaimRow(r: Row, now: int): Row {
    r.(status := Processing, lockedAt := Some(now), attempts := r.attempts + 1)
  }

  function ClaimRows(rows: map<Key, Row>, keys: seq<Key>, now: int): map<Key, Row> {
    map k | k in rows :: if k in keys then ClaimRow(rows[k], now) else rows[k]
  }

  /** The table's check that attempts never exceed max_attempts
      (migrations/025_schema_hardening.sql) would be violated. */
  predicate Refused(rows: map<Key, Row>, keys: seq<Key>) {
    exists k :: k in keys && k in rows && rows[k].attempts >= rows[k].maxAttempts
  }

  function JobOf(k: Key, r: Row): Job {
    Job(k, r.op, r.body, r.createdAt, r.attempts, r.maxAttempts)
  }

  function JobsOf(rows: map<Key, Row>, keys: seq<Key>): (jobs: seq<Job>)
    requires forall i :: 0 <= i < |keys| ==> keys[i] in rows
    ensures |jobs| == |keys|
    ensures forall i :: 0 <= i < |keys| ==> jobs[i] == JobOf(keys[i], rows[keys[i]])
  {
    seq(|keys|, i requires 0 <= i < |keys| => JobOf(keys[i], rows[keys[i]]))
  }

  // ---- Applying, completing and failing a job --------------------------------------

  function DocOf(op: Operation, body: Body, createdAt: int): Option<Doc> {
    if op == Upsert then Some(Doc(body, createdAt)) else None
  }

  function Store(index: map<Key, Doc>, k: Key, doc: Option<Doc>): map<Key, Doc> {
    if doc.Some? then index[k := doc.value] else index - {k}
  }

  function ApplyJob(q: Queue, job: Job): Queue {
    q.(index := Store(q.index, job.key, DocOf(job.op, job.body, job.createdAt)))
  }

  /** Whatever the row holds by now, it becomes processed. */
  function CompleteJob(q: Queue, k: Key): Queue {
    if k in q.rows then q.(rows := q.rows[k := q.rows[k].(status := Processed, lockedAt := None)]) else q
  }

  function FailStatus(job: Job): Status {
    if job.attempts >= job.maxAttempts then Dead else Failed
  }

  function FailDelay(job: Job, retryBackoff: nat): int {
    if FailStatus(job) == Failed then Backoff.Delay(retryBackoff, HOUR, job.attempts) else 0
  }

  function FailJob(q: Queue, job: Job, retryBackoff: nat, at: int): Queue {
    if job.key in q.rows then
      q.(rows := q.rows[job.key := q.rows[job.key].(
           status := FailStatus(job), availableAt := at + FailDelay(job, retryBackoff), lockedAt := None)])
    else q
  }

  // ---- A batch -----------------------------------------------------------------------

  /** How the database answers a worker on one job: the index write succeeds and then the
      completion does or does not, or the index write fails and then recording that at time `at`
      does or does not. */
  datatype Answer = Applied(completed: bool) | NotApplied(recorded: bool, at: int)

  /** What ProcessPendingJobs returns; `ok` is false once a completion has failed. */
  datatype Tally = Tally(processed: nat, failed: nat, dead: nat, ok: bool)

  function WorkOne(q: Queue, t: Tally, job: Job, a: Answer, retryBackoff: nat): (Queue, Tally) {
    match a
    case Applied(completed) =>
      if completed then (CompleteJob(ApplyJob(q, job), job.key), t.(processed := t.processed + 1))
      else (ApplyJob(q, job), t.(ok := false))
    case NotApplied(recorded, at) =>
      (if recorded then FailJob(q, job, retryBackoff, at) else q,
       if FailStatus(job) == Dead then t.(dead := t.dead + 1) else t.(failed := t.failed + 1))
  }

  /** The jobs in order, up to the first completion that fails. */
  function Work(q: Queue, jobs: seq<Job>, answers: seq<Answer>, retryBackoff: nat): (Queue, Tally)
    requires |answers| >= |jobs|
  {
    if jobs == [] then (q, Tally(0, 0, 0, true))
    else
      var n := |jobs| - 1;
      var (q', t) := Work(q, jobs[..n], answers, retryBackoff);
      if t.ok then WorkOne(q', t, jobs[n], answers[n], retryBackoff) else (q', t)
  }

  /** One ProcessPendingJobs once the rows to claim are selected; a refused claim changes nothing. */
  function Batch(q: Queue, keys: seq<Key>, now: int, answers: seq<Answer>, retryBackoff: nat): (Queue, Tally)
    requires |answers| >= |keys|
    requires forall i :: 0 <= i < |keys| ==> keys[i] in q.rows
  {
    if Refused(q.rows, keys) then (q, Tally(0, 0, 0, false))
    else
      var rows := ClaimRows(q.rows, keys, now);
      Work(q.(rows := rows), JobsOf(rows, keys), answers, retryBackoff)
  }

  lemma ClaimOneMore(rows: map<Key, Row>, keys: seq<Key>, k: Key, now: int)
    requires k in rows && k !in keys
    ensures ClaimRows(rows, keys + [k], now) == ClaimRows(rows, keys, now)[k := ClaimRow(rows[k], now)]
    ensures Refused(rows, keys + [k]) <==> Refused(rows, keys) || rows[k].attempts >= rows[k].maxAttempts
  {}

  /** A batch that has stopped stays stopped. */
  lemma {:induction false} WorkStopped(q: Queue, jobs: seq<Job>, answers: seq<Answer>, retryBackoff: nat, n: nat)
    requires n <= |jobs| <= |answers|
    requires !Work(q, jobs[..n], answers, retryBackoff).1.ok
    ensures Work(q, jobs, answers, retryBackoff) == Work(q, jobs[..n], answers, retryBackoff)
  {
    if n == |jobs| {
      assert jobs[..n] == jobs;
    } else {
      assert jobs[..|jobs| - 1][..n] == jobs[..n];
      WorkStopped(q, jobs[..|jobs| - 1], answers, retryBackoff, n);
    }
  }

  // ---- The repository -----------------------------------------------------------------

  class SearchRepo {
    const maxAttempts: nat
    const retryBackoff: nat
    var rows: map<Key, Row>
    var index: map<Key, Doc>

    constructor (maxAttempts: int, retryBackoff: int)
      ensures this.maxAttempts == (if maxAttempts <= 0 then 8 else maxAttempts)
      ensures this.retryBackoff == (if retryBackoff <= 0 then 5000 else retryBackoff)
      ensures View() == Queue(map[], map[])
    {
      this.maxAttempts := if maxAttempts <= 0 then 8 else maxAttempts;
      this.retryBackoff := if retryBackoff <= 0 then 5000 else retryBackoff;
      rows, index := map[], map[];
    }

    function View(): Queue
      reads this
    {
      Queue(rows, index)
    }

    method EnqueueUpsert(k: Key, body: Body, createdAt: int, now: int)
      modifies this`rows
      ensures rows == old(rows)[k := UpsertRow(body, createdAt, maxAttempts, now)]
    {
      rows := rows[k := Row(Upsert, body, createdAt, Pending, 0, maxAttempts, now, None)];
    }

    method EnqueueDelete(k: Key, now: int)
      modifies this`rows
      ensures rows == old(rows)[k := DeleteRow(Get(old(rows), k), maxAttempts, now)]
    {
      if k in rows {
        rows := rows[k := rows[k].(op := Delete, body := EMPTY_BODY, status := Pending, attempts := 0,
                                   maxAttempts := maxAttempts, availableAt := now, lockedAt := None)];
      } else {
        rows := rows[k := Row(Delete, EMPTY_BODY, now, Pending, 0, maxAttempts, now, None)];
      }
    }

    /** The claim's query: repeatedly the first of the claimable rows that are left. */
    method SelectRows(now: int, batch: nat) returns (keys: seq<Key>)
      ensures IsSelection(rows, now, batch, keys)
    {
      keys := [];
      var left := set k | k in rows && Claimable(rows[k], now);
      while left != {} && |keys| < batch
        invariant |keys| <= batch
        invariant forall k :: k in rows && Claimable(rows[k], now) <==> k in left || k in keys
        invariant forall i :: 0 <= i < |keys| ==> keys[i] !in left
        invariant forall i, j :: 0 <= i < j < |keys| ==> keys[i] != keys[j]
        invariant forall i, j :: 0 <= i < j < |keys| ==> InOrder(rows[keys[i]], rows[keys[j]])
        invariant forall i, k :: 0 <= i < |keys| && k in left ==> InOrder(rows[keys[i]], rows[k])
        decreases left
      {
        var k := First(left);
        keys := keys + [k];
        left := left - {k};
      }
    }

    method First(left: set<Key>) returns (first: Key)
      requires left != {} && forall k :: k in left ==> k in rows
      ensures first in left && forall k :: k in left ==> InOrder(rows[first], rows[k])
    {
      first :| first in left;
      var todo := left - {first};
      while todo != {}
        invariant first in left && todo <= left
        invariant forall k :: k in left - todo ==> InOrder(rows[first], rows[k])
      {
        var k :| k in todo;
        if !InOrder(rows[first], rows[k]) {
          first := k;
        }
        todo := todo - {k};
      }
    }

    /** The claim's updates, row by row; a refused one leaves the loop. */
    method UpdateRows(keys: seq<Key>, now: int) returns (ok: bool, next: map<Key, Row>)
      requires forall i :: 0 <= i < |keys| ==> keys[i] in rows
      requires forall i, j :: 0 <= i < j < |keys| ==> keys[i] != keys[j]
      ensures ok == !Refused(rows, keys)
      ensures ok ==> next == ClaimRows(rows, keys, now)
    {
      next := rows;
      for i := 0 to |keys|
        invariant next == ClaimRows(rows, keys[..i], now)
        invariant !Refused(rows, keys[..i])
      {
        var k := keys[i];
        assert k !in keys[..i];
        if next[k].attempts >= next[k].maxAttempts {
          assert k in keys;
          return false, next;
        }
        assert keys[..i + 1] == keys[..i] + [k];
        ClaimOneMore(rows, keys[..i], k, now);
        next := next[k := ClaimRow(next[k], now)];
      }
      assert keys[..|keys|] == keys;
      ok := true;
    }

    /** A refused claim is rolled back. */
    method ClaimPendingJobs(now: int, batch: nat) returns (ok: bool, jobs: seq<Job>, ghost keys: seq<Key>)
      modifies this`rows
      ensures IsSelection(old(rows), now, batch, keys)
      ensures ok == !Refused(old(rows), keys)
      ensures !ok ==> rows == old(rows)
      ensures ok ==> rows == ClaimRows(old(rows), keys, now) && jobs == JobsOf(rows, keys)
    {
      var selected := SelectRows(now, batch);
      keys := selected;
      jobs := [];
      var next;
      ok, next := UpdateRows(selected, now);
      if ok {
        rows := next;
        jobs := JobsOf(rows, selected);
      }
    }

    method Apply(job: Job)
      modifies this`index
      ensures View() == ApplyJob(old(View()), job)
    {
      match job.op
      case Upsert => index := index[job.key := Doc(job.body, job.createdAt)];
      case Delete => index := index - {job.key};
    }

    method Complete(k: Key)
      modifies this`rows
      ensures View() == CompleteJob(old(View()), k)
    {
      if k in rows {
        rows := rows[k := rows[k].(status := Processed, lockedAt := None)];
      }
    }

    method Fail(job: Job, status: Status, at: int)
      requires status == FailStatus(job)
      modifies this`rows
      ensures View() == FailJob(old(View()), job, retryBackoff, at)
    {
      var delay := 0;
      if status == Failed {
        delay := Backoff.RetryDelay(retryBackoff, HOUR, job.attempts);
      }
      if job.key in rows {
        rows := rows[job.key := rows[job.key].(status := status, availableAt := at + delay, lockedAt := None)];
      }
    }

    /** One job of a batch. */
    method Process(job: Job, a: Answer, t0: Tally) returns (t: Tally)
      modifies this
      ensures (View(), t) == WorkOne(old(View()), t0, job, a, retryBackoff)
    {
      t := t0;
      match a
      case NotApplied(recorded, at) =>
        var status := Failed;
        if job.attempts >= job.maxAttempts {
          status := Dead;
          t := t.(dead := t.dead + 1);
        } else {
          t := t.(failed := t.failed + 1);
        }
        if recorded {
          Fail(job, status, at);
        }
      case Applied(completed) =>
        Apply(job);
        if !completed {
          t := t.(ok := false);
        } else {
          Complete(job.key);
          t := t.(processed := t.processed + 1);
        }
    }

    method ProcessPendingJobs(now: int, batch: nat, answers: seq<Answer>) returns (t: Tally, ghost keys: seq<Key>)
      requires |answers| >= batch
      modifies this
      ensures IsSelection(old(rows), now, batch, keys)
      ensures (View(), t) == Batch(old(View()), keys, now, answers, retryBackoff)
    {
      var ok, jobs;
      ok, jobs, keys := ClaimPendingJobs(now, batch);
      t := Tally(0, 0, 0, ok);
      if !ok {
        return;
      }
      ghost var q := View();
      for i := 0 to |jobs|
        invariant |jobs| == |keys| && t.ok
        invariant (View(), t) == Work(q, jobs[..i], answers, retryBackoff)
      {
        assert jobs[..i + 1][..i] == jobs[..i];
        t := Process(jobs[i], answers[i], t);
        if !t.ok {
          WorkStopped(q, jobs, answers, retryBackoff, i + 1);
          return;
        }
      }
      assert jobs[..|jobs|] == jobs;
    }
  }
}
