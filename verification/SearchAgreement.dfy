/** The search index agrees with applying every enqueue at once: over every run of atomic steps, and
    over every interleaving of workers in which nobody writes on behalf of an overtaken job. */
module SearchAgreement {
  import opened Wrappers
  import opened SearchQueue

  /** The direct index: each enqueue applied at once. */
  type Direct = map<Key, Doc>

  function RowDoc(r: Row): Option<Doc> {
    DocOf(r.op, r.body, r.createdAt)
  }

  /** Every row holds its key's last enqueue, and the index is up to date for every key whose row
      is processed or absent. */
  ghost predicate Agrees(q: Queue, direct: Direct) {
    forall k :: AgreesAt(q, direct, k)
  }

  ghost predicate AgreesAt(q: Queue, direct: Direct, k: Key) {
    && (k in q.rows ==> RowDoc(q.rows[k]) == Get(direct, k))
    && (k !in q.rows || q.rows[k].status == Processed ==> Get(q.index, k) == Get(direct, k))
  }

  /** The index overlaid with the jobs that are still to be done. */
  function Overlay(q: Queue, k: Key): Option<Doc> {
    if k in q.rows && q.rows[k].status != Processed then RowDoc(q.rows[k]) else Get(q.index, k)
  }

  lemma OverlayIsDirect(q: Queue, direct: Direct, k: Key)
    requires Agrees(q, direct)
    ensures Overlay(q, k) == Get(direct, k)
  {
    assert AgreesAt(q, direct, k);
  }

  /** Once no job is left to do, the index is the direct index. */
  lemma SettledIndexIsDirect(q: Queue, direct: Direct)
    requires Agrees(q, direct)
    requires forall k :: k in q.rows ==> q.rows[k].status == Processed
    ensures q.index == direct
  {
    forall k | k in q.index.Keys + direct.Keys
      ensures k in q.index && k in direct && q.index[k] == direct[k]
    {
      assert AgreesAt(q, direct, k);
    }
  }

  // ---- Each step ------------------------------------------------------------------

  lemma EnqueueAgrees(q: Queue, direct: Direct, k: Key, r: Row)
    requires Agrees(q, direct) && r.status == Pending
    ensures Agrees(q.(rows := q.rows[k := r]), Store(direct, k, RowDoc(r)))
  {
    var q', direct' := q.(rows := q.rows[k := r]), Store(direct, k, RowDoc(r));
    forall x ensures AgreesAt(q', direct', x) {
      assert AgreesAt(q, direct, x);
    }
  }

  lemma ClaimAgrees(q: Queue, direct: Direct, keys: seq<Key>, now: int)
    requires Agrees(q, direct)
    ensures Agrees(q.(rows := ClaimRows(q.rows, keys, now)), direct)
  {
    var q' := q.(rows := ClaimRows(q.rows, keys, now));
    forall x ensures AgreesAt(q', direct, x) {
      assert AgreesAt(q, direct, x);
    }
  }

  /** Recording a failure never disturbs the agreement, however late it comes. */
  lemma FailAgrees(q: Queue, direct: Direct, job: Job, retryBackoff: nat, at: int)
    requires Agrees(q, direct)
    ensures Agrees(FailJob(q, job, retryBackoff, at), direct)
  {
    forall x ensures AgreesAt(FailJob(q, job, retryBackoff, at), direct, x) {
      assert AgreesAt(q, direct, x);
    }
  }

  function JobDoc(job: Job): Option<Doc> {
    DocOf(job.op, job.body, job.createdAt)
  }

  lemma Stored(index: map<Key, Doc>, k: Key, doc: Option<Doc>, x: Key)
    ensures Get(Store(index, k, doc), x) == if x == k then doc else Get(index, x)
  {}

  /** Writing the index on behalf of a job is harmless exactly when the row is still to be done or
      the job holds what the row holds. */
  lemma ApplyAgreesExactly(q: Queue, direct: Direct, job: Job)
    requires Agrees(q, direct) && job.key in q.rows
    ensures Agrees(ApplyJob(q, job), direct) <==>
            q.rows[job.key].status != Processed || JobDoc(job) == RowDoc(q.rows[job.key])
  {
    forall x | x != job.key ensures AgreesAt(ApplyJob(q, job), direct, x) {
      Stored(q.index, job.key, JobDoc(job), x);
      assert AgreesAt(q, direct, x);
    }
    Stored(q.index, job.key, JobDoc(job), job.key);
    assert AgreesAt(q, direct, job.key);
    if Agrees(ApplyJob(q, job), direct) {
      assert AgreesAt(ApplyJob(q, job), direct, job.key);
    }
  }

  /** Marking a row processed is harmless exactly when the index already holds what the row holds. */
  lemma CompleteAgreesExactly(q: Queue, direct: Direct, k: Key)
    requires Agrees(q, direct) && k in q.rows
    ensures Agrees(CompleteJob(q, k), direct) <==> Get(q.index, k) == RowDoc(q.rows[k])
  {
    forall x | x != k ensures AgreesAt(CompleteJob(q, k), direct, x) {
      assert AgreesAt(q, direct, x);
    }
    assert AgreesAt(q, direct, k);
    if Agrees(CompleteJob(q, k), direct) {
      assert AgreesAt(CompleteJob(q, k), direct, k);
    }
  }

  /** The lost update, exactly: finishing a claimed job keeps the agreement if and only if the row
      has not been enqueued again with other content since the claim. The completion does not
      look. */
  lemma FinishAgreesExactly(q: Queue, direct: Direct, job: Job)
    requires Agrees(q, direct) && job.key in q.rows
    ensures Agrees(CompleteJob(ApplyJob(q, job), job.key), direct) <==> JobDoc(job) == RowDoc(q.rows[job.key])
  {
    Stored(q.index, job.key, JobDoc(job), job.key);
    var t := CompleteJob(ApplyJob(q, job), job.key);
    assert t.rows[job.key].status == Processed && RowDoc(t.rows[job.key]) == RowDoc(q.rows[job.key]);
    assert AgreesAt(q, direct, job.key);
    if Agrees(t, direct) {
      assert AgreesAt(t, direct, job.key);
    } else {
      var x :| !AgreesAt(t, direct, x);
      Stored(q.index, job.key, JobDoc(job), x);
      assert AgreesAt(q, direct, x);
    }
  }

  // ---- Atomic runs -------------------------------------------------------------------

  ghost predicate JobsCurrent(q: Queue, jobs: seq<Job>) {
    forall i :: 0 <= i < |jobs| ==> jobs[i].key in q.rows && JobDoc(jobs[i]) == RowDoc(q.rows[jobs[i].key])
  }

  /** A batch changes what no row holds. */
  ghost predicate SameContent(rows: map<Key, Row>, rows': map<Key, Row>) {
    rows'.Keys == rows.Keys && forall k :: k in rows ==> RowDoc(rows'[k]) == RowDoc(rows[k])
  }

  lemma WorkOneAgrees(q: Queue, direct: Direct, t: Tally, job: Job, a: Answer, retryBackoff: nat)
    requires Agrees(q, direct) && job.key in q.rows && JobDoc(job) == RowDoc(q.rows[job.key])
    ensures Agrees(WorkOne(q, t, job, a, retryBackoff).0, direct)
    ensures SameContent(q.rows, WorkOne(q, t, job, a, retryBackoff).0.rows)
  {
    match a
    case Applied(_) =>
      ApplyAgreesExactly(q, direct, job);
      FinishAgreesExactly(q, direct, job);
    case NotApplied(_, at) =>
      FailAgrees(q, direct, job, retryBackoff, at);
  }

  lemma {:induction false} WorkAgrees(q: Queue, direct: Direct, jobs: seq<Job>, answers: seq<Answer>, retryBackoff: nat)
    requires Agrees(q, direct) && JobsCurrent(q, jobs) && |answers| >= |jobs|
    ensures Agrees(Work(q, jobs, answers, retryBackoff).0, direct)
    ensures SameContent(q.rows, Work(q, jobs, answers, retryBackoff).0.rows)
  {
    if jobs != [] {
      var n := |jobs| - 1;
      WorkAgrees(q, direct, jobs[..n], answers, retryBackoff);
      var (q', t) := Work(q, jobs[..n], answers, retryBackoff);
      assert jobs[n].key in q.rows && JobDoc(jobs[n]) == RowDoc(q.rows[jobs[n].key]);
      WorkOneAgrees(q', direct, t, jobs[n], answers[n], retryBackoff);
    }
  }

  /** Whatever fails in a batch, the agreement survives it. */
  lemma BatchAgrees(q: Queue, direct: Direct, keys: seq<Key>, now: int, answers: seq<Answer>, retryBackoff: nat)
    requires Agrees(q, direct) && |answers| >= |keys|
    requires forall i :: 0 <= i < |keys| ==> keys[i] in q.rows
    ensures Agrees(Batch(q, keys, now, answers, retryBackoff).0, direct)
  {
    if !Refused(q.rows, keys) {
      ClaimAgrees(q, direct, keys, now);
      var rows := ClaimRows(q.rows, keys, now);
      WorkAgrees(q.(rows := rows), direct, JobsOf(rows, keys), answers, retryBackoff);
    }
  }

  datatype Event =
    | EnqueueUpsert(key: Key, body: Body, createdAt: int, now: int)
    | EnqueueDelete(key: Key, now: int)
    | ProcessBatch(keys: seq<Key>, now: int, answers: seq<Answer>)

  datatype Config = Config(maxAttempts: nat, retryBackoff: nat)

  ghost predicate Possible(q: Queue, e: Event) {
    e.ProcessBatch? ==> |e.answers| >= |e.keys| && exists batch: nat :: IsSelection(q.rows, e.now, batch, e.keys)
  }

  ghost function Apply(c: Config, q: Queue, e: Event): Queue
    requires Possible(q, e)
  {
    match e
    case EnqueueUpsert(k, body, createdAt, now) =>
      q.(rows := q.rows[k := UpsertRow(body, createdAt, c.maxAttempts, now)])
    case EnqueueDelete(k, now) =>
      q.(rows := q.rows[k := DeleteRow(Get(q.rows, k), c.maxAttempts, now)])
    case ProcessBatch(keys, now, answers) =>
      Batch(q, keys, now, answers, c.retryBackoff).0
  }

  /** What an event does to the direct index. */
  function Direct1(direct: Direct, e: Event): Direct {
    match e
    case EnqueueUpsert(k, body, createdAt, _) => direct[k := Doc(body, createdAt)]
    case EnqueueDelete(k, _) => direct - {k}
    case ProcessBatch(_, _, _) => direct
  }

  function DirectOf(index: Direct, events: seq<Event>): Direct {
    if events == [] then index
    else Direct1(DirectOf(index, events[..|events| - 1]), events[|events| - 1])
  }

  /** `q` is reached from an empty queue over `index` by the events. */
  ghost predicate Reaches(c: Config, index: Direct, events: seq<Event>, q: Queue)
    decreases |events|, 1
  {
    if events == [] then q == Queue(map[], index)
    else exists p :: ReachesVia(c, index, events, p, q)
  }

  ghost predicate ReachesVia(c: Config, index: Direct, events: seq<Event>, p: Queue, q: Queue)
    requires events != []
    decreases |events|, 0
  {
    var e := events[|events| - 1];
    Reaches(c, index, events[..|events| - 1], p) && Possible(p, e) && q == Apply(c, p, e)
  }

  /** Over every run of enqueues and batches, with any failures: the index overlaid with the jobs
      left to do is the direct index, and it is the direct index itself once none is left. */
  lemma {:induction false} RunAgrees(c: Config, index: Direct, events: seq<Event>, q: Queue)
    requires Reaches(c, index, events, q)
    ensures Agrees(q, DirectOf(index, events))
    ensures forall k :: Overlay(q, k) == Get(DirectOf(index, events), k)
    ensures (forall k :: k in q.rows ==> q.rows[k].status == Processed) ==> q.index == DirectOf(index, events)
  {
    var direct := DirectOf(index, events);
    if events == [] {
      assert Agrees(q, direct);
    } else {
      var n := |events| - 1;
      var p :| ReachesVia(c, index, events, p, q);
      RunAgrees(c, index, events[..n], p);
      StepAgrees(c, p, DirectOf(index, events[..n]), events[n]);
    }
    forall k ensures Overlay(q, k) == Get(direct, k) {
      OverlayIsDirect(q, direct, k);
    }
    if forall k :: k in q.rows ==> q.rows[k].status == Processed {
      SettledIndexIsDirect(q, direct);
    }
  }

  lemma StepAgrees(c: Config, q: Queue, direct: Direct, e: Event)
    requires Agrees(q, direct) && Possible(q, e)
    ensures Agrees(Apply(c, q, e), Direct1(direct, e))
  {
    match e
    case EnqueueUpsert(k, body, createdAt, now) =>
      EnqueueAgrees(q, direct, k, UpsertRow(body, createdAt, c.maxAttempts, now));
    case EnqueueDelete(k, now) =>
      EnqueueAgrees(q, direct, k, DeleteRow(Get(q.rows, k), c.maxAttempts, now));
    case ProcessBatch(keys, now, answers) =>
      BatchAgrees(q, direct, keys, now, answers, c.retryBackoff);
  }
}
