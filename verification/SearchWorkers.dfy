/** Many workers at once: each statement of a worker is a step of its own. */
module SearchWorkers {
  import opened Wrappers
  import opened SearchQueue
  import opened SearchAgreement

  /** A claimed job, stamped with how often its key had been enqueued when it was claimed. */
  datatype Ticket = Ticket(job: Job, version: nat)

  datatype World = World(q: Queue, direct: Direct, version: map<Key, nat>,
                         claimed: set<Ticket>, applied: set<Ticket>)

  datatype Move =
    | Enqueue(key: Key, row: Row)
    | Claim(keys: seq<Key>, now: int)
    | Write(ticket: Ticket)
    | Complete(ticket: Ticket)
    | Fail(ticket: Ticket, at: int)

  function Version(w: World, k: Key): nat {
    if k in w.version then w.version[k] else 0
  }

  /** A worker writes and completes what it claimed, in that order. */
  predicate Can(w: World, m: Move) {
    match m
    case Enqueue(_, row) => row.status == Pending
    case Claim(keys, _) => forall k :: k in keys ==> k in w.q.rows
    case Write(t) => t in w.claimed
    case Complete(t) => t in w.applied
    case Fail(t, _) => t in w.claimed
  }

  function Tickets(w: World, rows: map<Key, Row>, keys: seq<Key>): set<Ticket> {
    set k | k in keys && k in rows :: Ticket(JobOf(k, rows[k]), Version(w, k))
  }

  function Do(w: World, m: Move, retryBackoff: nat): World {
    match m
    case Enqueue(k, row) =>
      w.(q := w.q.(rows := w.q.rows[k := row]), direct := Store(w.direct, k, RowDoc(row)),
         version := w.version[k := Version(w, k) + 1])
    case Claim(keys, now) =>
      var rows := ClaimRows(w.q.rows, keys, now);
      w.(q := w.q.(rows := rows), claimed := w.claimed + Tickets(w, rows, keys))
    case Write(t) => w.(q := ApplyJob(w.q, t.job), applied := w.applied + {t})
    case Complete(t) => w.(q := CompleteJob(w.q, t.job.key))
    case Fail(t, at) => w.(q := FailJob(w.q, t.job, retryBackoff, at))
  }

  /** The key has not been enqueued since the job was claimed. */
  predicate Current(w: World, t: Ticket) {
    t.version == Version(w, t.job.key)
  }

  /** The move neither writes the index nor completes a row on behalf of an overtaken job. */
  predicate NotOvertaken(w: World, m: Move) {
    match m
    case Write(t) => Current(w, t)
    case Complete(t) => Current(w, t)
    case _ => true
  }

  ghost predicate TicketSound(w: World, t: Ticket) {
    && t.job.key in w.q.rows && t.version <= Version(w, t.job.key)
    && (Current(w, t) ==> JobDoc(t.job) == RowDoc(w.q.rows[t.job.key]))
  }

  /** What a current job has written is still there. */
  ghost predicate WriteSound(w: World, t: Ticket) {
    && t in w.claimed
    && (Current(w, t) ==> Get(w.q.index, t.job.key) == JobDoc(t.job))
  }

  ghost predicate Sound(w: World) {
    && Agrees(w.q, w.direct)
    && (forall t :: t in w.claimed ==> TicketSound(w, t))
    && (forall t :: t in w.applied ==> WriteSound(w, t))
  }

  lemma EnqueueSound(w: World, k: Key, row: Row, retryBackoff: nat)
    requires Sound(w) && row.status == Pending
    ensures Sound(Do(w, Enqueue(k, row), retryBackoff))
  {
    var w' := Do(w, Enqueue(k, row), retryBackoff);
    EnqueueAgrees(w.q, w.direct, k, row);
    forall t | t in w'.claimed ensures TicketSound(w', t) {
      assert TicketSound(w, t);
    }
    forall t | t in w'.applied ensures WriteSound(w', t) {
      assert WriteSound(w, t) && TicketSound(w, t);
    }
  }

  /** A step that leaves versions and tickets alone and changes no row's content and no index entry. */
  lemma StatusOnlySound(w: World, q: Queue)
    requires Sound(w) && Agrees(q, w.direct)
    requires SameContent(w.q.rows, q.rows) && q.index == w.q.index
    ensures Sound(w.(q := q))
  {}

  lemma ClaimSound(w: World, keys: seq<Key>, now: int, retryBackoff: nat)
    requires Sound(w) && Can(w, Claim(keys, now))
    ensures Sound(Do(w, Claim(keys, now), retryBackoff))
  {
    var rows := ClaimRows(w.q.rows, keys, now);
    var w' := Do(w, Claim(keys, now), retryBackoff);
    ClaimAgrees(w.q, w.direct, keys, now);
    StatusOnlySound(w, w.q.(rows := rows));
    forall t | t in w'.claimed ensures TicketSound(w', t) {
      if t in w.claimed {
        assert TicketSound(w.(q := w'.q), t);
      }
    }
    forall t | t in w'.applied ensures WriteSound(w', t) {
      assert WriteSound(w.(q := w'.q), t);
    }
  }

  lemma WriteKeepsSound(w: World, t: Ticket, retryBackoff: nat)
    requires Sound(w) && t in w.claimed && Current(w, t)
    ensures Sound(Do(w, Write(t), retryBackoff))
  {
    var w' := Do(w, Write(t), retryBackoff);
    assert TicketSound(w, t);
    ApplyAgreesExactly(w.q, w.direct, t.job);
    forall x | x in w'.claimed ensures TicketSound(w', x) {
      assert TicketSound(w, x);
    }
    forall x | x in w'.applied ensures WriteSound(w', x) {
      Stored(w.q.index, t.job.key, JobDoc(t.job), x.job.key);
      if x != t {
        assert WriteSound(w, x) && TicketSound(w, x);
      }
    }
  }

  lemma CompleteKeepsSound(w: World, t: Ticket, retryBackoff: nat)
    requires Sound(w) && t in w.applied && Current(w, t)
    ensures Sound(Do(w, Complete(t), retryBackoff))
  {
    assert WriteSound(w, t) && TicketSound(w, t);
    CompleteAgreesExactly(w.q, w.direct, t.job.key);
    StatusOnlySound(w, CompleteJob(w.q, t.job.key));
  }

  lemma MoveKeepsSound(w: World, m: Move, retryBackoff: nat)
    requires Sound(w) && Can(w, m) && NotOvertaken(w, m)
    ensures Sound(Do(w, m, retryBackoff))
  {
    match m
    case Enqueue(k, row) => EnqueueSound(w, k, row, retryBackoff);
    case Claim(keys, now) => ClaimSound(w, keys, now, retryBackoff);
    case Write(t) => WriteKeepsSound(w, t, retryBackoff);
    case Complete(t) => CompleteKeepsSound(w, t, retryBackoff);
    case Fail(t, at) =>
      FailAgrees(w.q, w.direct, t.job, retryBackoff, at);
      StatusOnlySound(w, FailJob(w.q, t.job, retryBackoff, at));
  }

  function Start(index: Direct): World {
    World(Queue(map[], index), index, map[], {}, {})
  }

  function RunWorld(index: Direct, moves: seq<Move>, retryBackoff: nat): World {
    if moves == [] then Start(index)
    else Do(RunWorld(index, moves[..|moves| - 1], retryBackoff), moves[|moves| - 1], retryBackoff)
  }

  ghost predicate FairRun(index: Direct, moves: seq<Move>, retryBackoff: nat) {
    forall i :: 0 <= i < |moves| ==>
      var w := RunWorld(index, moves[..i], retryBackoff);
      Can(w, moves[i]) && NotOvertaken(w, moves[i])
  }

  /** Any number of workers, in any interleaving, with leases lost and jobs claimed again: as long as
      nobody writes or completes on behalf of an overtaken job, the overlaid index is the direct
      index after every statement. */
  lemma {:induction false} InterleavedRunAgrees(index: Direct, moves: seq<Move>, retryBackoff: nat)
    requires FairRun(index, moves, retryBackoff)
    ensures Sound(RunWorld(index, moves, retryBackoff))
    ensures var w := RunWorld(index, moves, retryBackoff);
            forall k :: Overlay(w.q, k) == Get(w.direct, k)
  {
    if moves != [] {
      var n := |moves| - 1;
      forall i | 0 <= i < n
        ensures var w := RunWorld(index, moves[..n][..i], retryBackoff);
                Can(w, moves[..n][i]) && NotOvertaken(w, moves[..n][i])
      {
        assert moves[..n][..i] == moves[..i];
      }
      InterleavedRunAgrees(index, moves[..n], retryBackoff);
      MoveKeepsSound(RunWorld(index, moves[..n], retryBackoff), moves[n], retryBackoff);
    }
    var w := RunWorld(index, moves, retryBackoff);
    forall k ensures Overlay(w.q, k) == Get(w.direct, k) {
      OverlayIsDirect(w.q, w.direct, k);
    }
  }

  /** A worker that completes a job overtaken by a new enqueue with other content loses the new
      one for good: everything is processed and the index is not the direct index. */
  lemma OvertakenCompletionLosesUpdate(k: Key, doc: Body, newer: Body, at: int)
    requires doc != newer
    ensures var claimed := JobOf(k, ClaimRow(UpsertRow(doc, at, 8, at), at));
            var q := Queue(map[k := UpsertRow(newer, at, 8, at)], map[]);
            var t := CompleteJob(ApplyJob(q, claimed), k);
            && Agrees(q, map[k := Doc(newer, at)])
            && t.rows[k].status == Processed && t.index == map[k := Doc(doc, at)]
            && !Agrees(t, map[k := Doc(newer, at)])
  {
    var claimed := JobOf(k, ClaimRow(UpsertRow(doc, at, 8, at), at));
    var q := Queue(map[k := UpsertRow(newer, at, 8, at)], map[]);
    assert forall x :: AgreesAt(q, map[k := Doc(newer, at)], x);
    FinishAgreesExactly(q, map[k := Doc(newer, at)], claimed);
  }
}
