/** The realtime outbox (internal/repository/postgres/realtime.go). An event is known by its
    sequence number, which the table makes unique. Times are milliseconds. */
module Outbox {
  import opened Wrappers

  const LEASE := 5 * 60 * 1000

  datatype Status = Pending | Processing | Published | Failed | Dead

  datatype Row = Row(status: Status, attempts: nat, maxAttempts: nat, availableAt: int, lockedAt: Option<int>)

  /** `next` is the sequence's next value. */
  datatype Table = Table(rows: map<nat, Row>, next: nat)

  const EMPTY_TABLE := Table(map[], 1)

  predicate Claimable(r: Row, now: int) {
    && r.availableAt <= now
    && (r.status == Pending || r.status == Failed
        || (r.status == Processing && r.lockedAt.Some? && r.lockedAt.value < now - LEASE))
  }

  /** ORDER BY sequence LIMIT batch: strictly increasing claimable sequences, the lowest there are. */
  ghost predicate IsSelection(rows: map<nat, Row>, now: int, batch: nat, seqs: seq<nat>) {
    && |seqs| <= batch
    && (forall i, j :: 0 <= i < j < |seqs| ==> seqs[i] < seqs[j])
    && (forall i :: 0 <= i < |seqs| ==> seqs[i] in rows && Claimable(rows[seqs[i]], now))
    && (forall n :: n in rows && Claimable(rows[n], now) && n !in seqs ==>
          |seqs| == batch && forall i :: 0 <= i < |seqs| ==> seqs[i] < n)
  }

  function Batch(batchSize: int): nat {
    if batchSize <= 0 then 100 else batchSize
  }

  function DefaultMax(maxAttempts: int): nat {
    if maxAttempts <= 0 then 8 else maxAttempts
  }

  /** The interval is rendered in whole seconds. */
  function StuckAfter(stuckAfter: int): int {
    if stuckAfter <= 0 then LEASE else stuckAfter / 1000 * 1000
  }

  function ClaimRow(r: Row, now: int): Row {
    r.(status := Processing, attempts := r.attempts + 1, lockedAt := Some(now))
  }

  predicate Stuck(r: Row, after: int, now: int) {
    r.status == Processing && r.lockedAt.Some? && r.lockedAt.value < now - after
  }

  // ---- Statements -----------------------------------------------------------------

  function Enqueue(t: Table, timestamp: int, maxAttempts: int): Table {
    Table(t.rows[t.next := Row(Pending, 0, DefaultMax(maxAttempts), timestamp, None)], t.next + 1)
  }

  function Claim(t: Table, seqs: seq<nat>, now: int): Table {
    t.(rows := map n | n in t.rows :: if n in seqs then ClaimRow(t.rows[n], now) else t.rows[n])
  }

  function MarkPublished(t: Table, n: nat, now: int): Table {
    if n in t.rows then t.(rows := t.rows[n := t.rows[n].(status := Published, lockedAt := None, availableAt := now)])
    else t
  }

  /** Unguarded: whatever the row's status was. */
  function MarkFailed(t: Table, n: nat, retryAt: Option<int>, dead: bool): Table {
    if n in t.rows then
      t.(rows := t.rows[n := t.rows[n].(
           status := if dead then Dead else Failed, lockedAt := None,
           availableAt := if retryAt.Some? then retryAt.value else t.rows[n].availableAt)])
    else t
  }

  function ResetStuck(t: Table, stuckAfter: int, now: int): Table {
    t.(rows := map n | n in t.rows ::
         if Stuck(t.rows[n], StuckAfter(stuckAfter), now) then t.rows[n].(status := Pending, lockedAt := None)
         else t.rows[n])
  }

  // ---- The repository ----------------------------------------------------------------

  datatype Queued = Queued(sequence: nat, attempts: nat, maxAttempts: nat)

  class RealtimeRepo {
    var rows: map<nat, Row>
    var next: nat

    constructor ()
      ensures View() == EMPTY_TABLE
    {
      rows, next := map[], 1;
    }

    function View(): Table
      reads this
    {
      Table(rows, next)
    }

    method Insert(timestamp: int, maxAttempts: int) returns (sequence: nat)
      modifies this
      ensures sequence == old(next) && View() == Enqueue(old(View()), timestamp, maxAttempts)
    {
      var max := maxAttempts;
      if max <= 0 {
        max := 8;
      }
      sequence := next;
      rows := rows[next := Row(Pending, 0, max, timestamp, None)];
      next := next + 1;
    }

    /** The claim's query: repeatedly the lowest claimable sequence that is left. */
    method SelectRows(now: int, batch: nat) returns (seqs: seq<nat>)
      ensures IsSelection(rows, now, batch, seqs)
    {
      seqs := [];
      var left := set n | n in rows && Claimable(rows[n], now);
      while left != {} && |seqs| < batch
        invariant |seqs| <= batch
        invariant forall n :: n in rows && Claimable(rows[n], now) <==> n in left || n in seqs
        invariant forall i, j :: 0 <= i < j < |seqs| ==> seqs[i] < seqs[j]
        invariant forall i, n :: 0 <= i < |seqs| && n in left ==> seqs[i] < n
        decreases left
      {
        var n := Lowest(left);
        seqs := seqs + [n];
        left := left - {n};
      }
    }

    method Lowest(left: set<nat>) returns (lowest: nat)
      requires left != {}
      ensures lowest in left && forall n :: n in left ==> lowest <= n
    {
      lowest :| lowest in left;
      var todo := left - {lowest};
      while todo != {}
        invariant lowest in left && todo <= left
        invariant forall n :: n in left ==> n in todo || lowest <= n
      {
        var n :| n in todo;
        if n < lowest {
          lowest := n;
        }
        todo := todo - {n};
      }
    }

    method ClaimPending(batchSize: int, now: int) returns (events: seq<Queued>, ghost seqs: seq<nat>)
      modifies this
      ensures IsSelection(old(rows), now, Batch(batchSize), seqs)
      ensures View() == Claim(old(View()), seqs, now)
      ensures |events| == |seqs| && forall i :: 0 <= i < |seqs| ==>
                events[i] == Queued(seqs[i], rows[seqs[i]].attempts, rows[seqs[i]].maxAttempts)
    {
      var batch := batchSize;
      if batch <= 0 {
        batch := 100;
      }
      var selected := SelectRows(now, batch);
      seqs := selected;
      events := [];
      for i := 0 to |selected|
        invariant |events| == i && forall j :: 0 <= j < i ==>
          events[j] == Queued(selected[j], rows[selected[j]].attempts + 1, rows[selected[j]].maxAttempts)
      {
        var n := selected[i];
        events := events + [Queued(n, rows[n].attempts + 1, rows[n].maxAttempts)];
      }
      rows := map n | n in rows :: if n in selected then ClaimRow(rows[n], now) else rows[n];
      assert forall i :: 0 <= i < |selected| ==> selected[i] in selected;
    }

    method Publish(n: nat, now: int)
      modifies this
      ensures View() == MarkPublished(old(View()), n, now)
    {
      if n in rows {
        rows := rows[n := rows[n].(status := Published, lockedAt := None, availableAt := now)];
      }
    }

    method Fail(n: nat, retryAt: Option<int>, dead: bool)
      modifies this
      ensures View() == MarkFailed(old(View()), n, retryAt, dead)
    {
      var status := Failed;
      if dead {
        status := Dead;
      }
      if n in rows {
        var availableAt := if retryAt == None then rows[n].availableAt else retryAt.value;
        rows := rows[n := rows[n].(status := status, availableAt := availableAt, lockedAt := None)];
      }
    }

    /** The count of rows reset. */
    method ResetStuckJobs(stuckAfter: int, now: int) returns (count: nat)
      modifies this
      ensures View() == ResetStuck(old(View()), stuckAfter, now)
      ensures count == |set n | n in old(rows) && Stuck(old(rows)[n], StuckAfter(stuckAfter), now)|
    {
      var after := StuckAfter(stuckAfter);
      ghost var reset: set<nat> := {};
      count := 0;
      var todo := rows.Keys;
      while todo != {}
        invariant todo <= old(rows).Keys && rows.Keys == old(rows).Keys && next == old(next)
        invariant count == |reset|
        invariant forall n :: n in reset <==> n in old(rows) && n !in todo && Stuck(old(rows)[n], after, now)
        invariant forall n :: n in rows ==>
                    rows[n] == if n in reset then old(rows)[n].(status := Pending, lockedAt := None) else old(rows)[n]
      {
        var n :| n in todo;
        if Stuck(rows[n], after, now) {
          rows := rows[n := rows[n].(status := Pending, lockedAt := None)];
          count := count + 1;
          reset := reset + {n};
        }
        todo := todo - {n};
      }
      assert reset == set n | n in old(rows) && Stuck(old(rows)[n], after, now);
    }
  }
}
