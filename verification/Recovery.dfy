/** Jobs the database knows and the queue does not, put back in agreement at boot. */
module Recovery {
  import opened Lists
  import opened Options
  import opened JobProtocol
  import ProcessJob

  type JobId = string
  type AccountId = string
  type Sessions = map<AccountId, ProcessJob.Session>

  datatype Row = Row(account: AccountId, status: Status, maxAttempts: nat, scheduledAt: Option<int>)

  /** A queue entry, and when it becomes due. */
  datatype QueueEntry = QueueEntry(entry: Entry, due: int)

  type Rows = map<JobId, Row>
  type Queue = map<JobId, QueueEntry>

  predicate IsStranded(r: Row) {
    r.status.AwaitingHuman? || r.status.Verifying?
  }

  predicate IsCandidate(r: Row) {
    r.status.Processing? || r.status.Queued? || r.status.Scheduled?
  }

  predicate LiveIn(queue: Queue, id: JobId) {
    id in queue && IsLive(Some(queue[id].entry))
  }

  /** The rows a query returns, each once, in some order. */
  ghost predicate IsQuery(ids: seq<JobId>, rows: Rows, wanted: Row -> bool) {
    && (forall id :: id in ids <==> id in rows && wanted(rows[id]))
    && Distinct(ids)
  }

  function DueAt(r: Row, now: int): int {
    if r.scheduledAt.Some? && r.scheduledAt.value > now then r.scheduledAt.value else now
  }

  /** A job put back: its own schedule when that is still to come, the default budget. */
  function Requeued(r: Row, now: int): Row {
    r.(status := if DueAt(r, now) > now then Scheduled else Queued)
  }

  function FreshEntry(r: Row, now: int, defaultAttempts: nat): QueueEntry {
    QueueEntry(Entry(if DueAt(r, now) > now then Delayed else Waiting, 0, defaultAttempts), DueAt(r, now))
  }

  /** What there is to recover. */
  function Orphans(rows: Rows, queue: Queue): set<JobId> {
    set id | id in rows && (rows[id].status in {AwaitingHuman, Verifying}
                            || (rows[id].status in {Queued, Scheduled, Processing}
                                && !(id in queue && queue[id].entry.state in {Active, Waiting, Delayed})))
  }

  /** A row and its entry, before and after a recovery. */
  ghost predicate Recovered(rows0: Rows, queue0: Queue, rows: Rows, queue: Queue, id: JobId, now: int,
                            defaultAttempts: nat)
    requires id in rows0 && id in rows
  {
    if IsStranded(rows0[id]) then
      rows[id] == rows0[id].(status := Failed) && SameEntry(queue0, queue, id)
    else if IsCandidate(rows0[id]) && !LiveIn(queue0, id) then
      rows[id] == Requeued(rows0[id], now) && id in queue && queue[id] == FreshEntry(rows0[id], now, defaultAttempts)
    else
      rows[id] == rows0[id] && SameEntry(queue0, queue, id)
  }

  /** What became of one job, by what its row said. Whatever is over stays as it is, row and entry;
      a job that waited for a person has failed; any other has an entry that will run, and it is the
      one it had if that would have. */
  ghost predicate Settled(rows0: Rows, queue0: Queue, rows: Rows, queue: Queue, id: JobId, now: int,
                          defaultAttempts: nat)
    requires id in rows0 && id in rows
  {
    match rows0[id].status
    case Completed => rows[id] == rows0[id] && SameEntry(queue0, queue, id)
    case Failed => rows[id] == rows0[id] && SameEntry(queue0, queue, id)
    case Cancelled => rows[id] == rows0[id] && SameEntry(queue0, queue, id)
    case Dead => rows[id] == rows0[id] && SameEntry(queue0, queue, id)
    case AwaitingHuman => rows[id] == rows0[id].(status := Failed) && SameEntry(queue0, queue, id)
    case Verifying => rows[id] == rows0[id].(status := Failed) && SameEntry(queue0, queue, id)
    case _ =>
      if id in queue0 && queue0[id].entry.state in {Active, Waiting, Delayed} then
        rows[id] == rows0[id] && SameEntry(queue0, queue, id)
      else
        var at := rows0[id].scheduledAt;
        var later := at.Some? && at.value > now;
        && rows[id] == rows0[id].(status := if later then Scheduled else Queued)
        && id in queue
        && queue[id] == QueueEntry(Entry(if later then Delayed else Waiting, 0, defaultAttempts),
                                   if later then at.value else now)
  }

  ghost predicate AllSettled(rows0: Rows, queue0: Queue, rows: Rows, queue: Queue, now: int, defaultAttempts: nat) {
    && rows.Keys == rows0.Keys
    && (forall id :: id in rows ==> Settled(rows0, queue0, rows, queue, id, now, defaultAttempts))
    && forall id :: id !in rows ==> SameEntry(queue0, queue, id)
  }

  class Store {
    var rows: Rows
    var sessions: Sessions
    var queue: Queue

    constructor (rows: Rows, sessions: Sessions, queue: Queue)
      ensures this.rows == rows && this.sessions == sessions && this.queue == queue
    {
      this.rows, this.sessions, this.queue := rows, sessions, queue;
    }

    method FailStrandedInteractiveJobs(stranded: seq<JobId>) returns (n: nat)
      requires IsQuery(stranded, rows, IsStranded)
      modifies this`rows, this`sessions
      ensures n == |stranded|
      ensures AreFailed(old(rows), rows, stranded)
      ensures sessions == Freed(old(sessions), AccountsOf(old(rows), stranded))
    {
      ghost var accounts := {};
      assert sessions == Freed(sessions, {});
      for i := 0 to |stranded|
        invariant AreFailed(old(rows), rows, stranded[..i])
        invariant accounts == AccountsOf(old(rows), stranded[..i]) && sessions == Freed(old(sessions), accounts)
      {
        var id := stranded[i];
        assert id in stranded && stranded[..i + 1] == stranded[..i] + [id] && id !in stranded[..i];
        rows := rows[id := rows[id].(status := Failed)];
        AccountsSnoc(old(rows), stranded[..i], id);
        FreedOne(old(sessions), accounts, rows[id].account);
        sessions := sessions[rows[id].account := ProcessJob.NoSession];
        accounts := accounts + {rows[id].account};
      }
      assert stranded[..|stranded|] == stranded;
      return |stranded|;
    }

    /** The candidates without a live entry, each put back with one. */
    method Requeue(candidates: seq<JobId>, now: int, defaultAttempts: nat) returns (n: nat)
      requires IsQuery(candidates, rows, IsCandidate)
      modifies this`rows, this`queue
      ensures n == |Back(candidates, old(queue))|
      ensures rows.Keys == old(rows).Keys
      ensures forall id :: Returned(old(rows), old(queue), rows, queue, candidates, id, now, defaultAttempts)
    {
      n := 0;
      for i := 0 to |candidates|
        invariant rows.Keys == old(rows).Keys
        invariant forall id :: Returned(old(rows), old(queue), rows, queue, candidates[..i], id, now, defaultAttempts)
        invariant n == |Back(candidates[..i], old(queue))|
      {
        var id := candidates[i];
        assert id in candidates && candidates[..i + 1] == candidates[..i] + [id] && id !in candidates[..i];
        assert Returned(old(rows), old(queue), rows, queue, candidates[..i], id, now, defaultAttempts);
        BackSnoc(candidates[..i], id, old(queue));
        ghost var rows1, queue1 := rows, queue;
        if !LiveIn(queue, id) {
          var row := rows[id];
          rows := rows[id := Requeued(row, now)];
          queue := queue - {id};
          queue := queue[id := FreshEntry(row, now, defaultAttempts)];
          n := n + 1;
        }
        ghost var done := candidates[..i + 1];
        forall other ensures Returned(old(rows), old(queue), rows, queue, done, other, now, defaultAttempts) {
          assert Returned(old(rows), old(queue), rows1, queue1, candidates[..i], other, now, defaultAttempts);
        }
      }
      assert candidates[..|candidates|] == candidates;
    }

    /** Every job that should run has one live entry again, what was live is untouched,
        what a dead worker was holding for a person is failed and its account freed. */
    method RecoverOrphans(stranded: seq<JobId>, candidates: seq<JobId>, now: int, defaultAttempts: nat) returns (n: nat)
      requires IsQuery(stranded, rows, IsStranded) && IsQuery(candidates, rows, IsCandidate)
      modifies this
      ensures n == |Orphans(old(rows), old(queue))|
      ensures Agreement(old(rows), old(queue), rows, queue, now, defaultAttempts)
      ensures AllSettled(old(rows), old(queue), rows, queue, now, defaultAttempts)
      ensures sessions == Freed(old(sessions), AccountsOf(old(rows), stranded))
    {
      var failed := FailStrandedInteractiveJobs(stranded);
      ghost var rows1 := rows;
      CandidatesStay(old(rows), rows1, stranded, candidates);
      var recovered := Requeue(candidates, now, defaultAttempts);
      Agree(old(rows), rows1, old(queue), rows, queue, stranded, candidates, now, defaultAttempts);
      Counts(old(rows), old(queue), stranded, candidates);
      AgreementSettles(old(rows), old(queue), rows, queue, now, defaultAttempts);
      return recovered + failed;
    }
  }

  /** Recovery has done to every job what it should, leaving none to be recovered. */
  ghost predicate Agreement(rows0: Rows, queue0: Queue, rows: Rows, queue: Queue, now: int, defaultAttempts: nat) {
    && rows.Keys == rows0.Keys
    && (forall id :: id in rows ==> Recovered(rows0, queue0, rows, queue, id, now, defaultAttempts))
    && (forall id :: id !in rows ==> SameEntry(queue0, queue, id))
    && (forall id :: id in rows && IsCandidate(rows[id]) ==> LiveIn(queue, id))
    && (forall id :: id in rows ==> !IsStranded(rows[id]))
  }

  lemma AgreementSettles(rows0: Rows, queue0: Queue, rows: Rows, queue: Queue, now: int, defaultAttempts: nat)
    requires Agreement(rows0, queue0, rows, queue, now, defaultAttempts)
    ensures AllSettled(rows0, queue0, rows, queue, now, defaultAttempts)
  {
    forall id | id in rows ensures Settled(rows0, queue0, rows, queue, id, now, defaultAttempts) {
      assert Recovered(rows0, queue0, rows, queue, id, now, defaultAttempts);
    }
  }

  function EntryOf(queue: Queue, id: JobId): Option<Entry> {
    if id in queue then Some(queue[id].entry) else None
  }

  /** What recovery does to a job is what the protocol's recovery does, command by command: it
      lists it, looks it up, and if it found no live entry writes the row, removes what it found
      and adds. A job that is over it does not list. */
  lemma FollowsProtocol(rows0: Rows, queue0: Queue, rows: Rows, queue: Queue, now: int, defaultAttempts: nat,
                        id: JobId, s: State)
      returns (steps: seq<Step>)
    requires Agreement(rows0, queue0, rows, queue, now, defaultAttempts)
    requires id in rows0 && s.row == rows0[id].status && s.entry == EntryOf(queue0, id)
    requires !s.row.AwaitingHuman? && !s.row.Verifying?
    ensures Execute(s, steps) == Some(s.(row := rows[id].status, entry := EntryOf(queue, id)))
    ensures Over(s) ==> steps == []
  {
    AgreementSettles(rows0, queue0, rows, queue, now, defaultAttempts);
    assert Settled(rows0, queue0, rows, queue, id, now, defaultAttempts);
    steps := [];
    if s.row.Queued? || s.row.Scheduled? || s.row.Processing? {
      steps := RecoveryOf(s, rows[id].status.Scheduled?, defaultAttempts);
    }
  }

  /** A second recovery finds nothing to do. */
  lemma NothingLeft(rows0: Rows, queue0: Queue, rows: Rows, queue: Queue, now: int, defaultAttempts: nat)
    requires Agreement(rows0, queue0, rows, queue, now, defaultAttempts)
    ensures |Orphans(rows, queue)| == 0
  {
    assert Orphans(rows, queue) == {};
  }

  /** And does nothing: rows and queue are as the first one left them. */
  lemma RecoveryIsIdempotent(rows0: Rows, queue0: Queue, rows1: Rows, queue1: Queue, rows2: Rows, queue2: Queue,
                             now1: int, now2: int, defaultAttempts: nat)
    requires Agreement(rows0, queue0, rows1, queue1, now1, defaultAttempts)
    requires Agreement(rows1, queue1, rows2, queue2, now2, defaultAttempts)
    ensures rows2 == rows1 && queue2 == queue1
  {
    forall id | id in rows1 ensures rows2[id] == rows1[id] && SameEntry(queue1, queue2, id) {
      assert Recovered(rows1, queue1, rows2, queue2, id, now2, defaultAttempts);
    }
    forall id ensures id in queue2 <==> id in queue1 {
      assert SameEntry(queue1, queue2, id);
    }
    forall id | id in queue2 ensures queue2[id] == queue1[id] {
      assert SameEntry(queue1, queue2, id);
    }
  }

  function AccountsOf(rows: Rows, ids: seq<JobId>): set<AccountId> {
    set id | id in ids && id in rows :: rows[id].account
  }

  /** The sessions with these accounts back at NONE, and no other account touched. */
  function Freed(sessions: Sessions, accounts: set<AccountId>): Sessions {
    sessions + map a | a in accounts :: ProcessJob.NoSession
  }

  lemma AccountsSnoc(rows: Rows, ids: seq<JobId>, id: JobId)
    requires id in rows
    ensures AccountsOf(rows, ids + [id]) == AccountsOf(rows, ids) + {rows[id].account}
  {
    assert forall other :: other in ids + [id] <==> other in ids || other == id;
  }

  lemma FreedOne(sessions: Sessions, accounts: set<AccountId>, account: AccountId)
    ensures Freed(sessions, accounts)[account := ProcessJob.NoSession] == Freed(sessions, accounts + {account})
  {
  }

  /** A job that is put back runs when it was to run, or now if that is past, from its first
      attempt, on the queue's default budget and not on the row's. */
  lemma ScheduleKept(rows0: Rows, queue0: Queue, rows: Rows, queue: Queue, now: int, defaultAttempts: nat, id: JobId)
    requires Agreement(rows0, queue0, rows, queue, now, defaultAttempts)
    requires id in rows0 && IsCandidate(rows0[id]) && !LiveIn(queue0, id)
    ensures id in rows && id in queue
    ensures var later := rows0[id].scheduledAt.Some? && rows0[id].scheduledAt.value > now;
            && rows[id].status == (if later then Scheduled else Queued)
            && queue[id].due == (if later then rows0[id].scheduledAt.value else now)
            && queue[id].entry.state == (if later then Delayed else Waiting)
    ensures rows[id].account == rows0[id].account && rows[id].maxAttempts == rows0[id].maxAttempts
    ensures queue[id].entry.attemptsMade == 0 && queue[id].entry.allowed == defaultAttempts
  {
    assert Recovered(rows0, queue0, rows, queue, id, now, defaultAttempts);
  }

  /** One boot of many: what it found and what it left. */
  datatype BootRecord = BootRecord(rows0: Rows, queue0: Queue, rows: Rows, queue: Queue, now: int)

  /** Boots one after the other, with the queue losing or spending entries in between while no
      worker is up to move a row. */
  ghost predicate AreBoots(boots: seq<BootRecord>, defaultAttempts: nat) {
    && (forall i :: 0 <= i < |boots| ==>
          Agreement(boots[i].rows0, boots[i].queue0, boots[i].rows, boots[i].queue, boots[i].now, defaultAttempts))
    && forall i :: 0 < i < |boots| ==> boots[i].rows0 == boots[i - 1].rows
  }

  /** However often the queue is lost, a job that was to run is in it again after every boot, with
      the time the row was created with or the moment of the boot that put it back, never
      before either. */
  lemma {:induction false} ScheduleSurvives(boots: seq<BootRecord>, defaultAttempts: nat, id: JobId, i: nat)
    requires AreBoots(boots, defaultAttempts) && i < |boots|
    requires id in boots[0].rows0 && IsCandidate(boots[0].rows0[id])
    ensures var b, row := boots[i], boots[0].rows0[id];
            && id in b.rows0 && id in b.rows && IsCandidate(b.rows0[id]) && IsCandidate(b.rows[id])
            && b.rows[id] == row.(status := b.rows[id].status) && LiveIn(b.queue, id)
            && (!LiveIn(b.queue0, id) ==>
                && b.queue[id].due >= b.now && (row.scheduledAt.Some? ==> b.queue[id].due >= row.scheduledAt.value)
                && (b.queue[id].due == b.now || Some(b.queue[id].due) == row.scheduledAt)
                && (b.rows[id].status.Scheduled? <==> b.queue[id].due > b.now)
                && b.queue[id].entry.attemptsMade == 0 && b.queue[id].entry.allowed == defaultAttempts)
  {
    if i == 0 {
    } else {
      ScheduleSurvives(boots, defaultAttempts, id, i - 1);
      assert boots[i].rows0 == boots[i - 1].rows;
    }
    var b := boots[i];
    assert Recovered(b.rows0, b.queue0, b.rows, b.queue, id, b.now, defaultAttempts);
    if !LiveIn(b.queue0, id) {
      ScheduleKept(b.rows0, b.queue0, b.rows, b.queue, b.now, defaultAttempts, id);
    }
  }

  ghost predicate AreFailed(rows0: Rows, rows: Rows, stranded: seq<JobId>) {
    && rows.Keys == rows0.Keys
    && forall id :: id in rows ==> rows[id] == if id in stranded then rows0[id].(status := Failed) else rows0[id]
  }

  lemma CandidatesStay(rows0: Rows, rows1: Rows, stranded: seq<JobId>, candidates: seq<JobId>)
    requires IsQuery(stranded, rows0, IsStranded) && IsQuery(candidates, rows0, IsCandidate)
    requires AreFailed(rows0, rows1, stranded)
    ensures IsQuery(candidates, rows1, IsCandidate)
  {
    forall id ensures id in candidates <==> id in rows1 && IsCandidate(rows1[id]) {
      if id in rows1 { assert rows1[id] == if id in stranded then rows0[id].(status := Failed) else rows0[id]; }
    }
  }

  lemma Agree(rows0: Rows, rows1: Rows, queue0: Queue, rows: Rows, queue: Queue, stranded: seq<JobId>,
              candidates: seq<JobId>, now: int, defaultAttempts: nat)
    requires IsQuery(stranded, rows0, IsStranded) && IsQuery(candidates, rows0, IsCandidate)
    requires AreFailed(rows0, rows1, stranded) && rows.Keys == rows1.Keys
    requires forall id :: Returned(rows1, queue0, rows, queue, candidates, id, now, defaultAttempts)
    ensures Agreement(rows0, queue0, rows, queue, now, defaultAttempts)
  {
    forall id ensures id in rows ==>
        && Recovered(rows0, queue0, rows, queue, id, now, defaultAttempts)
        && (IsCandidate(rows[id]) ==> LiveIn(queue, id)) && !IsStranded(rows[id])
    {
      assert Returned(rows1, queue0, rows, queue, candidates, id, now, defaultAttempts);
      assert id in stranded <==> id in rows0 && IsStranded(rows0[id]);
      assert id in candidates <==> id in rows0 && IsCandidate(rows0[id]);
    }
    forall id | id !in rows ensures SameEntry(queue0, queue, id) {
      assert Returned(rows1, queue0, rows, queue, candidates, id, now, defaultAttempts);
      assert id !in candidates;
    }
  }

  ghost predicate SameEntry(before: Queue, after: Queue, id: JobId) {
    (id in after <==> id in before) && (id in after ==> after[id] == before[id])
  }

  /** What recovery does to one candidate, and that it does nothing to any other job. */
  ghost predicate Returned(rows0: Rows, queue0: Queue, rows: Rows, queue: Queue, candidates: seq<JobId>, id: JobId,
                           now: int, defaultAttempts: nat)
  {
    if id in candidates && !LiveIn(queue0, id) then
      id in rows0 && id in rows && rows[id] == Requeued(rows0[id], now)
      && id in queue && queue[id] == FreshEntry(rows0[id], now, defaultAttempts)
    else
      (id in rows0 && id in rows ==> rows[id] == rows0[id]) && SameEntry(queue0, queue, id)
  }

  function Back(ids: seq<JobId>, queue: Queue): set<JobId> {
    set id | id in ids && !LiveIn(queue, id)
  }

  lemma BackSnoc(ids: seq<JobId>, id: JobId, queue: Queue)
    requires id !in ids
    ensures |Back(ids + [id], queue)| == |Back(ids, queue)| + if LiveIn(queue, id) then 0 else 1
  {
    assert Back(ids + [id], queue) == Back(ids, queue) + if LiveIn(queue, id) then {} else {id};
  }

  function Ids(s: seq<JobId>): set<JobId> {
    set id | id in s
  }

  lemma {:induction false} DistinctIds(s: seq<JobId>)
    requires Distinct(s)
    ensures |Ids(s)| == |s|
  {
    if s == [] {
      assert Ids(s) == {};
    } else {
      DistinctIds(s[1..]);
      assert Ids(s) == {s[0]} + Ids(s[1..]);
      assert s[0] !in s[1..];
    }
  }

  lemma Counts(rows: Rows, queue: Queue, stranded: seq<JobId>, candidates: seq<JobId>)
    requires IsQuery(stranded, rows, IsStranded) && IsQuery(candidates, rows, IsCandidate)
    ensures |Orphans(rows, queue)| == |stranded| + |Back(candidates, queue)|
  {
    var a := Ids(stranded);
    var b := Back(candidates, queue);
    assert Orphans(rows, queue) == a + b && a !! b;
    DistinctIds(stranded);
  }
}
