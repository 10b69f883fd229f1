/** Creating jobs: any number of requests, each taking one database or queue command at a
    time, some carrying the same idempotency key. */
module Creation {
  import opened Lists
  import opened Options
  import opened JobProtocol

  type JobId = string
  type Key = string
  type AccountId = string
  type VideoId = string
  type RequestId = nat

  datatype Request = Request(key: Key, account: AccountId, interactive: bool, video: Option<VideoId>,
                             scheduled: bool, allowDuplicate: bool)

  datatype Row = Row(key: Key, account: AccountId, video: Option<VideoId>, status: Status)

  datatype Phase =
    | Looking
    | Checking
    | Inserting
    | Reading
    | Enqueuing(job: JobId)     // inserted
    | Linking(job: JobId)       // and added to the queue
    | Created(job: JobId)       // returned, created: true
    | Found(job: JobId)         // returned, created: false
    | Refused
    | Conflicted(with_: JobId)
    | Errored(inserted: Option<JobId>, landed: bool)    // threw, perhaps with its job in the queue

  datatype System = System(rows: map<JobId, Row>, added: seq<JobId>, phases: map<RequestId, Phase>)

  type Requests = map<RequestId, Request>

  datatype Action =
    | Lookup(r: RequestId, found: Option<JobId>)
    | Refuse(r: RequestId)                         // account, credentials, proxy or video checks
    | Conflict(r: RequestId, other: JobId)
    | Pass(r: RequestId)
    | Insert(r: RequestId, job: JobId)
    | Collide(r: RequestId)                        // the unique constraint
    | InsertFails(r: RequestId)
    | ReadWinner(r: RequestId, found: Option<JobId>)
    | Add(r: RequestId)                            // to the queue
    | AddFails(r: RequestId, landed: bool)         // before the queue has it, or after
    | Link(r: RequestId)                           // the queue's id, written to the row
    | LinkFails(r: RequestId)
    | Elsewhere(job: JobId, status: Status)        // workers and other requests move the row on

  predicate Answers(rows: map<JobId, Row>, key: Key, found: Option<JobId>) {
    match found
    case Some(job) => job in rows && rows[job].key == key
    case None => forall job :: job in rows ==> rows[job].key != key
  }

  predicate IsActive(s: Status) {
    s.Queued? || s.Scheduled? || s.Processing?
  }

  /** What the guard looks for: rows with this key are left out of it. */
  predicate InTheWay(q: Request, row: Row) {
    && row.key != q.key && row.account == q.account
    && if q.interactive then IsActive(row.status) || row.status.AwaitingHuman? || row.status.Verifying?
       else q.video.Some? && row.video == q.video && IsActive(row.status)
  }

  predicate At(s: System, r: RequestId, phase: Phase) {
    r in s.phases && s.phases[r] == phase
  }

  predicate CanAct(s: System, reqs: Requests, a: Action) {
    match a
    case Lookup(r, found) => r in reqs && At(s, r, Looking) && Answers(s.rows, reqs[r].key, found)
    case Refuse(r) => r in reqs && At(s, r, Checking)
    case Conflict(r, other) =>
      && r in reqs && At(s, r, Checking) && (reqs[r].interactive || !reqs[r].allowDuplicate)
      && other in s.rows && InTheWay(reqs[r], s.rows[other])
    case Pass(r) =>
      && r in reqs && At(s, r, Checking)
      && ((!reqs[r].interactive && reqs[r].allowDuplicate)
          || forall other :: other in s.rows ==> !InTheWay(reqs[r], s.rows[other]))
    case Insert(r, job) =>
      r in reqs && At(s, r, Inserting) && job !in s.rows && Answers(s.rows, reqs[r].key, None)
    case Collide(r) => r in reqs && At(s, r, Inserting) && !Answers(s.rows, reqs[r].key, None)
    case InsertFails(r) => r in reqs && At(s, r, Inserting)
    case ReadWinner(r, found) => r in reqs && At(s, r, Reading) && Answers(s.rows, reqs[r].key, found)
    case Add(r) => r in reqs && r in s.phases && s.phases[r].Enqueuing?
    case AddFails(r, _) => r in reqs && r in s.phases && s.phases[r].Enqueuing?
    case Link(r) => r in reqs && r in s.phases && s.phases[r].Linking?
    case LinkFails(r) => r in reqs && r in s.phases && s.phases[r].Linking?
    case Elsewhere(job, _) => job in s.rows
  }

  function RowOf(q: Request): Row {
    if q.interactive then Row(q.key, q.account, None, Queued)
    else Row(q.key, q.account, q.video, if q.scheduled then Scheduled else Queued)
  }

  function Act(s: System, reqs: Requests, a: Action): System
    requires CanAct(s, reqs, a)
  {
    match a
    case Lookup(r, found) => s.(phases := s.phases[r := if found.Some? then Found(found.value) else Checking])
    case Refuse(r) => s.(phases := s.phases[r := Refused])
    case Conflict(r, other) => s.(phases := s.phases[r := Conflicted(other)])
    case Pass(r) => s.(phases := s.phases[r := Inserting])
    case Insert(r, job) =>
      s.(rows := s.rows[job := RowOf(reqs[r])],
         phases := s.phases[r := Enqueuing(job)])
    case Collide(r) => s.(phases := s.phases[r := Reading])
    case InsertFails(r) => s.(phases := s.phases[r := Errored(None, false)])
    case ReadWinner(r, found) =>
      s.(phases := s.phases[r := if found.Some? then Found(found.value) else Errored(None, false)])
    case Add(r) => s.(added := s.added + [s.phases[r].job], phases := s.phases[r := Linking(s.phases[r].job)])
    case AddFails(r, landed) =>
      s.(added := s.added + (if landed then [s.phases[r].job] else []),
         phases := s.phases[r := Errored(Some(s.phases[r].job), landed)])
    case Link(r) => s.(phases := s.phases[r := Created(s.phases[r].job)])
    case LinkFails(r) => s.(phases := s.phases[r := Errored(Some(s.phases[r].job), true)])
    case Elsewhere(job, status) => s.(rows := s.rows[job := s.rows[job].(status := status)])
  }

  /** A row that the account must not have beside a new request: another key's, and for an
      onboarding any that is not over, for a publication one of the same video that is waiting or
      running, unless duplicates are allowed. */
  ghost predicate Blocks(q: Request, row: Row) {
    && row.key != q.key && row.account == q.account
    && if q.interactive then row.status in {Queued, Scheduled, Processing, AwaitingHuman, Verifying}
       else !q.allowDuplicate && q.video.Some? && row.video == q.video && row.status in {Queued, Scheduled, Processing}
  }

  /** The guard, when nobody is in between: a request passes if and only if nothing blocks it, and
      what it is refused with is what does. */
  lemma GuardIff(s: System, reqs: Requests, r: RequestId)
    requires r in reqs && At(s, r, Checking)
    ensures CanAct(s, reqs, Pass(r)) <==> forall job :: job in s.rows ==> !Blocks(reqs[r], s.rows[job])
    ensures forall job :: CanAct(s, reqs, Conflict(r, job)) <==> job in s.rows && Blocks(reqs[r], s.rows[job])
  {
    assert forall job :: job in s.rows ==>
      (Blocks(reqs[r], s.rows[job]) <==>
       (reqs[r].interactive || !reqs[r].allowDuplicate) && InTheWay(reqs[r], s.rows[job]));
  }

  /** A request with nobody in between. A new key that nothing blocks makes the row it should, puts
      it in the queue once and reports it as created. */
  lemma AloneCreates(s: System, reqs: Requests, r: RequestId, job: JobId)
    requires r in reqs && At(s, r, Looking) && job !in s.rows
    requires forall other :: other in s.rows ==> s.rows[other].key != reqs[r].key && !Blocks(reqs[r], s.rows[other])
    ensures var q := reqs[r];
            var row := Row(q.key, q.account, if q.interactive then None else q.video,
                           if q.scheduled && !q.interactive then Scheduled else Queued);
            && CanAct(s, reqs, Lookup(r, None))
            && var s1 := Act(s, reqs, Lookup(r, None));
            && CanAct(s1, reqs, Pass(r))
            && var s2 := Act(s1, reqs, Pass(r));
            && CanAct(s2, reqs, Insert(r, job)) && !CanAct(s2, reqs, Collide(r))
            && var s3 := Act(s2, reqs, Insert(r, job));
            && s3.rows == s.rows[job := row] && s3.added == s.added && CanAct(s3, reqs, Add(r))
            && var s4 := Act(s3, reqs, Add(r));
            && s4.rows == s3.rows && s4.added == s.added + [job] && CanAct(s4, reqs, Link(r))
            && Act(s4, reqs, Link(r)) == System(s3.rows, s4.added, s.phases[r := Created(job)])
  {
    var s1 := Act(s, reqs, Lookup(r, None));
    GuardIff(s1, reqs, r);
    var s2 := Act(s1, reqs, Pass(r));
    var s3 := Act(s2, reqs, Insert(r, job));
    assert s.phases[r := Checking][r := Inserting][r := Enqueuing(job)][r := Linking(job)][r := Created(job)]
        == s.phases[r := Created(job)];
  }

  /** A key that is in use is answered with its row, one that something blocks with what does, and
      a race that is lost with the winner; and nothing else changes. */
  lemma AloneIsAnswered(s: System, reqs: Requests, r: RequestId, job: JobId)
    requires r in reqs && job in s.rows
    ensures At(s, r, Looking) && s.rows[job].key == reqs[r].key ==>
              && CanAct(s, reqs, Lookup(r, Some(job))) && !CanAct(s, reqs, Lookup(r, None))
              && Act(s, reqs, Lookup(r, Some(job))) == s.(phases := s.phases[r := Found(job)])
    ensures At(s, r, Checking) && Blocks(reqs[r], s.rows[job]) ==>
              && CanAct(s, reqs, Conflict(r, job)) && !CanAct(s, reqs, Pass(r))
              && Act(s, reqs, Conflict(r, job)) == s.(phases := s.phases[r := Conflicted(job)])
    ensures At(s, r, Checking) && CanAct(s, reqs, Refuse(r)) ==>
              Act(s, reqs, Refuse(r)) == s.(phases := s.phases[r := Refused])
    ensures At(s, r, Inserting) && s.rows[job].key == reqs[r].key ==>
              && CanAct(s, reqs, Collide(r)) && (forall other :: !CanAct(s, reqs, Insert(r, other)))
              && var s1 := Act(s, reqs, Collide(r));
              && CanAct(s1, reqs, ReadWinner(r, Some(job)))
              && Act(s1, reqs, ReadWinner(r, Some(job))) == s.(phases := s.phases[r := Found(job)])
  {
    if At(s, r, Checking) { GuardIff(s, reqs, r); }
    assert s.phases[r := Reading][r := Found(job)] == s.phases[r := Found(job)];
  }

  ghost predicate KeysUnique(rows: map<JobId, Row>) {
    forall a, b :: a in rows && b in rows && rows[a].key == rows[b].key ==> a == b
  }

  ghost predicate Start(s: System) {
    KeysUnique(s.rows) && s.added == [] && forall r :: r in s.phases ==> s.phases[r].Looking?
  }

  predicate Moves(s: System, reqs: Requests, a: Action, t: System) {
    CanAct(s, reqs, a) && t == Act(s, reqs, a)
  }

  ghost predicate IsRun(trace: seq<System>, actions: seq<Action>, reqs: Requests) {
    && |trace| == |actions| + 1 && Start(trace[0])
    && forall i :: 0 <= i < |actions| ==> Moves(trace[i], reqs, actions[i], trace[i + 1])
  }

  // ----- the invariant -----

  /** The job a request has inserted, whatever became of it afterwards. */
  function Inserted(p: Phase): Option<JobId> {
    if p.Enqueuing? || p.Linking? || p.Created? then Some(p.job)
    else if p.Errored? then p.inserted
    else None
  }

  predicate InsertedOne(p: Phase, q: Phase) {
    Inserted(p).Some? && Inserted(p) == Inserted(q)
  }

  /** The job a request has put in the queue. */
  function Enqueued(p: Phase): Option<JobId> {
    if p.Linking? || p.Created? then Some(p.job)
    else if p.Errored? && p.landed then p.inserted
    else None
  }

  /** The job a request returned, or will if it does not throw. */
  function Result(p: Phase): Option<JobId> {
    if p.Enqueuing? || p.Linking? || p.Created? || p.Found? then Some(p.job) else None
  }

  ghost predicate PhaseHonest(s: System, initial: set<JobId>, reqs: Requests, r: RequestId)
    requires r in s.phases && r in reqs
  {
    var p := s.phases[r];
    && (Result(p).Some? ==> Result(p).value in s.rows && s.rows[Result(p).value].key == reqs[r].key)
    && (Inserted(p).Some? ==>
          Inserted(p).value !in initial && Inserted(p).value in s.rows && s.rows[Inserted(p).value].key == reqs[r].key)
    && (p.Reading? ==> !Answers(s.rows, reqs[r].key, None))
    && (p.Conflicted? ==> p.with_ in s.rows && s.rows[p.with_].key != reqs[r].key)
  }

  ghost predicate Inv(s: System, initial: set<JobId>, reqs: Requests) {
    && KeysUnique(s.rows) && initial <= s.rows.Keys
    && (forall r :: r in s.phases && r in reqs ==> PhaseHonest(s, initial, reqs, r))
    && (forall r :: r in s.phases && r !in reqs ==> s.phases[r].Looking?)
    && OneInserter(s)
    && Additions(s)
  }

  ghost predicate OneInserter(s: System) {
    forall p, q :: p in s.phases && q in s.phases && InsertedOne(s.phases[p], s.phases[q]) ==> p == q
  }

  ghost predicate HasEnqueued(s: System, job: JobId) {
    exists r :: r in s.phases && Enqueued(s.phases[r]) == Some(job)
  }

  /** The queue has been given each job once, by the request that inserted it. */
  ghost predicate Additions(s: System) {
    && Distinct(s.added)
    && (forall i :: 0 <= i < |s.added| ==> HasEnqueued(s, s.added[i]))
    && (forall r :: r in s.phases && Enqueued(s.phases[r]).Some? ==> Enqueued(s.phases[r]).value in s.added)
  }

  lemma AdditionsFrame(s: System, t: System, r: RequestId, p: Phase)
    requires Additions(s) && t.added == s.added && r in s.phases && t.phases == s.phases[r := p]
    requires Enqueued(p) == Enqueued(s.phases[r])
    ensures Additions(t)
  {
    forall i | 0 <= i < |t.added| ensures HasEnqueued(t, t.added[i]) {
      assert HasEnqueued(s, s.added[i]);
      var q :| q in s.phases && Enqueued(s.phases[q]) == Some(s.added[i]);
      assert q in t.phases && Enqueued(t.phases[q]) == Some(t.added[i]);
    }
    forall q | q in t.phases && Enqueued(t.phases[q]).Some? ensures Enqueued(t.phases[q]).value in t.added {
      assert Enqueued(t.phases[q]) == Enqueued(s.phases[q]);
    }
  }

  lemma AdditionsGrow(s: System, t: System, r: RequestId, p: Phase, job: JobId)
    requires Additions(s) && OneInserter(s) && r in s.phases && s.phases[r] == Enqueuing(job)
    requires t.added == s.added + [job] && t.phases == s.phases[r := p] && Enqueued(p) == Some(job)
    ensures Additions(t)
  {
    forall i | 0 <= i < |s.added| ensures s.added[i] != job {
      assert HasEnqueued(s, s.added[i]);
      var q :| q in s.phases && Enqueued(s.phases[q]) == Some(s.added[i]);
      assert Inserted(s.phases[q]) == Some(s.added[i]);
    }
    forall i | 0 <= i < |t.added| ensures HasEnqueued(t, t.added[i]) {
      if i < |s.added| {
        assert HasEnqueued(s, s.added[i]);
        var q :| q in s.phases && Enqueued(s.phases[q]) == Some(s.added[i]);
        assert q in t.phases && Enqueued(t.phases[q]) == Some(t.added[i]);
      } else {
        assert r in t.phases && Enqueued(t.phases[r]) == Some(job);
      }
    }
    forall q | q in t.phases && Enqueued(t.phases[q]).Some? ensures Enqueued(t.phases[q]).value in t.added {
      if q != r { assert Enqueued(t.phases[q]) == Enqueued(s.phases[q]) && Enqueued(s.phases[q]).value in s.added; }
    }
  }

  lemma OthersStayHonest(s: System, t: System, initial: set<JobId>, reqs: Requests, r: RequestId, p: Phase)
    requires t.rows == s.rows && r in s.phases && r in reqs && t.phases == s.phases[r := p]
    requires forall q :: q in s.phases && q in reqs ==> PhaseHonest(s, initial, reqs, q)
    requires PhaseHonest(t, initial, reqs, r)
    ensures forall q :: q in t.phases && q in reqs ==> PhaseHonest(t, initial, reqs, q)
  {
    forall q | q in t.phases && q in reqs ensures PhaseHonest(t, initial, reqs, q) {
      if q != r { assert PhaseHonest(s, initial, reqs, q); }
    }
  }

  lemma QuietKeeps(s: System, initial: set<JobId>, reqs: Requests, a: Action)
    requires Inv(s, initial, reqs) && CanAct(s, reqs, a)
    requires !a.Insert? && !a.Elsewhere? && Act(s, reqs, a).added == s.added
    ensures Inv(Act(s, reqs, a), initial, reqs)
  {
    var t := Act(s, reqs, a);
    var p := t.phases[a.r];
    assert t.phases == s.phases[a.r := p];
    assert PhaseHonest(s, initial, reqs, a.r);
    PhaseQuiet(s, initial, reqs, a);
    OthersStayHonest(s, t, initial, reqs, a.r, p);
    AdditionsFrame(s, t, a.r, p);
    InserterFrame(s, t, a.r, p);
  }

  lemma PhaseQuiet(s: System, initial: set<JobId>, reqs: Requests, a: Action)
    requires KeysUnique(s.rows) && CanAct(s, reqs, a) && !a.Insert? && !a.Elsewhere? && Act(s, reqs, a).added == s.added
    requires PhaseHonest(s, initial, reqs, a.r)
    ensures var t := Act(s, reqs, a);
            && t.rows == s.rows && PhaseHonest(t, initial, reqs, a.r)
            && Inserted(t.phases[a.r]) == Inserted(s.phases[a.r]) && Enqueued(t.phases[a.r]) == Enqueued(s.phases[a.r])
  {
  }

  lemma InserterFrame(s: System, t: System, r: RequestId, p: Phase)
    requires OneInserter(s) && r in s.phases && t.phases == s.phases[r := p] && Inserted(p) == Inserted(s.phases[r])
    ensures OneInserter(t)
  {
    forall x, y | x in t.phases && y in t.phases && InsertedOne(t.phases[x], t.phases[y]) ensures x == y {
      assert InsertedOne(s.phases[x], s.phases[y]);
    }
  }

  lemma InsertKeeps(s: System, initial: set<JobId>, reqs: Requests, r: RequestId, job: JobId)
    requires Inv(s, initial, reqs) && CanAct(s, reqs, Insert(r, job))
    ensures Inv(Act(s, reqs, Insert(r, job)), initial, reqs)
  {
    var t := Act(s, reqs, Insert(r, job));
    assert t.phases == s.phases[r := Enqueuing(job)];
    AdditionsFrame(s, t, r, Enqueuing(job));
    forall q | q in t.phases && q in reqs ensures PhaseHonest(t, initial, reqs, q) {
      assert PhaseHonest(s, initial, reqs, q);
      if s.phases[q].Reading? {
        var other :| other in s.rows && s.rows[other].key == reqs[q].key;
        assert other in t.rows;
      }
    }
    forall q | q in s.phases && Inserted(s.phases[q]).Some? ensures Inserted(s.phases[q]).value != job {
      assert q in reqs && PhaseHonest(s, initial, reqs, q);
    }
  }

  lemma AddKeeps(s: System, initial: set<JobId>, reqs: Requests, r: RequestId, a: Action)
    requires Inv(s, initial, reqs) && (a == Add(r) || a == AddFails(r, true)) && CanAct(s, reqs, a)
    ensures Inv(Act(s, reqs, a), initial, reqs)
  {
    var t := Act(s, reqs, a);
    assert PhaseHonest(s, initial, reqs, r);
    AdditionsGrow(s, t, r, t.phases[r], s.phases[r].job);
    forall q | q in t.phases && q in reqs ensures PhaseHonest(t, initial, reqs, q) {
      assert PhaseHonest(s, initial, reqs, q);
    }
  }

  lemma ElsewhereKeeps(s: System, initial: set<JobId>, reqs: Requests, job: JobId, status: Status)
    requires Inv(s, initial, reqs) && CanAct(s, reqs, Elsewhere(job, status))
    ensures Inv(Act(s, reqs, Elsewhere(job, status)), initial, reqs)
  {
    var t := Act(s, reqs, Elsewhere(job, status));
    forall q | q in t.phases && q in reqs ensures PhaseHonest(t, initial, reqs, q) {
      assert PhaseHonest(s, initial, reqs, q);
      if s.phases[q].Reading? {
        var other :| other in s.rows && s.rows[other].key == reqs[q].key;
        assert other in t.rows;
      }
    }
    forall i | 0 <= i < |t.added| ensures HasEnqueued(t, t.added[i]) {
      assert HasEnqueued(s, s.added[i]);
    }
  }

  lemma {:induction false} RunKeepsInv(trace: seq<System>, actions: seq<Action>, reqs: Requests, i: nat)
    requires IsRun(trace, actions, reqs) && i < |trace|
    ensures Inv(trace[i], trace[0].rows.Keys, reqs)
  {
    if i == 0 {
    } else {
      RunKeepsInv(trace, actions, reqs, i - 1);
      assert Moves(trace[i - 1], reqs, actions[i - 1], trace[i - 1 + 1]);
      var s, initial := trace[i - 1], trace[0].rows.Keys;
      match actions[i - 1] {
        case Insert(r, job) => InsertKeeps(s, initial, reqs, r, job);
        case Elsewhere(job, status) => ElsewhereKeeps(s, initial, reqs, job, status);
        case Add(r) => AddKeeps(s, initial, reqs, r, actions[i - 1]);
        case AddFails(r, landed) =>
          if landed {
            AddKeeps(s, initial, reqs, r, actions[i - 1]);
          } else {
            QuietKeeps(s, initial, reqs, actions[i - 1]);
          }
        case a => QuietKeeps(s, initial, reqs, a);
      }
    }
  }

  // ----- what a key is worth -----

  /** However the requests that carry one key interleave: one row, one answer for all of
      them, one creation reported, and the queue given the job by that request and once. */
  lemma OneJobPerKey(trace: seq<System>, actions: seq<Action>, reqs: Requests, i: nat, p: RequestId, q: RequestId)
    requires IsRun(trace, actions, reqs) && i < |trace|
    requires p in reqs && q in reqs && reqs[p].key == reqs[q].key && p in trace[i].phases && q in trace[i].phases
    ensures KeysUnique(trace[i].rows)
    ensures var a, b := Result(trace[i].phases[p]), Result(trace[i].phases[q]);
            a.Some? && b.Some? ==> a == b && a.value in trace[i].rows && trace[i].rows[a.value].key == reqs[p].key
    ensures trace[i].phases[p].Created? && trace[i].phases[q].Created? ==> p == q
    ensures !Answers(trace[0].rows, reqs[p].key, None) ==> !trace[i].phases[p].Created?
  {
    RunKeepsInv(trace, actions, reqs, i);
    var s, initial := trace[i], trace[0].rows.Keys;
    assert PhaseHonest(s, initial, reqs, p) && PhaseHonest(s, initial, reqs, q);
    if !Answers(trace[0].rows, reqs[p].key, None) && s.phases[p].Created? {
      var old_ :| old_ in trace[0].rows && trace[0].rows[old_].key == reqs[p].key;
      KeysPersist(trace, actions, reqs, i, old_);
    }
  }

  /** A row keeps its key for good. */
  lemma {:induction false} KeysPersist(trace: seq<System>, actions: seq<Action>, reqs: Requests, i: nat, job: JobId)
    requires IsRun(trace, actions, reqs) && i < |trace| && job in trace[0].rows
    ensures job in trace[i].rows && trace[i].rows[job].key == trace[0].rows[job].key
  {
    if i == 0 {
    } else {
      KeysPersist(trace, actions, reqs, i - 1, job);
      assert Moves(trace[i - 1], reqs, actions[i - 1], trace[i - 1 + 1]);
    }
  }

  /** Only the request that inserted a job puts it in the queue, and once; it is there
      whenever a request reports having created it. The converse is false: the two commands
      of enqueueing can be parted, and a job be in the queue whose request threw. */
  lemma EnqueuedByItsInserter(trace: seq<System>, actions: seq<Action>, reqs: Requests, i: nat, job: JobId)
    requires IsRun(trace, actions, reqs) && i < |trace|
    ensures job in trace[i].added <==> HasEnqueued(trace[i], job)
    ensures multiset(trace[i].added)[job] <= 1
    ensures forall r, q :: r in trace[i].phases && trace[i].phases[r] == Created(job)
                           && q in trace[i].phases && Inserted(trace[i].phases[q]) == Some(job) ==>
                             r == q && job in trace[i].added
    ensures job in trace[i].added && (forall r :: !At(trace[i], r, Created(job))) <==>
            exists r :: At(trace[i], r, Linking(job)) || At(trace[i], r, Errored(Some(job), true))
  {
    RunKeepsInv(trace, actions, reqs, i);
    AtMostOnce(trace[i].added, job);
    if job in trace[i].added { OneEnqueuer(trace[i], job); }
  }

  lemma OneEnqueuer(s: System, job: JobId)
    requires OneInserter(s) && Additions(s) && job in s.added
    ensures HasEnqueued(s, job)
    ensures exists r :: At(s, r, Linking(job)) || At(s, r, Created(job)) || At(s, r, Errored(Some(job), true))
    ensures forall r, q :: r in s.phases && Inserted(s.phases[r]) == Some(job)
                           && q in s.phases && Inserted(s.phases[q]) == Some(job) ==>
                             r == q
  {
    var k :| 0 <= k < |s.added| && s.added[k] == job;
    assert HasEnqueued(s, s.added[k]);
    var r :| r in s.phases && Enqueued(s.phases[r]) == Some(job);
    assert At(s, r, Linking(job)) || At(s, r, Created(job)) || At(s, r, Errored(Some(job), true));
  }

  /** A run that does it. */
  lemma EnqueuedButUnreported(reqs: Requests, job: JobId) returns (trace: seq<System>, actions: seq<Action>)
    requires 0 in reqs
    ensures IsRun(trace, actions, reqs)
    ensures var end := trace[|actions|];
            job in end.added && At(end, 0, Errored(Some(job), true)) && forall r :: !At(end, r, Created(job))
  {
    var row := RowOf(reqs[0]);
    trace, actions := Inserts(reqs, job);
    trace, actions := Extend(trace, actions, reqs, Add(0), System(map[job := row], [job], map[0 := Linking(job)]));
    trace, actions := Extend(trace, actions, reqs, LinkFails(0),
                             System(map[job := row], [job], map[0 := Errored(Some(job), true)]));
  }

  lemma Inserts(reqs: Requests, job: JobId) returns (trace: seq<System>, actions: seq<Action>)
    requires 0 in reqs
    ensures IsRun(trace, actions, reqs)
    ensures trace[|actions|] == System(map[job := RowOf(reqs[0])], [], map[0 := Enqueuing(job)])
  {
    var row := RowOf(reqs[0]);
    trace, actions := [System(map[], [], map[0 := Looking])], [];
    trace, actions := Extend(trace, actions, reqs, Lookup(0, None), System(map[], [], map[0 := Checking]));
    trace, actions := Extend(trace, actions, reqs, Pass(0), System(map[], [], map[0 := Inserting]));
    var last := System(map[job := row], [], map[0 := Enqueuing(job)]);
    trace, actions := Extend(trace, actions, reqs, Insert(0, job), last);
  }

  lemma {:induction false} AtMostOnce(s: seq<JobId>, job: JobId)
    requires Distinct(s)
    ensures multiset(s)[job] <= 1
  {
    if s == [] {
    } else {
      AtMostOnce(s[1..], job);
      assert s == [s[0]] + s[1..];
      if s[0] == job { assert job !in s[1..]; assert job !in multiset(s[1..]); }
    }
  }

  /** Losing the race is never an error: whoever hits the constraint finds the winner, and
      nobody is refused because of a row with its own key. */
  lemma LosersFindTheWinner(trace: seq<System>, actions: seq<Action>, reqs: Requests, i: nat, r: RequestId)
    requires IsRun(trace, actions, reqs) && i < |trace| && r in reqs && r in trace[i].phases
    ensures trace[i].phases[r].Reading? ==> !CanAct(trace[i], reqs, ReadWinner(r, None))
    ensures trace[i].phases[r].Conflicted? ==>
              trace[i].phases[r].with_ in trace[i].rows && trace[i].rows[trace[i].phases[r].with_].key != reqs[r].key
  {
    RunKeepsInv(trace, actions, reqs, i);
    assert PhaseHonest(trace[i], trace[0].rows.Keys, reqs, r);
  }

  // ----- what it takes a key for -----

  /** Two keys are two publications: both requests look before either inserts, and the same
      video is in the queue twice, under two jobs that each request reports as created. */
  lemma TwoKeysPublishTwice(reqs: Requests, a: JobId, b: JobId) returns (trace: seq<System>, actions: seq<Action>)
    requires 0 in reqs && 1 in reqs && a != b
    requires reqs[0].key != reqs[1].key && reqs[0].account == reqs[1].account
    requires reqs[0].video == reqs[1].video && reqs[0].interactive == reqs[1].interactive
    ensures IsRun(trace, actions, reqs) && trace[0].rows == map[]
    ensures var end := trace[|actions|];
            && end.added == [a, b] && At(end, 0, Created(a)) && At(end, 1, Created(b)) && a in end.rows && b in end.rows
            && (reqs[0].interactive || reqs[0].video.Some? ==>
                InTheWay(reqs[1], end.rows[a]) && InTheWay(reqs[0], end.rows[b]))
  {
    trace, actions := BothInsert(reqs, a, b);
    var rows := map[a := RowOf(reqs[0]), b := RowOf(reqs[1])];
    var s1 := System(rows, [a], map[0 := Linking(a), 1 := Enqueuing(b)]);
    var s2 := System(rows, [a, b], map[0 := Linking(a), 1 := Linking(b)]);
    trace, actions := Extend(trace, actions, reqs, Add(0), s1);
    trace, actions := Extend(trace, actions, reqs, Add(1), s2);
    var s3 := System(rows, [a, b], map[0 := Created(a), 1 := Linking(b)]);
    var s4 := System(rows, [a, b], map[0 := Created(a), 1 := Created(b)]);
    trace, actions := Extend(trace, actions, reqs, Link(0), s3);
    trace, actions := Extend(trace, actions, reqs, Link(1), s4);
  }

  lemma BothInsert(reqs: Requests, a: JobId, b: JobId) returns (trace: seq<System>, actions: seq<Action>)
    requires 0 in reqs && 1 in reqs && a != b && reqs[0].key != reqs[1].key
    ensures IsRun(trace, actions, reqs) && trace[0].rows == map[]
    ensures trace[|actions|] ==
            System(map[a := RowOf(reqs[0]), b := RowOf(reqs[1])], [], map[0 := Enqueuing(a), 1 := Enqueuing(b)])
  {
    trace, actions := BothPass(reqs);
    var p, q := RowOf(reqs[0]), RowOf(reqs[1]);
    var s5 := System(map[a := p], [], map[0 := Enqueuing(a), 1 := Inserting]);
    var s6 := System(map[a := p, b := q], [], map[0 := Enqueuing(a), 1 := Enqueuing(b)]);
    trace, actions := Extend(trace, actions, reqs, Insert(0, a), s5);
    trace, actions := Extend(trace, actions, reqs, Insert(1, b), s6);
  }

  lemma Extend(trace: seq<System>, actions: seq<Action>, reqs: Requests, a: Action, t: System)
      returns (trace1: seq<System>, actions1: seq<Action>)
    requires IsRun(trace, actions, reqs) && Moves(trace[|actions|], reqs, a, t)
    ensures IsRun(trace1, actions1, reqs) && trace1[0] == trace[0] && trace1[|actions1|] == t
  {
    trace1, actions1 := trace + [t], actions + [a];
    forall i | 0 <= i < |actions1| ensures Moves(trace1[i], reqs, actions1[i], trace1[i + 1]) {
      if i < |actions| { assert Moves(trace[i], reqs, actions[i], trace[i + 1]); }
    }
  }

  lemma BothPass(reqs: Requests) returns (trace: seq<System>, actions: seq<Action>)
    requires 0 in reqs && 1 in reqs
    ensures IsRun(trace, actions, reqs) && trace[0].rows == map[]
    ensures trace[|actions|] == System(map[], [], map[0 := Inserting, 1 := Inserting])
  {
    trace, actions := [System(map[], [], map[0 := Looking, 1 := Looking])], [];
    var s1 := System(map[], [], map[0 := Checking, 1 := Looking]);
    var s2 := System(map[], [], map[0 := Checking, 1 := Checking]);
    trace, actions := Extend(trace, actions, reqs, Lookup(0, None), s1);
    trace, actions := Extend(trace, actions, reqs, Lookup(1, None), s2);
    trace, actions := Extend(trace, actions, reqs, Pass(0), System(map[], [], map[0 := Inserting, 1 := Checking]));
    trace, actions := Extend(trace, actions, reqs, Pass(1), System(map[], [], map[0 := Inserting, 1 := Inserting]));
  }
}
