/** One publish job: its row, its queue entry, the delivery that is running it, and the
    requests and listeners that write the row from elsewhere. Every database or queue
    command is a step of its own. */
module JobProtocol {
  import opened Options

  datatype Status =
    | Queued | Scheduled | Processing | AwaitingHuman | Verifying | Completed | Failed | Cancelled | Dead

  datatype EntryState = Waiting | Delayed | Active | Done | Exhausted

  /** `allowed` is the queue's own attempt budget, fixed when the entry is added. */
  datatype Entry = Entry(state: EntryState, attemptsMade: nat, allowed: nat)

  predicate IsLive(e: Option<Entry>) {
    e.Some? && (e.value.state.Active? || e.value.state.Waiting? || e.value.state.Delayed?)
  }

  datatype Delivery =
    | Idle
    | Loading
    | Loaded
    | Begun(attempt: nat)
    | Calling(attempt: nat)
    | Recorded
    | Failing(attempt: nat, retryable: bool, seen: Status)
    | Thrown(retryable: bool)

  datatype State = State(
    row: Status,
    max: nat,                 // the row's maxAttempts
    entry: Option<Entry>,
    delivery: Delivery,
    cancels: Pipeline,        // cancelJob calls: read, then remove, then write
    retries: Pipeline,        // retryJob calls: read, then write, then remove, then add
    recoveries: Recovering,   // recoverOrphans: listed, looked up, written, removed, added
    deadLetters: nat,         // failed listeners that will write DEAD
    calls: nat)               // publisher calls so far

  /** How many calls have taken their first command and their second and nothing since. A
      retry that has taken its third is about to add. */
  datatype Pipeline = Pipeline(read: nat, next: nat, adding: nat)

  /** How many recoveries have this row in their listing; have found an entry for it that is
      not live, or none at all; have written it, with that entry still to remove; and have
      only to add. */
  datatype Recovering = Recovering(listed: nat, doomed: nat, bare: nat, written: nat, adding: nat)

  datatype Step =
    | Deliver | Load | Defer | Begin | Call | Record | Finish
    | Fail(retryable: bool) | FailWrite | Settle | DeadLetter
    | Crash | Stall
    | RecoverList | RecoverLookup | RecoverWrite(later: bool, found: bool) | RecoverRemove
    | RecoverAdd(defaultAttempts: nat, later: bool)
    | CancelRead | CancelRemove(known: bool) | CancelWrite
    | RetryRead | RetryWrite | RetryRemove | RetryAdd

  predicate Cancellable(s: Status) {
    s.Queued? || s.Scheduled? || s.Processing? || s.AwaitingHuman?
  }

  predicate Retryable(s: Status) {
    s.Failed? || s.Dead?
  }

  predicate Enabled(s: State, step: Step) {
    match step
    case Deliver => s.delivery.Idle? && s.entry.Some? && (s.entry.value.state.Waiting? || s.entry.value.state.Delayed?)
    case Load => s.delivery.Loading?
    case Defer => s.delivery.Loaded?
    case Begin => s.delivery.Loaded?
    case Call => s.delivery.Begun?
    case Record => s.delivery.Calling?
    case Finish => s.delivery.Recorded?
    case Fail(_) => s.delivery.Calling? || s.delivery.Begun?
    case FailWrite => s.delivery.Failing?
    case Settle => s.delivery.Thrown?
    case DeadLetter => s.deadLetters > 0
    case Crash => !s.delivery.Idle?
    case Stall => s.delivery.Idle? && s.entry.Some? && s.entry.value.state.Active?
    case RecoverList => s.row.Processing? || s.row.Queued? || s.row.Scheduled?
    case RecoverLookup => s.recoveries.listed > 0
    case RecoverWrite(_, found) => if found then s.recoveries.doomed > 0 else s.recoveries.bare > 0
    case RecoverRemove => s.recoveries.written > 0
    case RecoverAdd(_, _) => s.recoveries.adding > 0
    case CancelRead => Cancellable(s.row)
    case CancelRemove(_) => s.cancels.read > 0
    case CancelWrite => s.cancels.next > 0
    case RetryRead => Retryable(s.row)
    case RetryWrite => s.retries.read > 0
    case RetryRemove => s.retries.next > 0
    case RetryAdd => s.retries.adding > 0
  }

  function Move(e: Option<Entry>, state: EntryState): Option<Entry> {
    if e.None? then None else Some(e.value.(state := state))
  }

  function Made(e: Option<Entry>): nat {
    if e.None? then 0 else e.value.attemptsMade
  }

  /** A locked entry cannot be removed, and an id that is still there is not added again. */
  function Remove(e: Option<Entry>): Option<Entry> {
    if e.Some? && e.value.state.Active? then e else None
  }

  function Add(e: Option<Entry>, allowed: nat, later: bool): Option<Entry> {
    if e.Some? then e else Some(Entry(if later then Delayed else Waiting, 0, allowed))
  }

  predicate Final(attempt: nat, max: nat, retryable: bool) {
    !retryable || attempt >= max
  }

  predicate Spent(e: Entry, retryable: bool) {
    !retryable || e.attemptsMade >= e.allowed
  }

  function After(s: State, step: Step): State
    requires Enabled(s, step)
  {
    match step
    case Deliver => s.(entry := Move(s.entry, Active), delivery := Loading)
    case Load =>
      if s.row.Cancelled? || s.row.Completed? then s.(entry := Move(s.entry, Done), delivery := Idle)
      else s.(delivery := Loaded)
    case Defer => s.(entry := Move(s.entry, Delayed), delivery := Idle)
    case Begin => s.(row := Processing, delivery := Begun(Made(s.entry) + 1))
    case Call => s.(delivery := Calling(s.delivery.attempt), calls := s.calls + 1)
    case Record => s.(row := Completed, delivery := Recorded)
    case Finish => s.(entry := Move(s.entry, Done), delivery := Idle)
    case Fail(retryable) => s.(delivery := Failing(s.delivery.attempt, retryable, s.row))
    case FailWrite =>
      var d := s.delivery;
      s.(row := if d.seen.Cancelled? || d.seen.Failed? then s.row
                else if Final(d.attempt, s.max, d.retryable) then Failed else Queued,
         delivery := Thrown(d.retryable))
    case Settle =>
      if s.entry.None? then s.(delivery := Idle) else
      var e := s.entry.value.(attemptsMade := s.entry.value.attemptsMade + 1);
      var spent := Spent(e, s.delivery.retryable);
      s.(entry := Some(e.(state := if spent then Exhausted else Delayed)),
         delivery := Idle,
         deadLetters := s.deadLetters + if spent then 1 else 0)
    case DeadLetter => s.(row := Dead, deadLetters := s.deadLetters - 1)
    case Crash => s.(delivery := Idle)
    case Stall => s.(entry := Move(s.entry, Waiting))
    case RecoverList => s.(recoveries := s.recoveries.(listed := s.recoveries.listed + 1))
    case RecoverLookup =>
      var listed := s.recoveries.listed - 1;
      if IsLive(s.entry) then s.(recoveries := s.recoveries.(listed := listed))
      else if s.entry.Some? then s.(recoveries := s.recoveries.(listed := listed, doomed := s.recoveries.doomed + 1))
      else s.(recoveries := s.recoveries.(listed := listed, bare := s.recoveries.bare + 1))
    case RecoverWrite(later, found) =>
      s.(row := if later then Scheduled else Queued,
         recoveries :=
           if found then s.recoveries.(doomed := s.recoveries.doomed - 1, written := s.recoveries.written + 1)
           else s.recoveries.(bare := s.recoveries.bare - 1, adding := s.recoveries.adding + 1))
    case RecoverRemove =>
      s.(entry := Remove(s.entry),
         recoveries := s.recoveries.(written := s.recoveries.written - 1, adding := s.recoveries.adding + 1))
    case RecoverAdd(defaultAttempts, later) =>
      s.(entry := Add(s.entry, defaultAttempts, later), recoveries := s.recoveries.(adding := s.recoveries.adding - 1))
    case CancelRead => s.(cancels := s.cancels.(read := s.cancels.read + 1))
    case CancelRemove(known) =>
      s.(entry := if known then Remove(s.entry) else s.entry,
         cancels := s.cancels.(read := s.cancels.read - 1, next := s.cancels.next + 1))
    case CancelWrite => s.(row := Cancelled, cancels := s.cancels.(next := s.cancels.next - 1))
    case RetryRead => s.(retries := s.retries.(read := s.retries.read + 1))
    case RetryWrite =>
      s.(row := Queued, retries := s.retries.(read := s.retries.read - 1, next := s.retries.next + 1))
    case RetryRemove =>
      s.(entry := Remove(s.entry), retries := s.retries.(next := s.retries.next - 1, adding := s.retries.adding + 1))
    case RetryAdd =>
      s.(entry := Add(s.entry, s.max, false), retries := s.retries.(adding := s.retries.adding - 1))
  }

  predicate Steps(s: State, step: Step, t: State) {
    Enabled(s, step) && t == After(s, step)
  }

  ghost predicate IsPath(trace: seq<State>, steps: seq<Step>) {
    |trace| == |steps| + 1 && forall i :: 0 <= i < |steps| ==> Steps(trace[i], steps[i], trace[i + 1])
  }

  // ----- no publication after completion -----

  /** Somebody has read the row, or has settled its last failure, and will write it without
      looking again. */
  predicate WriteInFlight(s: State) {
    || s.retries.read > 0 || s.deadLetters > 0
    || s.recoveries.listed > 0 || s.recoveries.doomed > 0 || s.recoveries.bare > 0
  }

  /** COMPLETED has just been written, and nobody is about to overwrite it with a status
      that would have the job run again. */
  predicate QuietlyCompleted(s: State) {
    s.delivery.Recorded? && s.row.Completed? && !WriteInFlight(s)
  }

  /** What the row can still become, and what deliveries can still do, after that. */
  predicate Over(s: State) {
    && (s.row.Completed? || s.row.Cancelled?)
    && !WriteInFlight(s)
    && (s.delivery.Idle? || s.delivery.Loading? || s.delivery.Recorded?)
  }

  lemma OverStaysOver(s: State, step: Step)
    requires Over(s) && Enabled(s, step)
    ensures Over(After(s, step)) && After(s, step).calls == s.calls
  {
  }

  /** Whatever happens next, duplicates, late cancels, crashes and recoveries included. */
  lemma {:induction false} NoCallAfterCompletion(trace: seq<State>, steps: seq<Step>, i: nat)
    requires IsPath(trace, steps) && QuietlyCompleted(trace[0]) && i < |trace|
    ensures trace[i].calls == trace[0].calls && Over(trace[i])
  {
    if i == 0 {
    } else {
      NoCallAfterCompletion(trace, steps, i - 1);
      assert Steps(trace[i - 1], steps[i - 1], trace[i - 1 + 1]);
      OverStaysOver(trace[i - 1], steps[i - 1]);
    }
  }

  // ----- and when it is not so -----

  function Execute(s: State, steps: seq<Step>): (t: Option<State>)
    decreases |steps|
  {
    if steps == [] then Some(s)
    else if !Enabled(s, steps[0]) then None
    else Execute(After(s, steps[0]), steps[1..])
  }

  lemma {:induction false} ExecuteIsPath(s: State, steps: seq<Step>) returns (trace: seq<State>)
    requires Execute(s, steps).Some?
    ensures IsPath(trace, steps) && trace[0] == s && trace[|steps|] == Execute(s, steps).value
    decreases |steps|
  {
    if steps == [] {
      trace := [s];
    } else {
      var rest := ExecuteIsPath(After(s, steps[0]), steps[1..]);
      trace := [s] + rest;
      forall i | 0 <= i < |steps| ensures Steps(trace[i], steps[i], trace[i + 1]) {
        if i > 0 { assert Steps(rest[i - 1], steps[1..][i - 1], rest[i - 1 + 1]); }
      }
    }
  }

  lemma Then(s: State, step: Step, rest: seq<Step>)
    requires Enabled(s, step)
    ensures Execute(s, [step] + rest) == Execute(After(s, step), rest)
  {
    assert ([step] + rest)[1..] == rest;
  }

  lemma {:induction false} ThenAll(s: State, a: seq<Step>, b: seq<Step>)
    ensures Execute(s, a + b) == if Execute(s, a).Some? then Execute(Execute(s, a).value, b) else None
    decreases |a|
  {
    if a == [] {
      assert a + b == b;
    } else {
      assert (a + b)[1..] == a[1..] + b;
      if Enabled(s, a[0]) { ThenAll(After(s, a[0]), a[1..], b); }
    }
  }

  /** One step more. */
  lemma Do(s: State, steps: seq<Step>, t: State, step: Step) returns (steps1: seq<Step>, t1: State)
    requires Execute(s, steps) == Some(t) && Enabled(t, step)
    ensures t1 == After(t, step) && Execute(s, steps1) == Some(t1)
  {
    steps1, t1 := steps + [step], After(t, step);
    ThenAll(s, steps, [step]);
    assert Execute(t1, []) == Some(t1) && [step][1..] == [];
  }

  const REDELIVERY := [Deliver, Load, Begin, Call]

  lemma RedeliveryCalls(s: State)
    requires Enabled(s, Deliver) && !s.row.Completed? && !s.row.Cancelled?
    ensures Execute(s, REDELIVERY) == Some(s.(row := Processing, entry := Move(s.entry, Active),
                                              delivery := Calling(Made(s.entry) + 1), calls := s.calls + 1))
  {
    var s1 := After(s, Deliver);
    var s2 := After(s1, Load);
    var s3 := After(s2, Begin);
    var s4 := After(s3, Call);
    assert Execute(s4, []) == Some(s4);
    Then(s3, Call, []);
    Then(s2, Begin, [Call]);
    Then(s1, Load, [Begin, Call]);
    Then(s, Deliver, [Load, Begin, Call]);
    assert REDELIVERY == [Deliver] + [Load, Begin, Call];
    assert [Load, Begin, Call] == [Load] + [Begin, Call] && [Begin, Call] == [Begin] + [Call] && [Call] == [Call] + [];
  }

  /** Delivered and published, after what went before. */
  lemma DoCall(s: State, steps: seq<Step>, t: State) returns (steps1: seq<Step>, t1: State)
    requires Execute(s, steps) == Some(t) && Enabled(t, Deliver) && !t.row.Completed? && !t.row.Cancelled?
    ensures t1 == t.(row := Processing, entry := Move(t.entry, Active), delivery := Calling(Made(t.entry) + 1),
                     calls := t.calls + 1)
    ensures Execute(s, steps1) == Some(t1)
  {
    steps1 := steps + REDELIVERY;
    RedeliveryCalls(t);
    ThenAll(s, steps, REDELIVERY);
    t1 := Execute(t, REDELIVERY).value;
  }

  predicate Settled(s: State) {
    s.delivery.Idle? && !(s.entry.Some? && s.entry.value.state.Active?)
  }

  lemma LateRetryCalls(s: State, steps: seq<Step>, t: State) returns (steps1: seq<Step>, t1: State)
    requires Execute(s, steps) == Some(t) && Settled(t) && t.retries.read > 0
    ensures Execute(s, steps1) == Some(t1)
    ensures t1 == t.(row := Processing, entry := Some(Entry(Active, 0, t.max)), delivery := Calling(1),
                     retries := t.retries.(read := t.retries.read - 1), calls := t.calls + 1)
  {
    steps1, t1 := Do(s, steps, t, RetryWrite);
    steps1, t1 := Do(s, steps1, t1, RetryRemove);
    steps1, t1 := Do(s, steps1, t1, RetryAdd);
    steps1, t1 := DoCall(s, steps1, t1);
  }

  /** A recovery that has looked the job up and has still to write it, and what it does then. */
  function LateRecovery(found: bool, defaultAttempts: nat): seq<Step> {
    if found then [RecoverWrite(false, true), RecoverRemove, RecoverAdd(defaultAttempts, false)]
    else [RecoverWrite(false, false), RecoverAdd(defaultAttempts, false)]
  }

  /** It found an entry, or found none and there is still none. */
  predicate Recoverable(s: State, found: bool) {
    Settled(s) && if found then s.recoveries.doomed > 0 else s.recoveries.bare > 0 && s.entry.None?
  }

  lemma LateRecoveryRequeues(s: State, found: bool, defaultAttempts: nat)
    requires Recoverable(s, found)
    ensures var t := Execute(s, LateRecovery(found, defaultAttempts));
            && t.Some? && t.value.row.Queued? && t.value.entry == Some(Entry(Waiting, 0, defaultAttempts))
            && t.value.delivery.Idle? && t.value.calls == s.calls && t.value.max == s.max
  {
    var s1 := After(s, RecoverWrite(false, found));
    var s2 := if found then After(s1, RecoverRemove) else s1;
    var add := RecoverAdd(defaultAttempts, false);
    assert Execute(After(s2, add), []) == Some(After(s2, add)) && [add] == [add] + [];
    Then(s2, add, []);
    if found {
      Then(s1, RecoverRemove, [add]);
      Then(s, RecoverWrite(false, true), [RecoverRemove] + [add]);
      assert LateRecovery(found, defaultAttempts) == [RecoverWrite(false, true)] + ([RecoverRemove] + [add]);
    } else {
      Then(s, RecoverWrite(false, false), [add]);
      assert LateRecovery(found, defaultAttempts) == [RecoverWrite(false, false)] + [add];
    }
  }

  lemma LateRecoveryCalls(s: State, steps: seq<Step>, t: State, found: bool) returns (steps1: seq<Step>)
    requires Execute(s, steps) == Some(t) && Recoverable(t, found)
    ensures Execute(s, steps1).Some? && Execute(s, steps1).value.calls == t.calls + 1
  {
    var recovery := LateRecovery(found, 3);
    LateRecoveryRequeues(t, found, 3);
    ThenAll(s, steps, recovery);
    var t1;
    steps1, t1 := DoCall(s, steps + recovery, Execute(t, recovery).value);
  }

  /** A recovery that found no entry adds none where there is one by now; but it has written the
      row, and the next recovery finds a row that says QUEUED beside a queue that is done with it. */
  lemma RowWithoutEntryCalls(s: State, steps: seq<Step>, t: State) returns (steps1: seq<Step>)
    requires Execute(s, steps) == Some(t) && Settled(t) && !IsLive(t.entry) && t.recoveries.bare > 0
    ensures Execute(s, steps1).Some? && Execute(s, steps1).value.calls == t.calls + 1
  {
    var t1;
    steps1, t1 := Do(s, steps, t, RecoverWrite(false, false));
    steps1, t1 := Do(s, steps1, t1, RecoverList);
    steps1, t1 := Do(s, steps1, t1, RecoverLookup);
    steps1 := LateRecoveryCalls(s, steps1, t1, t.entry.Some?);
  }

  lemma DoRecover(s: State, steps: seq<Step>, t: State, later: bool, defaultAttempts: nat)
      returns (steps1: seq<Step>, t1: State)
    requires Execute(s, steps) == Some(t) && !IsLive(t.entry)
    requires if t.entry.Some? then t.recoveries.doomed > 0 else t.recoveries.bare > 0
    ensures Execute(s, steps1) == Some(t1)
    ensures t1 == t.(row := if later then Scheduled else Queued,
                     entry := Some(Entry(if later then Delayed else Waiting, 0, defaultAttempts)),
                     recoveries := if t.entry.Some? then t.recoveries.(doomed := t.recoveries.doomed - 1)
                                   else t.recoveries.(bare := t.recoveries.bare - 1))
  {
    steps1, t1 := Do(s, steps, t, RecoverWrite(later, t.entry.Some?));
    if t.entry.Some? {
      steps1, t1 := Do(s, steps1, t1, RecoverRemove);
    }
    steps1, t1 := Do(s, steps1, t1, RecoverAdd(defaultAttempts, later));
  }

  /** A whole recovery, with nobody in between: a live entry is left alone, any other is replaced. */
  lemma RecoveryOf(s: State, later: bool, defaultAttempts: nat) returns (steps: seq<Step>)
    requires s.row.Queued? || s.row.Scheduled? || s.row.Processing?
    ensures Execute(s, steps) ==
            Some(if IsLive(s.entry) then s
                 else s.(row := if later then Scheduled else Queued,
                         entry := Some(Entry(if later then Delayed else Waiting, 0, defaultAttempts))))
  {
    var t;
    steps, t := Do(s, [], s, RecoverList);
    steps, t := Do(s, steps, t, RecoverLookup);
    if !IsLive(s.entry) {
      steps, t := DoRecover(s, steps, t, later, defaultAttempts);
    }
  }

  predicate CallsAgain(s: State, steps: seq<Step>) {
    Execute(s, steps).Some? && Execute(s, steps).value.calls > s.calls
  }

  /** Each kind of write in flight does it. */
  lemma WriteInFlightCalls(s: State) returns (steps: seq<Step>)
    requires s.delivery.Recorded? && s.row.Completed? && WriteInFlight(s)
    ensures CallsAgain(s, steps)
  {
    var t;
    steps, t := Do(s, [], s, Finish);
    if s.retries.read > 0 {
      steps, t := LateRetryCalls(s, steps, t);
    } else if s.deadLetters > 0 {
      steps, t := Do(s, steps, t, DeadLetter);
      steps, t := Do(s, steps, t, RetryRead);
      steps, t := LateRetryCalls(s, steps, t);
    } else if s.recoveries.doomed > 0 {
      steps := LateRecoveryCalls(s, steps, t, true);
    } else if s.recoveries.bare > 0 {
      steps := RowWithoutEntryCalls(s, steps, t);
    } else {
      steps, t := Do(s, steps, t, RecoverLookup);
      steps := LateRecoveryCalls(s, steps, t, t.entry.Some?);
    }
  }

  /** The exact condition. A job that has just completed can be published again if and only
      if somebody is about to write its row who looked at it before: a retry that read
      FAILED, a listener that will write DEAD, or another worker's recovery that listed the
      job before it completed. Status writes do not look at what they overwrite. */
  lemma RepublishedIff(s: State)
    requires s.delivery.Recorded? && s.row.Completed?
    ensures (exists steps :: CallsAgain(s, steps)) <==> WriteInFlight(s)
  {
    if WriteInFlight(s) {
      var steps := WriteInFlightCalls(s);
      assert CallsAgain(s, steps);
    } else if steps :| CallsAgain(s, steps) {
      var trace := ExecuteIsPath(s, steps);
      NoCallAfterCompletion(trace, steps, |steps|);
    }
  }

  /** Who is about to write the row. */
  datatype Writer = LateRetry | LateDeadLetter | LateListing | LateFound | LateBare

  predicate AboutToWrite(s: State, writer: Writer) {
    match writer
    case LateRetry => s.retries.read > 0
    case LateDeadLetter => s.deadLetters > 0
    case LateListing => s.recoveries.listed > 0
    case LateFound => s.recoveries.doomed > 0
    case LateBare => s.recoveries.bare > 0
  }

  /** As it stands right after it is enqueued with a budget of `allowed` attempts. */
  predicate Enqueued(s: State, allowed: nat) {
    && s.row.Queued? && s.entry == Some(Entry(Waiting, 0, allowed)) && s.delivery.Idle?
    && s.deadLetters == 0 && s.calls == 0
  }

  lemma DoFail(s: State, steps: seq<Step>, t: State) returns (steps1: seq<Step>, t1: State)
    requires Execute(s, steps) == Some(t) && t.delivery.Calling? && t.row.Processing? && t.entry.Some?
    ensures Execute(s, steps1) == Some(t1)
    ensures t1 == t.(row := Failed, delivery := Idle, deadLetters := t.deadLetters + 1,
                     entry := Some(Entry(Exhausted, Made(t.entry) + 1, t.entry.value.allowed)))
  {
    steps1, t1 := Do(s, steps, t, Fail(false));
    steps1, t1 := Do(s, steps1, t1, FailWrite);
    steps1, t1 := Do(s, steps1, t1, Settle);
  }

  /** An attempt that fails for good, and an operator who has seen it. */
  lemma FailsAndIsRead(s: State, allowed: nat) returns (steps: seq<Step>, t: State)
    requires Enqueued(s, allowed)
    ensures Execute(s, steps) == Some(t)
    ensures t == s.(row := Failed, entry := Some(Entry(Exhausted, 1, allowed)), deadLetters := 1, calls := 1,
                    retries := s.retries.(read := s.retries.read + 1))
  {
    assert Execute(s, []) == Some(s);
    steps, t := DoCall(s, [], s);
    steps, t := DoFail(s, steps, t);
    steps, t := Do(s, steps, t, RetryRead);
  }

  /** A worker boots in the middle of a retry, when the row says QUEUED and the queue is still
      done with the job, or holds no entry for it. */
  lemma RetriedUnderRecovery(s: State, steps: seq<Step>, t: State, found: bool)
      returns (steps1: seq<Step>, t1: State)
    requires Execute(s, steps) == Some(t) && Settled(t) && t.retries.read > 0
    requires t.entry.Some? && t.entry.value.state.Exhausted?
    ensures Execute(s, steps1) == Some(t1)
    ensures t1.delivery.Calling? && AboutToWrite(t1, if found then LateFound else LateBare) && t1.calls > t.calls
  {
    steps1, t1 := Do(s, steps, t, RetryWrite);
    if !found {
      steps1, t1 := Do(s, steps1, t1, RetryRemove);
    }
    steps1, t1 := Do(s, steps1, t1, RecoverList);
    steps1, t1 := Do(s, steps1, t1, RecoverLookup);
    steps1, t1 := FinishRetry(s, steps1, t1, found);
  }

  lemma FinishRetry(s: State, steps: seq<Step>, t: State, removes: bool) returns (steps1: seq<Step>, t1: State)
    requires Execute(s, steps) == Some(t) && Settled(t) && t.row.Queued?
    requires if removes then t.retries.next > 0 else t.retries.adding > 0 && t.entry.None?
    ensures Execute(s, steps1) == Some(t1)
    ensures t1.delivery.Calling? && t1.recoveries == t.recoveries && t1.calls == t.calls + 1
  {
    steps1, t1 := steps, t;
    if removes {
      steps1, t1 := Do(s, steps1, t1, RetryRemove);
    }
    steps1, t1 := Do(s, steps1, t1, RetryAdd);
    steps1, t1 := DoCall(s, steps1, t1);
  }

  /** From the queue to a completed job with a write in flight, of each kind: the retry, its
      double, the listener's late DEAD, or a worker that boots meanwhile. */
  lemma CompletesInFlight(s: State, allowed: nat, writer: Writer) returns (steps: seq<Step>, t: State)
    requires Enqueued(s, allowed)
    ensures Execute(s, steps) == Some(t)
    ensures t.delivery.Recorded? && t.row.Completed? && AboutToWrite(t, writer) && t.calls > 0
  {
    if writer.LateListing? {
      steps, t := DoCall(s, [], s);
      steps, t := Do(s, steps, t, RecoverList);
    } else {
      steps, t := FailsAndIsRead(s, allowed);
      if writer.LateRetry? || writer.LateDeadLetter? {
        steps, t := Do(s, steps, t, RetryRead);
        steps, t := LateRetryCalls(s, steps, t);
      } else {
        steps, t := RetriedUnderRecovery(s, steps, t, writer.LateFound?);
      }
    }
    steps, t := Do(s, steps, t, Record);
  }

  /** So each of them comes about: a job that is enqueued completes and is published again. */
  lemma PublishedAgain(s: State, allowed: nat, writer: Writer) returns (before: seq<Step>, after: seq<Step>)
    requires Enqueued(s, allowed)
    ensures var t := Execute(s, before);
            && t.Some? && t.value.delivery.Recorded? && t.value.row.Completed? && AboutToWrite(t.value, writer)
            && CallsAgain(t.value, after)
            && Execute(s, before + after).Some? && Execute(s, before + after).value.calls >= 2
  {
    var t;
    before, t := CompletesInFlight(s, allowed, writer);
    after := WriteInFlightCalls(t);
    ThenAll(s, before, after);
  }

  // ----- the calls, with nobody in between -----

  lemma Three(s: State, a: Step, b: Step, c: Step)
    requires Enabled(s, a) && Enabled(After(s, a), b) && Enabled(After(After(s, a), b), c)
    ensures Execute(s, [a, b, c]) == Some(After(After(After(s, a), b), c))
  {
    var s1 := After(s, a);
    var s2 := After(s1, b);
    assert Execute(After(s2, c), []) == Some(After(s2, c)) && [c] + [] == [c];
    Then(s2, c, []);
    Then(s1, b, [c]);
    Then(s, a, [b, c]);
    assert [a] + [b, c] == [a, b, c] && [b] + [c] == [b, c];
  }

  /** Cancelling works on what waits, runs or holds a device for a person, and on nothing else. It
      takes the entry out of the queue unless a worker has it. */
  lemma CancelIs(s: State, known: bool)
    ensures var t := Execute(s, [CancelRead, CancelRemove(known), CancelWrite]);
            && (t.Some? <==> s.row in {Queued, Scheduled, Processing, AwaitingHuman})
            && (t.Some? ==>
                  t.value == s.(row := Cancelled,
                                entry := if known && s.entry.Some? && s.entry.value.state != Active then None
                                         else s.entry))
  {
    if Enabled(s, CancelRead) {
      Three(s, CancelRead, CancelRemove(known), CancelWrite);
    }
  }

  /** Retrying works on what has failed or died, and starts over on the row's own budget, unless a
      worker still has the entry. */
  lemma RetryIs(s: State)
    ensures var t := Execute(s, [RetryRead] + [RetryWrite, RetryRemove, RetryAdd]);
            && (t.Some? <==> s.row in {Failed, Dead})
            && (t.Some? ==>
                  t.value == s.(row := Queued,
                                entry := if s.entry.Some? && s.entry.value.state == Active then s.entry
                                         else Some(Entry(Waiting, 0, s.max))))
  {
    if Enabled(s, RetryRead) {
      Then(s, RetryRead, [RetryWrite, RetryRemove, RetryAdd]);
      Three(After(s, RetryRead), RetryWrite, RetryRemove, RetryAdd);
    }
  }

  /** A recovery lists what waits, is scheduled or runs, and nothing else. */
  lemma RecoveryListsIff(s: State)
    ensures Execute(s, [RecoverList]).Some? <==> s.row in {Queued, Scheduled, Processing}
  {
    assert [RecoverList][1..] == [];
  }

  /** A delivery that the account's limits turn away costs no attempt and leaves the row. */
  lemma DeferralCostsNothing(s: State)
    requires Enabled(s, Deliver) && !s.row.Completed? && !s.row.Cancelled?
    ensures Execute(s, [Deliver, Load, Defer]) == Some(s.(entry := Move(s.entry, Delayed)))
    ensures Made(Move(s.entry, Delayed)) == Made(s.entry)
  {
    Three(s, Deliver, Load, Defer);
  }

  /** A worker that dies after it has published and before it has recorded it publishes once more:
      its entry stalls, and is delivered again on the attempt it did not use up. */
  lemma CrashPublishesAgain(s: State)
    requires s.delivery.Calling? && s.row.Processing? && s.entry.Some? && s.entry.value.state.Active?
    ensures var t := Execute(s, [Crash, Stall] + REDELIVERY);
            && t.Some? && t.value.calls == s.calls + 1 && t.value.delivery == Calling(Made(s.entry) + 1)
  {
    var steps, t := Do(s, [], s, Crash);
    steps, t := Do(s, steps, t, Stall);
    assert [Crash, Stall] == [Crash] + [Stall] && [Stall] + [] == [Stall];
    Then(s, Crash, [Stall]);
    Then(After(s, Crash), Stall, []);
    assert Execute(s, [Crash, Stall]) == Some(t);
    ThenAll(s, [Crash, Stall], REDELIVERY);
    RedeliveryCalls(t);
  }

  // ----- the retry budget -----

  /** Deliveries, deferrals and failures of one kind, with nobody interfering. */
  predicate Undisturbed(step: Step, transient: bool) {
    match step
    case Deliver => true
    case Load => true
    case Defer => true
    case Begin => true
    case Call => true
    case Fail(retryable) => retryable == transient
    case FailWrite => true
    case Settle => true
    case DeadLetter => true
    case _ => false
  }

  /** How many publisher calls a job that always fails this way gets. */
  function Budget(allowed: nat, transient: bool): nat {
    if transient then allowed else 1
  }

  /** What the row says between two attempts of which `made` have failed. */
  function Verdict(made: nat, max: nat, transient: bool): Status {
    if made > 0 && Final(made, max, transient) then Failed else Queued
  }

  predicate InBudget(s: State, allowed: nat, transient: bool) {
    && s.entry.Some? && s.entry.value.allowed == allowed
    && var made := s.entry.value.attemptsMade;
       match s.delivery
       case Idle =>
         if s.entry.value.state.Exhausted? then
           && s.calls == made == Budget(allowed, transient)
           && (s.row.Dead? <==> s.deadLetters == 0)
           && (s.deadLetters == 1 ==> s.row == Verdict(made, s.max, transient))
           && s.deadLetters <= 1
         else
           && (s.entry.value.state.Waiting? || s.entry.value.state.Delayed?)
           && s.calls == made < Budget(allowed, transient) && s.row == Verdict(made, s.max, transient)
               && s.deadLetters == 0
       case Loading =>
         s.entry.value.state.Active? && s.calls == made < Budget(allowed, transient)
             && s.row == Verdict(made, s.max, transient) && s.deadLetters == 0
       case Loaded =>
         s.entry.value.state.Active? && s.calls == made < Budget(allowed, transient)
             && s.row == Verdict(made, s.max, transient) && s.deadLetters == 0
       case Begun(attempt) =>
         s.entry.value.state.Active? && s.calls == made < Budget(allowed, transient) && attempt == made + 1
             && s.row.Processing? && s.deadLetters == 0
       case Calling(attempt) =>
         s.entry.value.state.Active? && made < Budget(allowed, transient) && attempt == made + 1 == s.calls
             && s.row.Processing? && s.deadLetters == 0
       case Failing(attempt, retryable, seen) =>
         && s.entry.value.state.Active? && made < Budget(allowed, transient) && attempt == made + 1 == s.calls
         && retryable == transient && seen.Processing? && s.row.Processing? && s.deadLetters == 0
       case Thrown(retryable) =>
         && s.entry.value.state.Active? && made + 1 == s.calls <= Budget(allowed, transient) && retryable == transient
         && s.row == Verdict(made + 1, s.max, transient) && s.deadLetters == 0
       case Recorded => false
  }

  /** A failure comes from the publisher: a job that cannot even be staged is left aside. */
  predicate FromPublisher(s: State, step: Step) {
    step.Fail? ==> s.delivery.Calling?
  }

  ghost predicate BudgetRun(trace: seq<State>, steps: seq<Step>, allowed: nat, transient: bool) {
    && IsPath(trace, steps) && Enqueued(trace[0], allowed)
    && forall i :: 0 <= i < |steps| ==> Undisturbed(steps[i], transient) && FromPublisher(trace[i], steps[i])
  }

  lemma StepInBudget(s: State, step: Step, allowed: nat, transient: bool)
    requires InBudget(s, allowed, transient) && Enabled(s, step) && Undisturbed(step, transient)
             && FromPublisher(s, step)
    ensures InBudget(After(s, step), allowed, transient) && After(s, step).max == s.max
  {
  }

  lemma {:induction false} RunInBudget(trace: seq<State>, steps: seq<Step>, allowed: nat, transient: bool, i: nat)
    requires BudgetRun(trace, steps, allowed, transient) && allowed > 0 && i < |trace|
    ensures InBudget(trace[i], allowed, transient) && trace[i].max == trace[0].max
  {
    if i == 0 {
    } else {
      RunInBudget(trace, steps, allowed, transient, i - 1);
      assert Steps(trace[i - 1], steps[i - 1], trace[i - 1 + 1]);
      StepInBudget(trace[i - 1], steps[i - 1], allowed, transient);
    }
  }

  /** A job whose every attempt fails transiently is dead after exactly as many publisher
      calls as it was allowed, one that fails permanently after exactly one, however often
      either was deferred; until then it has had fewer, and something is still to happen. */
  lemma ExactBudget(trace: seq<State>, steps: seq<Step>, allowed: nat, transient: bool, i: nat)
    requires BudgetRun(trace, steps, allowed, transient) && allowed > 0 && i < |trace|
    ensures trace[i].calls <= Budget(allowed, transient)
    ensures trace[i].row.Dead? ==> trace[i].calls == Budget(allowed, transient)
    ensures trace[i].row.Dead? <==>
              forall step :: Undisturbed(step, transient) && FromPublisher(trace[i], step) ==> !Enabled(trace[i], step)
  {
    RunInBudget(trace, steps, allowed, transient, i);
    var s := trace[i];
    if !s.row.Dead? {
      var next :=
        match s.delivery
        case Idle => if s.entry.value.state.Exhausted? then DeadLetter else Deliver
        case Loading => Load
        case Loaded => Begin
        case Begun(_) => Call
        case Calling(_) => Fail(transient)
        case Failing(_, _, _) => FailWrite
        case Thrown(_) => Settle
        case Recorded => Finish;
      assert Enabled(s, next) && Undisturbed(next, transient) && FromPublisher(s, next);
    }
  }

  /** Every failure brings the end closer. */
  lemma FailureConsumesAttempt(s: State, allowed: nat, transient: bool)
    requires InBudget(s, allowed, transient) && Enabled(s, Settle)
    ensures var t := After(s, Settle);
            && t.entry.value.attemptsMade == s.entry.value.attemptsMade + 1
            && s.entry.value.attemptsMade < t.entry.value.attemptsMade <= Budget(allowed, transient)
            && (t.deadLetters == 1 <==> t.entry.value.attemptsMade == Budget(allowed, transient))
  {
  }

  // ----- the row's verdict and the queue's -----

  function Settling(retryable: bool): seq<Step> {
    [Fail(retryable), FailWrite, Settle]
  }

  predicate IsCalling(s: State) {
    s.delivery.Calling? && s.entry.Some? && s.row.Processing? && s.delivery.attempt == Made(s.entry) + 1
  }

  /** A failing attempt, settled: what the row says of it and what the queue does with it. */
  lemma FailureSettles(s: State, retryable: bool)
    requires IsCalling(s)
    ensures var t := Execute(s, Settling(retryable));
            var e := s.entry.value.(attemptsMade := s.entry.value.attemptsMade + 1);
            && t.Some? && t.value.calls == s.calls && t.value.delivery.Idle? && t.value.max == s.max
            && t.value.row == Verdict(e.attemptsMade, s.max, retryable)
            && t.value.entry == Some(e.(state := if Spent(e, retryable) then Exhausted else Delayed))
            && t.value.deadLetters == s.deadLetters + if Spent(e, retryable) then 1 else 0
  {
    var s1 := After(s, Fail(retryable));
    var s2 := After(s1, FailWrite);
    var s3 := After(s2, Settle);
    assert Execute(s3, []) == Some(s3);
    Then(s2, Settle, []);
    Then(s1, FailWrite, [Settle]);
    Then(s, Fail(retryable), [FailWrite, Settle]);
    assert Settling(retryable) == [Fail(retryable)] + [FailWrite, Settle];
    assert [FailWrite, Settle] == [FailWrite] + [Settle] && [Settle] == [Settle] + [];
  }

  /** A cancellation that lands while the publisher is at work outlasts its failure, whether another
      attempt is left or not, and that attempt does not call the publisher. */
  lemma CancelSurvivesFailure(s: State, retryable: bool)
    requires s.delivery.Calling? && s.row.Cancelled? && s.entry.Some?
    ensures var t := Execute(s, Settling(retryable));
            && t.Some? && t.value.row.Cancelled? && t.value.delivery.Idle? && t.value.calls == s.calls
            && (IsDue(t.value) ==>
                var u := Execute(t.value, [Deliver, Load]);
                u.Some? && u.value.row.Cancelled? && u.value.delivery.Idle? && u.value.entry.value.state.Done?)
  {
    var s1 := After(s, Fail(retryable));
    var s2 := After(s1, FailWrite);
    var t := After(s2, Settle);
    assert Execute(t, []) == Some(t);
    Then(s2, Settle, []);
    Then(s1, FailWrite, [Settle]);
    Then(s, Fail(retryable), [FailWrite, Settle]);
    assert Settling(retryable) == [Fail(retryable)] + [FailWrite, Settle];
    assert [FailWrite, Settle] == [FailWrite] + [Settle] && [Settle] == [Settle] + [];
    if IsDue(t) {
      var t1 := After(t, Deliver);
      var t2 := After(t1, Load);
      assert Execute(t2, []) == Some(t2) && [Load] == [Load] + [] && [Deliver, Load] == [Deliver] + [Load];
      Then(t1, Load, []);
      Then(t, Deliver, [Load]);
    }
  }

  predicate IsDue(s: State) {
    s.delivery.Idle? && s.entry.Some? && (s.entry.value.state.Waiting? || s.entry.value.state.Delayed?)
  }

  /** From delivery to settlement. */
  lemma FirstFailure(s: State)
    requires IsDue(s) && !s.row.Completed? && !s.row.Cancelled?
    ensures var t := Execute(s, REDELIVERY + Settling(true));
            var e := s.entry.value.(attemptsMade := s.entry.value.attemptsMade + 1);
            && t.Some? && t.value.calls == s.calls + 1 && t.value.delivery.Idle? && t.value.max == s.max
            && t.value.row == Verdict(e.attemptsMade, s.max, true)
            && t.value.entry == Some(e.(state := if Spent(e, true) then Exhausted else Delayed))
  {
    RedeliveryCalls(s);
    FailureSettles(Execute(s, REDELIVERY).value, true);
    ThenAll(s, REDELIVERY, Settling(true));
  }

  /** The two verdicts on an attempt that has just been settled are one. */
  predicate VerdictsAgree(s: State) {
    s.row.Failed? <==> s.entry.Some? && s.entry.value.state.Exhausted?
  }

  /** The `i`th state of a run is the one a settlement leaves. */
  ghost predicate IsSettlement(trace: seq<State>, steps: seq<Step>, max: nat, allowed: nat, transient: bool, i: nat) {
    && BudgetRun(trace, steps, allowed, transient) && trace[0].max == max
    && 0 < i < |trace| && steps[i - 1] == Settle
  }

  /** In no run do they ever differ. */
  ghost predicate AlwaysAgree(max: nat, allowed: nat, transient: bool) {
    forall trace, steps, i :: IsSettlement(trace, steps, max, allowed, transient, i) ==> VerdictsAgree(trace[i])
  }

  lemma SettlementsAgree(trace: seq<State>, steps: seq<Step>, max: nat, allowed: nat, transient: bool, i: nat)
    requires IsSettlement(trace, steps, max, allowed, transient, i) && allowed > 0
    requires max == allowed || !transient
    ensures VerdictsAgree(trace[i])
  {
    RunInBudget(trace, steps, allowed, transient, i - 1);
    assert Steps(trace[i - 1], steps[i - 1], trace[i - 1 + 1]);
  }

  lemma Extend(trace: seq<State>, steps: seq<Step>, allowed: nat, step: Step)
      returns (trace1: seq<State>, steps1: seq<Step>)
    requires BudgetRun(trace, steps, allowed, true)
    requires var s := trace[|steps|]; Enabled(s, step) && Undisturbed(step, true) && FromPublisher(s, step)
    ensures BudgetRun(trace1, steps1, allowed, true) && trace1[0] == trace[0]
    ensures trace1[|steps1|] == After(trace[|steps|], step) && steps1 == steps + [step]
  {
    trace1, steps1 := trace + [After(trace[|steps|], step)], steps + [step];
    forall i | 0 <= i < |steps1| ensures Steps(trace1[i], steps1[i], trace1[i + 1]) {
      if i < |steps| { assert Steps(trace[i], steps[i], trace[i + 1]); }
    }
  }

  lemma OneMoreFailure(trace: seq<State>, steps: seq<Step>, allowed: nat)
      returns (trace1: seq<State>, steps1: seq<Step>)
    requires BudgetRun(trace, steps, allowed, true) && IsDue(trace[|steps|]) && trace[|steps|].row.Queued?
    ensures BudgetRun(trace1, steps1, allowed, true) && trace1[0] == trace[0]
    ensures steps1 != [] && steps1[|steps1| - 1] == Settle
    ensures var s, t := trace[|steps|], trace1[|steps1|];
            var e := s.entry.value.(attemptsMade := s.entry.value.attemptsMade + 1);
            && t.delivery.Idle? && t.max == s.max && t.row == Verdict(e.attemptsMade, s.max, true)
            && t.entry == Some(e.(state := if Spent(e, true) then Exhausted else Delayed))
  {
    trace1, steps1 := Extend(trace, steps, allowed, Deliver);
    trace1, steps1 := Extend(trace1, steps1, allowed, Load);
    trace1, steps1 := Extend(trace1, steps1, allowed, Begin);
    trace1, steps1 := Extend(trace1, steps1, allowed, Call);
    trace1, steps1 := Extend(trace1, steps1, allowed, Fail(true));
    trace1, steps1 := Extend(trace1, steps1, allowed, FailWrite);
    trace1, steps1 := Extend(trace1, steps1, allowed, Settle);
  }

  lemma {:induction false} FailuresInARow(s: State, allowed: nat, k: nat) returns (trace: seq<State>, steps: seq<Step>)
    requires Enqueued(s, allowed) && 0 < k <= s.max && k <= allowed
    ensures BudgetRun(trace, steps, allowed, true) && trace[0] == s
    ensures steps != [] && steps[|steps| - 1] == Settle
    ensures var t := trace[|steps|];
            && t.delivery.Idle? && t.max == s.max && t.row == Verdict(k, s.max, true)
            && t.entry == Some(Entry(if k >= allowed then Exhausted else Delayed, k, allowed))
  {
    if k == 1 {
      trace, steps := [s], [];
    } else {
      trace, steps := FailuresInARow(s, allowed, k - 1);
    }
    trace, steps := OneMoreFailure(trace, steps, allowed);
  }

  /** Enqueueing passes the row's own budget, and in every run the row is FAILED exactly when
      the queue gives up. A recovery passes the queue's default, and then some run has them
      differ, unless the two happen to be equal or the job fails permanently. */
  lemma VerdictsAgreeIff(max: nat, allowed: nat, transient: bool)
    requires max > 0 && allowed > 0
    ensures AlwaysAgree(max, allowed, transient) <==> max == allowed || !transient
  {
    if max == allowed || !transient {
      forall trace, steps, i | IsSettlement(trace, steps, max, allowed, transient, i)
        ensures VerdictsAgree(trace[i])
      {
        SettlementsAgree(trace, steps, max, allowed, transient, i);
      }
    } else {
      var s := State(Queued, max, Some(Entry(Waiting, 0, allowed)), Idle, Pipeline(0, 0, 0), Pipeline(0, 0, 0),
                     Recovering(0, 0, 0, 0, 0), 0, 0);
      var trace, steps := FailuresInARow(s, allowed, if max < allowed then max else allowed);
      assert IsSettlement(trace, steps, max, allowed, transient, |steps|) && !VerdictsAgree(trace[|steps|]);
    }
  }

  /** A recovered job runs on the queue's default budget: one that was created with a
      single attempt is written off as FAILED after it, and published once more anyway. */
  lemma WrittenOffButRedelivered(s: State, found: bool, defaultAttempts: nat)
    requires Recoverable(s, found) && s.max == 1 && defaultAttempts > 1
    ensures var t := Execute(s, LateRecovery(found, defaultAttempts) + (REDELIVERY + Settling(true)));
            && t.Some? && t.value.row.Failed? && t.value.entry.Some? && t.value.entry.value.state.Delayed?
            && var u := Execute(t.value, REDELIVERY); u.Some? && u.value.calls == s.calls + 2
  {
    var recovery := LateRecovery(found, defaultAttempts);
    LateRecoveryRequeues(s, found, defaultAttempts);
    var s1 := Execute(s, recovery).value;
    ThenAll(s, recovery, REDELIVERY + Settling(true));
    FirstFailure(s1);
    RedeliveryCalls(Execute(s1, REDELIVERY + Settling(true)).value);
  }
}
