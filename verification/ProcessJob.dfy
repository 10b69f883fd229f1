/** One delivery of a job, publication or onboarding, as the worker runs it, and the
    other writers of an account's session state. */
module ProcessJob {
  import opened Options
  import opened JobProtocol

  datatype Session = NoSession | Onboarding | Verified | Expired

  datatype Wait = Confirmed | WaitCancelled | WaitExpired | WaitFails

  datatype Outcome = VerifiedOutcome | Unverified | Abandoned | CancelledOutcome

  /** How a publication goes this time: the publisher is reached or not, and fails or not. */
  datatype PublishLuck = Publishes | FailsBefore(retryable: bool) | FailsIn(retryable: bool)

  /** How an onboarding goes this time, step by step. */
  datatype OnboardLuck = OnboardLuck(
    verifyFlow: bool,            // the account declares one
    acquires: bool,
    endpointWritten: bool,       // onDeviceReady's own update
    wait: Wait,
    appium: bool,
    verifyPasses: bool,
    retryable: bool)             // how a throw is classified

  datatype Event =
    | Started                    // account set to ONBOARDING
    | DeviceUp
    | DeviceReleased
    | HumanAsked(answer: Wait)
    | VerifyRan(passed: bool)
    | SessionWritten(session: Session)

  datatype ProcessResult = Returned | Deferred | Threw(retryable: bool)

  // ----- an honest history -----

  /** VERIFIED is written only after the person confirmed and then the verify flow passed,
      with no other onboarding started in between. */
  ghost predicate Backed(h: seq<Event>, i: nat)
    requires i < |h|
  {
    exists j, k :: BackedBy(h, i, j, k)
  }

  ghost predicate BackedBy(h: seq<Event>, i: nat, j: int, k: int)
    requires i < |h|
  {
    && 0 <= j < k < i && h[j] == HumanAsked(Confirmed) && h[k] == VerifyRan(true)
    && forall m :: j < m < i ==> !h[m].Started?
  }

  ghost predicate Honest(h: seq<Event>) {
    forall i :: 0 <= i < |h| && h[i] == SessionWritten(Verified) ==> Backed(h, i)
  }

  lemma HonestAppend(a: seq<Event>, b: seq<Event>)
    requires Honest(a) && Honest(b)
    ensures Honest(a + b)
  {
    var h := a + b;
    forall i | 0 <= i < |h| && h[i] == SessionWritten(Verified) ensures Backed(h, i) {
      if i < |a| {
        assert Backed(a, i);
        var j, k :| BackedBy(a, i, j, k);
        assert BackedBy(h, i, j, k);
      } else {
        assert b[i - |a|] == SessionWritten(Verified) && Backed(b, i - |a|);
        var j, k :| BackedBy(b, i - |a|, j, k);
        forall m | j + |a| < m < i ensures !h[m].Started? { assert h[m] == b[m - |a|]; }
        assert BackedBy(h, i, j + |a|, k + |a|);
      }
    }
  }

  /** The session state a history leaves an account in. */
  function LastSession(h: seq<Event>): Session {
    if h == [] then NoSession else
    var last := h[|h| - 1];
    if last.Started? then Onboarding
    else if last.SessionWritten? then last.session
    else LastSession(h[..|h| - 1])
  }

  /** An account that is VERIFIED owes it to a confirmation and a verify flow that passed. */
  lemma {:induction false} VerifiedIsEarned(h: seq<Event>)
    requires Honest(h) && LastSession(h) == Verified
    ensures exists j, k :: 0 <= j < k < |h| && h[j] == HumanAsked(Confirmed) && h[k] == VerifyRan(true)
  {
    var last := h[|h| - 1];
    if last.SessionWritten? {
      assert Backed(h, |h| - 1);
      var j, k :| BackedBy(h, |h| - 1, j, k);
    } else {
      var g := h[..|h| - 1];
      forall i | 0 <= i < |g| && g[i] == SessionWritten(Verified) ensures Backed(g, i) {
        assert h[i] == g[i] && Backed(h, i);
        var j, k :| BackedBy(h, i, j, k);
        assert BackedBy(g, i, j, k);
      }
      VerifiedIsEarned(g);
      var j, k :| 0 <= j < k < |g| && g[j] == HumanAsked(Confirmed) && g[k] == VerifyRan(true);
      assert h[j] == g[j] && h[k] == g[k];
    }
  }

  class Database {
    var status: Status
    var attempts: nat
    var session: Session
    var endpoint: bool
    var slots: nat
    var calls: nat
    var history: seq<Event>
    const max: nat
    const interactive: bool
    const maxConcurrent: nat

    /** What every writer of the account keeps. */
    ghost predicate Sound()
      reads this
    {
      Honest(history) && session == LastSession(history)
    }

    constructor (max: nat, interactive: bool, maxConcurrent: nat)
      ensures status == Queued && attempts == 0 && session == NoSession && !endpoint && slots == 0 && calls == 0
               && history == []
      ensures Sound()
      ensures this.max == max && this.interactive == interactive && this.maxConcurrent == maxConcurrent
    {
      status, attempts, session, endpoint, slots, calls, history := Queued, 0, NoSession, false, 0, 0, [];
      this.max, this.interactive, this.maxConcurrent := max, interactive, maxConcurrent;
    }

    /** The driver: a device, then a person, then the app's own opinion. The device is
        released whatever happened to it. */
    method Onboard(luck: OnboardLuck) returns (r: Result<Outcome, bool>)
      modifies this`status, this`endpoint, this`history
      ensures r.Ok? <==> && luck.verifyFlow && luck.acquires && luck.endpointWritten && !luck.wait.WaitFails?
                         && (luck.wait.Confirmed? ==> luck.appium)
      ensures r.Ok? ==> r.value == match luck.wait
                                   case WaitCancelled => CancelledOutcome
                                   case WaitExpired => Abandoned
                                   case _ => if luck.verifyPasses then VerifiedOutcome else Unverified
      ensures r.Err? ==> r.error == (luck.verifyFlow && luck.retryable)
      ensures history == old(history) + Driven(luck)
      ensures status == if !luck.verifyFlow || !luck.acquires || !luck.endpointWritten then old(status)
                        else if luck.wait.Confirmed? then Verifying
                        else AwaitingHuman
    {
      if !luck.verifyFlow {
        return Err(false);
      }
      if !luck.acquires {
        return Err(luck.retryable);
      }
      history := history + [DeviceUp];
      if !luck.endpointWritten {
        history := history + [DeviceReleased];
        return Err(luck.retryable);
      }
      status, endpoint := AwaitingHuman, true;
      history := history + [HumanAsked(luck.wait)];
      match luck.wait {
        case WaitCancelled =>
          r := Ok(CancelledOutcome);
        case WaitExpired =>
          r := Ok(Abandoned);
        case WaitFails =>
          r := Err(luck.retryable);
        case Confirmed =>
          status := Verifying;
          if luck.appium {
            history := history + [VerifyRan(luck.verifyPasses)];
            r := Ok(if luck.verifyPasses then VerifiedOutcome else Unverified);
          } else {
            r := Err(luck.retryable);
          }
      }
      history := history + [DeviceReleased];
    }

    /** What a run of the driver adds to the history. */
    static function Driven(luck: OnboardLuck): seq<Event> {
      if !luck.verifyFlow || !luck.acquires then []
      else if !luck.endpointWritten then [DeviceUp, DeviceReleased]
      else [DeviceUp, HumanAsked(luck.wait)]
           + (if luck.wait.Confirmed? && luck.appium then [VerifyRan(luck.verifyPasses)] else [])
           + [DeviceReleased]
    }

    /** A person was asked, and this is what came of it. */
    static predicate Asked(luck: OnboardLuck, answer: Wait) {
      luck.verifyFlow && luck.acquires && luck.endpointWritten && luck.wait == answer
    }

    static predicate Verifies(luck: OnboardLuck) {
      Asked(luck, Confirmed) && luck.appium && luck.verifyPasses
    }

    /** The person said they were done and the app disagrees. */
    static predicate Refuted(luck: OnboardLuck) {
      Asked(luck, Confirmed) && luck.appium && !luck.verifyPasses
    }

    /** What a whole onboarding adds to the history. */
    static function Added(luck: OnboardLuck): seq<Event> {
      [Started] + Driven(luck) + [SessionWritten(if Verifies(luck) then Verified else NoSession)]
    }

    static lemma AddedIsHonest(luck: OnboardLuck)
      ensures Honest(Added(luck))
    {
      if Verifies(luck) {
        var h := Added(luck);
        assert h == [Started, DeviceUp, HumanAsked(Confirmed), VerifyRan(true), DeviceReleased,
            SessionWritten(Verified)];
        assert BackedBy(h, 5, 2, 3);
      }
    }

    static lemma StaysHonest(h: seq<Event>, luck: OnboardLuck)
      ensures Honest(h) ==> Honest(h + Added(luck))
      ensures LastSession(h + Added(luck)) == if Verifies(luck) then Verified else NoSession
    {
      AddedIsHonest(luck);
      if Honest(h) { HonestAppend(h, Added(luck)); }
    }

    /** A worker that dies in the middle of it, wherever, leaves the account in ONBOARDING and its
        history honest; what mends that is FailStranded and SelfHeal. */
    static lemma {:induction false} CrashLeavesOnboarding(h: seq<Event>, luck: OnboardLuck, n: nat)
      requires 0 < n < |Added(luck)|
      ensures LastSession(h + Added(luck)[..n]) == Onboarding
      ensures Honest(h) ==> Honest(h + Added(luck)[..n])
    {
      var part := Added(luck)[..n];
      var all := h + part;
      assert all[..|all| - 1] == h + Added(luck)[..n - 1];
      if n == 1 {
      } else {
        CrashLeavesOnboarding(h, luck, n - 1);
      }
      if Honest(h) { HonestAppend(h, part); }
    }

    /** Never leaves the account in ONBOARDING, and leaves it VERIFIED exactly when the
        person confirmed and the verify flow ran to completion; a cancelled and an abandoned
        wait end the job without an error, a refuted one with an error that is final. */
    method RunOnboarding(luck: OnboardLuck) returns (r: Result<(), bool>)
      requires status.Processing?
      modifies this`status, this`endpoint, this`history, this`session
      ensures session == if Verifies(luck) then Verified else NoSession
      ensures history == old(history) + Added(luck)
      ensures r.Ok? <==> Verifies(luck) || Asked(luck, WaitCancelled) || Asked(luck, WaitExpired)
      ensures r.Err? ==> r.error == (luck.verifyFlow && luck.retryable && !Refuted(luck))
      ensures status.Completed? <==> Verifies(luck)
      ensures status.Cancelled? <==> Asked(luck, WaitCancelled)
      ensures status.Failed? <==> Asked(luck, WaitExpired) || Refuted(luck)
      ensures r.Ok? || Refuted(luck) ==> !endpoint
      ensures r.Err? ==> status.Processing? || status.AwaitingHuman? || status.Verifying? || status.Failed?
    {
      session := Onboarding;
      history := history + [Started];
      var result := Onboard(luck);
      if result.Err? {
        session := NoSession;
        history := history + [SessionWritten(NoSession)];
        return Err(result.error);
      }
      if result.value == VerifiedOutcome {
        session, status, endpoint := Verified, Completed, false;
        history := history + [SessionWritten(Verified)];
        return Ok(());
      }
      session := NoSession;
      history := history + [SessionWritten(NoSession)];
      status := if result.value == CancelledOutcome then Cancelled else Failed;
      endpoint := false;
      return if result.value == Unverified then Err(false) else Ok(());
    }

    /** The publication itself: completed when the publisher returns. */
    method RunPublish(luck: PublishLuck) returns (r: Result<(), bool>)
      modifies this`status, this`calls
      ensures calls == old(calls) + if luck.FailsBefore? then 0 else 1
      ensures r.Ok? <==> luck.Publishes?
      ensures r.Err? ==> r.error == luck.retryable
      ensures status == if luck.Publishes? then Completed else old(status)
    {
      if luck.FailsBefore? {
        return Err(luck.retryable);
      }
      calls := calls + 1;
      if luck.FailsIn? {
        return Err(luck.retryable);
      }
      status := Completed;
      return Ok(());
    }

    /** A terminal status that is already there is kept. */
    method HandleFailure(attempt: nat, retryable: bool)
      modifies this`status
      ensures status == if old(status).Cancelled? || old(status).Failed? then old(status)
                        else if Final(attempt, max, retryable) then Failed else Queued
    {
      var final := !retryable || attempt >= max;
      if status.Cancelled? || status.Failed? {
        return;
      }
      status := if final then Failed else Queued;
    }

    /** One delivery. A cancelled or completed job is left alone and a deferred one costs
        nothing. However a run ends the slot is back, the session is not ONBOARDING and the row
        says how it ended; but the write that begins it comes before the `try`, and if that
        throws the slot is kept and nothing else has changed. `cooling` is whether the account's
        minimum interval has still to pass, `begins` whether that write works, `cancelled` a
        cancellation that lands during a publication. */
    method Process(attemptsMade: nat, cooling: bool, begins: bool, publish: PublishLuck, onboard: OnboardLuck,
                   cancelled: bool)
        returns (r: ProcessResult)
      modifies this
      ensures old(status).Cancelled? || old(status).Completed? ==> r == Returned
      ensures r == Deferred <==>
                !old(status).Cancelled? && !old(status).Completed? && (cooling || old(slots) >= maxConcurrent)
      ensures var reserved := !old(status).Cancelled? && !old(status).Completed? && r != Deferred;
              && slots == old(slots) + (if reserved && !begins then 1 else 0)
              && (reserved && !begins ==> r == Threw(true))
              && (!reserved || !begins ==>
                    && status == old(status) && attempts == old(attempts) && calls == old(calls)
                    && session == old(session) && history == old(history))
              && (reserved && begins ==> attempts == attemptsMade + 1)
              && (reserved && begins && !interactive ==>
                    && calls == old(calls) + (if publish.FailsBefore? then 0 else 1)
                    && session == old(session) && history == old(history)
                    && r == (if publish.Publishes? then Returned else Threw(publish.retryable))
                    && status == match publish
                                 case Publishes => Completed
                                 case _ => if cancelled then Cancelled
                                           else if Final(attempts, max, publish.retryable) then Failed else Queued)
              && (reserved && begins && interactive ==>
                    && calls == old(calls)
                    && session == (if Verifies(onboard) then Verified else NoSession)
                    && history == old(history) + Added(onboard)
                    && (status.Completed? <==> Verifies(onboard))
                    && (status.Cancelled? <==> Asked(onboard, WaitCancelled))
                    && (r == Returned <==> status.Completed? || status.Cancelled? || Asked(onboard, WaitExpired))
                    && (Asked(onboard, WaitExpired) || Refuted(onboard) ==> status.Failed?)
                    && (r.Threw? ==>
                          && r.retryable == (onboard.verifyFlow && onboard.retryable && !Refuted(onboard))
                          && status == if Final(attempts, max, r.retryable) then Failed else Queued))
      ensures old(Sound()) ==> Sound()
      ensures old(history) <= history
    {
      if status.Cancelled? || status.Completed? {
        return Returned;
      }
      if cooling || slots >= maxConcurrent {
        return Deferred;
      }
      slots := slots + 1;
      if !begins {
        return Threw(true);
      }
      attempts := attemptsMade + 1;
      status := Processing;
      var outcome;
      if interactive {
        StaysHonest(history, onboard);
        outcome := RunOnboarding(onboard);
      } else {
        outcome := RunPublish(publish);
        if cancelled && outcome.Err? {
          status := Cancelled;
        }
      }
      if outcome.Err? {
        HandleFailure(attempts, outcome.error);
        r := Threw(outcome.error);
      } else {
        r := Returned;
      }
      slots := slots - 1;
    }

    // ----- the other writers of the session -----

    /** Boot: an interactive job nobody is holding any more is failed, and its account freed. */
    method FailStranded()
      requires status.AwaitingHuman? || status.Verifying?
      modifies this`status, this`endpoint, this`session, this`history
      ensures status == Failed && !endpoint && session == NoSession
      ensures old(Sound()) ==> Sound()
    {
      HonestNone(history);
      status, endpoint, session := Failed, false, NoSession;
      history := history + [SessionWritten(NoSession)];
    }

    /** A new link attempt finds the leftovers of one that died. */
    method SelfHeal(inFlight: bool)
      modifies this`session, this`history
      ensures session == if !inFlight && old(session) == Onboarding then NoSession else old(session)
      ensures old(Sound()) ==> Sound()
    {
      if !inFlight && session == Onboarding {
        HonestNone(history);
        session := NoSession;
        history := history + [SessionWritten(NoSession)];
      }
    }

    static lemma HonestNone(h: seq<Event>)
      ensures Honest(h) ==> Honest(h + [SessionWritten(NoSession)])
    {
      assert Honest([SessionWritten(NoSession)]);
      if Honest(h) { HonestAppend(h, [SessionWritten(NoSession)]); }
    }
  }
}
