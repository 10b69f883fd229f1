/** A run on a device: which flow it drives, what a failure is worth to the retry policy, and
    what is put away afterwards. */
module Publisher {
  import opened Options
  import UiFlow
  import Interpolation
  import JobProtocol

  type Flow = seq<UiFlow.Step>

  datatype Code =
    | UnknownFlowType | MediaUnreadable | MediaSizeMismatch | DeviceNotReady | AppNotInstalled | EgressLeakDetected
    | EgressUnreachableCode | UiInteractionFailed | UiStepNotFound | UiStepStillPresent | AppiumUnreachable
    | AppiumSessionLost | AppiumRejectedRequest | DeviceUnreachable | AdbCommandRejected | MediaPushMissing
    | MediaPushTruncated | AppNotRunning | AndroidFlowFailed | OtherCode(code: string)

  datatype PublishError = PublishError(code: Code, retryable: bool)

  /** What anything below the publisher may throw. */
  datatype Thrown =
    | Classified(error: PublishError)
    | PackageNotInstalled
    | EgressLeak
    | EgressUnreachable
    | UiStepError(kind: UiFlow.Kind)
    | AppiumTransportError
    | AppiumProtocolError(status: nat, invalidSession: bool)
    | AdbError(unreachable: bool)
    | Other

  function Permanent(code: Code): PublishError { PublishError(code, false) }

  function Transient(code: Code): PublishError { PublishError(code, true) }

  /** Anything nobody classified is worth another attempt. */
  predicate IsRetryable(t: Thrown) {
    if t.Classified? then t.error.retryable else true
  }

  function Classify(t: Thrown): PublishError {
    match t
    case Classified(e) => e
    case PackageNotInstalled => Permanent(AppNotInstalled)
    case EgressLeak => Permanent(EgressLeakDetected)
    case EgressUnreachable => Transient(EgressUnreachableCode)
    case UiStepError(kind) =>
      if kind.InteractionFailed? then Transient(UiInteractionFailed)
      else Permanent(if kind.NotFound? then UiStepNotFound else UiStepStillPresent)
    case AppiumTransportError => Transient(AppiumUnreachable)
    case AppiumProtocolError(status, invalidSession) =>
      if invalidSession || status == 404 then Transient(AppiumSessionLost) else Permanent(AppiumRejectedRequest)
    case AdbError(unreachable) => if unreachable then Transient(DeviceUnreachable) else Permanent(AdbCommandRejected)
    case Other => Transient(AndroidFlowFailed)
  }

  /** Bringing a device up is retried, whatever went wrong, unless the failure says better. */
  function FromAcquire(t: Thrown): Thrown {
    if t.PackageNotInstalled? || t.Classified? || t.EgressLeak? || t.EgressUnreachable? then t
    else Classified(Transient(DeviceNotReady))
  }

  function FromFlow(f: UiFlow.Failure): Thrown {
    if f.StepFailed? then UiStepError(f.kind) else Other
  }

  // ----- choosing a flow -----

  const DEFAULT_FLOW_TYPE := "upload"

  predicate IsDefaultFlow(flowType: string) {
    flowType == "" || flowType == DEFAULT_FLOW_TYPE
  }

  datatype Credentials = Credentials(flow: Flow, flows: map<string, Flow>)

  /** A name that is not the default's is that flow or an error, never another flow; the
      default is an explicit `upload` if there is one. */
  function SelectFlow(c: Credentials, flowType: string): (r: Result<Flow, PublishError>)
    ensures flowType in c.flows && flowType != "" ==> r == Ok(c.flows[flowType])
    ensures flowType !in c.flows && flowType != "" && flowType != "upload" ==> r == Err(Permanent(UnknownFlowType))
    ensures flowType == "" || flowType == "upload" ==>
              r == Ok(if "upload" in c.flows then c.flows["upload"] else c.flow)
  {
    if IsDefaultFlow(flowType) then Ok(if DEFAULT_FLOW_TYPE in c.flows then c.flows[DEFAULT_FLOW_TYPE] else c.flow)
    else if flowType in c.flows then Ok(c.flows[flowType])
    else Err(Permanent(UnknownFlowType))
  }

  // ----- a path nothing has used before -----

  const JOB_ID := "{jobId}"

  function Substitute(s: string, job: string): string
    decreases |s|
  {
    if |s| < |JOB_ID| then s
    else if s[..|JOB_ID|] == JOB_ID then job + Substitute(s[|JOB_ID|..], job)
    else [s[0]] + Substitute(s[1..], job)
  }

  predicate Mentions(s: string)
    decreases |s|
  {
    |s| >= |JOB_ID| && (s[..|JOB_ID|] == JOB_ID || Mentions(s[1..]))
  }

  function LastOf(s: string, c: char): (i: int)
    ensures -1 <= i < |s|
  {
    if s == "" then -1 else if s[|s| - 1] == c then |s| - 1 else LastOf(s[..|s| - 1], c)
  }

  function UniqueRemotePath(configured: string, job: string): string {
    if Mentions(configured) then Substitute(configured, job)
    else
      var dot := LastOf(configured, '.');
      if dot > LastOf(configured, '/') then configured[..dot] + ("-" + job + configured[dot..])
      else configured + ("-" + job)
  }

  lemma {:induction false} SubstituteLength(s: string, a: string, b: string)
    ensures |a| == |b| ==> |Substitute(s, a)| == |Substitute(s, b)|
    ensures |a| < |b| ==> |Substitute(s, a)| <= |Substitute(s, b)|
    ensures |a| < |b| && Mentions(s) ==> |Substitute(s, a)| < |Substitute(s, b)|
    decreases |s|
  {
    if |s| < |JOB_ID| {
    } else {
      SubstituteLength(if s[..|JOB_ID|] == JOB_ID then s[|JOB_ID|..] else s[1..], a, b);
    }
  }

  lemma {:induction false} SubstituteApart(s: string, a: string, b: string)
    requires Mentions(s) && |a| == |b| && a != b
    ensures Substitute(s, a) != Substitute(s, b)
    decreases |s|
  {
    if s[..|JOB_ID|] == JOB_ID {
      assert Substitute(s, a)[..|a|] == a;
      assert Substitute(s, b)[..|b|] == b;
    } else {
      SubstituteApart(s[1..], a, b);
      assert Substitute(s, a)[1..] == Substitute(s[1..], a);
      assert Substitute(s, b)[1..] == Substitute(s[1..], b);
    }
  }

  lemma {:induction false} LastOfIs(s: string, c: char, i: int)
    requires -1 <= i < |s| && (i >= 0 ==> s[i] == c) && forall k :: i < k < |s| ==> s[k] != c
    ensures LastOf(s, c) == i
  {
    if s == "" || i == |s| - 1 {
    } else {
      LastOfIs(s[..|s| - 1], c, i);
    }
  }

  predicate IsBareName(s: string) {
    forall k :: 0 <= k < |s| ==> s[k] != '.' && s[k] != '/'
  }

  /** The job's id goes between a file's name and its extension. */
  lemma ExtensionIsKept(stem: string, ext: string, job: string)
    requires IsBareName(ext) && !Mentions(stem + ("." + ext))
    ensures UniqueRemotePath(stem + ("." + ext), job) == stem + ("-" + (job + ("." + ext)))
  {
    var s := stem + ("." + ext);
    LastOfIs(s, '.', |stem|);
    assert LastOf(s, '/') < |stem| by {
      var slash := LastOf(s, '/');
      LastOfFound(s, '/');
    }
    assert s[..|stem|] == stem && s[|stem|..] == "." + ext;
    assert "-" + job + ("." + ext) == "-" + (job + ("." + ext));
  }

  lemma {:induction false} LastOfFound(s: string, c: char)
    ensures LastOf(s, c) >= 0 ==> s[LastOf(s, c)] == c
  {
    if s == "" || s[|s| - 1] == c {
    } else {
      LastOfFound(s[..|s| - 1], c);
    }
  }

  /** Or behind the name of a file that has none, whatever dots its directories have. */
  lemma NameIsExtended(directory: string, name: string, job: string)
    requires IsBareName(name) && (directory == "" || directory[|directory| - 1] == '/')
    requires !Mentions(directory + name)
    ensures UniqueRemotePath(directory + name, job) == directory + name + ("-" + job)
  {
    var s := directory + name;
    LastOfIs(s, '/', |directory| - 1);
    LastOfFound(s, '.');
  }

  predicate StartsWithId(s: string) {
    |s| >= |JOB_ID| && s[..|JOB_ID|] == JOB_ID
  }

  /** Where the path asks for the id it goes there, first things first. */
  lemma {:induction false} IdIsFilledIn(before: string, after: string, job: string)
    requires forall i :: 0 <= i < |before| ==> !StartsWithId(before[i..] + (JOB_ID + after))
    ensures Mentions(before + (JOB_ID + after))
    ensures Substitute(before + (JOB_ID + after), job) == before + (job + Substitute(after, job))
    ensures UniqueRemotePath(before + (JOB_ID + after), job) == before + (job + Substitute(after, job))
    decreases |before|
  {
    var s := before + (JOB_ID + after);
    if before == "" {
      assert s == JOB_ID + after && s[..|JOB_ID|] == JOB_ID && s[|JOB_ID|..] == after;
    } else {
      assert before[0..] == before && !StartsWithId(s);
      forall i | 0 <= i < |before[1..]| ensures !StartsWithId(before[1..][i..] + (JOB_ID + after)) {
        assert before[1..][i..] == before[i + 1..];
      }
      IdIsFilledIn(before[1..], after, job);
      assert s[0] == before[0] && s[1..] == before[1..] + (JOB_ID + after);
      OneKept(s, job);
      assert before == [before[0]] + before[1..];
    }
  }

  lemma OneKept(s: string, job: string)
    requires |s| >= |JOB_ID| && !StartsWithId(s)
    ensures Substitute(s, job) == [s[0]] + Substitute(s[1..], job)
  {
  }

  /** Two jobs of one account never push to the same path. */
  lemma RemotePathsApart(configured: string, a: string, b: string)
    ensures UniqueRemotePath(configured, a) == UniqueRemotePath(configured, b) <==> a == b
  {
    if a != b {
      if Mentions(configured) {
        if |a| == |b| {
          SubstituteApart(configured, a, b);
        } else if |a| < |b| {
          SubstituteLength(configured, a, b);
        } else {
          SubstituteLength(configured, b, a);
        }
      } else {
        var dot := LastOf(configured, '.');
        var head := if dot > LastOf(configured, '/') then configured[..dot] else configured;
        var tail := configured[|head|..];
        assert UniqueRemotePath(configured, a) == head + ("-" + a + tail);
        assert UniqueRemotePath(configured, b) == head + ("-" + b + tail);
        JobIsInPath(head, a, tail);
        JobIsInPath(head, b, tail);
      }
    }
  }

  lemma JobIsInPath(head: string, job: string, tail: string)
    ensures var s := head + ("-" + job + tail);
            s[|head| + 1..|s| - |tail|] == job
  {
  }

  // ----- a run -----

  datatype Stage = Refusing | Acquiring | Staging | Opening | Launching | Driving

  function Rank(s: Stage): nat {
    match s
    case Refusing => 0
    case Acquiring => 1
    case Staging => 2
    case Opening => 3
    case Launching => 4
    case Driving => 5
  }

  /** Putting the video on the device: making room for it, writing it and reading its size
      back. A throw leaves a file at the path or not, depending on where it came. */
  datatype Push = PushWorks | PushThrows(thrown: Thrown, left: bool)

  /** How a run goes: what its video is like on disk, what each step of it throws, and
      whether the remote file can be removed in the end. */
  datatype Luck = Luck(
    media: Option<PublishError>,
    acquire: Option<Thrown>,
    push: Push,
    check: Option<Thrown>,     // the size is not the record's, or the media scan fails
    session: Option<Thrown>,
    launch: Option<Thrown>,
    moments: nat -> UiFlow.Moment,
    removes: bool)

  /** What a run takes, and what it asks to be put away. */
  datatype Event =
    | Acquired | FileWritten | SessionOpened | Launched | Drove | SessionClosed | RemovalAsked | Released

  function StagingThrows(luck: Luck): Option<Thrown> {
    if luck.push.PushThrows? then Some(luck.push.thrown) else luck.check
  }

  /** Whether staging leaves a file at the remote path. */
  predicate Writes(luck: Luck) {
    luck.push.PushThrows? ==> luck.push.left
  }

  /** The first stage that throws before the flow is driven. */
  function Trouble(luck: Luck, video: bool): Option<(Stage, Thrown)> {
    if video && luck.media.Some? then Some((Refusing, Classified(luck.media.value)))
    else if luck.acquire.Some? then Some((Acquiring, FromAcquire(luck.acquire.value)))
    else if video && StagingThrows(luck).Some? then Some((Staging, StagingThrows(luck).value))
    else if luck.session.Some? then Some((Opening, luck.session.value))
    else if luck.launch.Some? then Some((Launching, luck.launch.value))
    else None
  }

  function StageOf(luck: Luck, video: bool): Stage {
    if Trouble(luck, video).Some? then Trouble(luck, video).value.0 else Driving
  }

  // What a run that got to a stage has done: what it knows that it took is put away around
  // whatever was done with it.

  function SessionTrace(stage: Stage): seq<Event> {
    if Rank(stage) <= Rank(Opening) then []
    else [SessionOpened] + (if stage == Driving then [Launched, Drove] else []) + [SessionClosed]
  }

  function MediaTrace(stage: Stage, video: bool, writes: bool): seq<Event> {
    if video && Rank(stage) > Rank(Staging) then [FileWritten] + SessionTrace(stage) + [RemovalAsked]
    else if video && stage == Staging && writes then [FileWritten]
    else SessionTrace(stage)
  }

  function Trace(stage: Stage, video: bool, writes: bool): seq<Event> {
    if Rank(stage) <= Rank(Acquiring) then [] else [Acquired] + MediaTrace(stage, video, writes) + [Released]
  }

  /** What the `finally` will know of: a file is held once it has been checked. */
  datatype Held = Held(acquired: bool, file: bool, session: bool)

  function HeldAt(stage: Stage, video: bool): Held {
    Held(Rank(stage) > Rank(Acquiring), video && Rank(stage) > Rank(Staging), Rank(stage) > Rank(Opening))
  }

  function Taken(stage: Stage, video: bool, writes: bool): seq<Event> {
    var held := HeldAt(stage, video);
    (if held.acquired then [Acquired] else [])
    + (if held.file || (video && stage == Staging && writes) then [FileWritten] else [])
    + (if held.session then [SessionOpened] else [])
    + (if stage == Driving then [Launched, Drove] else [])
  }

  function Closing(held: Held): seq<Event> {
    (if held.session then [SessionClosed] else []) + (if held.file then [RemovalAsked] else [])
    + (if held.acquired then [Released] else [])
  }

  lemma TakenThenClosed(stage: Stage, video: bool, writes: bool)
    ensures Taken(stage, video, writes) + Closing(HeldAt(stage, video)) == Trace(stage, video, writes)
  {
    if Rank(stage) > Rank(Staging) {
      var inner := (if Rank(stage) > Rank(Opening) then [SessionOpened] else [])
                   + (if stage == Driving then [Launched, Drove] else []);
      var file, asked := if video then [FileWritten] else [], if video then [RemovalAsked] else [];
      var closed := if Rank(stage) > Rank(Opening) then [SessionClosed] else [];
      assert Taken(stage, video, writes) == [Acquired] + file + inner;
      assert Closing(HeldAt(stage, video)) == closed + asked + [Released];
      assert SessionTrace(stage) == inner + closed;
    }
  }

  /** The files on the account's volume once staging is over, however it ended. */
  function FilesStaged(files: set<string>, path: string, stage: Stage, video: bool, writes: bool): set<string> {
    if !video || Rank(stage) <= Rank(Acquiring) then files
    else if Rank(stage) > Rank(Staging) || writes then files + {path}
    else files - {path}
  }

  /** And at the end of the run. */
  function FilesLeft(files: set<string>, path: string, stage: Stage, video: bool, luck: Luck): set<string> {
    var staged := FilesStaged(files, path, stage, video, Writes(luck));
    if HeldAt(stage, video).file && luck.removes then staged - {path} else staged
  }

  class AndroidPublisher {
    var history: seq<Event>
    var files: set<string>

    constructor (files: set<string>)
      ensures history == [] && this.files == files
    {
      history, this.files := [], files;
    }

    /** The video on the device, and checked. */
    method StageMedia(path: string, luck: Luck) returns (thrown: Option<Thrown>)
      modifies this
      ensures thrown == StagingThrows(luck)
      ensures files == if Writes(luck) then old(files) + {path} else old(files) - {path}
      ensures history == old(history) + if Writes(luck) then [FileWritten] else []
    {
      if luck.push.PushThrows? && !luck.push.left {
        files := files - {path};
        return Some(luck.push.thrown);
      }
      files := files + {path};
      history := history + [FileWritten];
      if luck.push.PushThrows? {
        return Some(luck.push.thrown);
      }
      return luck.check;
    }

    /** Up to an app on the screen of a device. */
    method Prepare(path: string, video: bool, luck: Luck) returns (thrown: Option<Thrown>, held: Held)
      requires video ==> luck.media.None?
      modifies this
      ensures var trouble, stage := Trouble(luck, video), StageOf(luck, video);
              && thrown == (if trouble.Some? then Some(trouble.value.1) else None)
              && held == HeldAt(stage, video)
              && history + (if stage == Driving then [Launched, Drove] else []) ==
                 old(history) + Taken(stage, video, Writes(luck))
              && files == FilesStaged(old(files), path, stage, video, Writes(luck))
    {
      held := Held(false, false, false);
      if luck.acquire.Some? {
        return Some(FromAcquire(luck.acquire.value)), held;
      }
      held := held.(acquired := true);
      history := history + [Acquired];
      if video {
        thrown := StageMedia(path, luck);
        if thrown.Some? {
          return thrown, held;
        }
        held := held.(file := true);
      }
      if luck.session.Some? {
        return luck.session, held;
      }
      held := held.(session := true);
      history := history + [SessionOpened];
      return luck.launch, held;
    }

    /** The part that may throw. */
    method Attempt(steps: Flow, path: string, video: bool, context: Interpolation.Context, luck: Luck)
        returns (result: Result<UiFlow.FlowResult, Thrown>, held: Held)
      requires video ==> luck.media.None?
      modifies this
      ensures var trouble, stage := Trouble(luck, video), StageOf(luck, video);
              && held == HeldAt(stage, video)
              && history == old(history) + Taken(stage, video, Writes(luck))
              && files == FilesStaged(old(files), path, stage, video, Writes(luck))
              && (trouble.Some? ==> result == Err(trouble.value.1))
              && (trouble.None? ==> Driven(steps, context, luck, result))
    {
      var thrown;
      thrown, held := Prepare(path, video, luck);
      if thrown.Some? {
        assert history + [] == history;
        return Err(thrown.value), held;
      }
      var session := new UiFlow.Session(luck.moments);
      var r := session.RunUiFlow(steps, context);
      history := history + [Launched, Drove];
      return if r.Ok? then Ok(r.value) else Err(FromFlow(r.error)), held;
    }

    static ghost predicate Driven(steps: Flow, context: Interpolation.Context, luck: Luck,
                                  result: Result<UiFlow.FlowResult, Thrown>)
    {
      match result
      case Ok(value) =>
        UiFlow.Returned(steps, luck.moments, context, value) && UiFlow.AllPass(steps, luck.moments, context)
      case Err(thrown) => exists f :: thrown == FromFlow(f) && UiFlow.FailedAt(steps, luck.moments, context, f)
    }

    /** Succeeds exactly when nothing throws and every step of the flow that was asked for
        does its job or may be passed over; otherwise the error is what the first failure is
        worth. The history says what was taken and put away, the files what is left. */
    method Publish(credentials: Credentials, flowType: string, job: string, configured: string, video: bool,
                   context: Interpolation.Context, luck: Luck)
        returns (r: Result<UiFlow.FlowResult, PublishError>)
      modifies this
      ensures var flow := SelectFlow(credentials, flowType);
              if flow.Err? then
                r == Err(flow.error) && history == old(history) && files == old(files)
              else
                var trouble, stage := Trouble(luck, video), StageOf(luck, video);
                && history == old(history) + Trace(stage, video, Writes(luck))
                && files == FilesLeft(old(files), UniqueRemotePath(configured, job), stage, video, luck)
                && (trouble.Some? ==> r == Err(Classify(trouble.value.1)))
                && (trouble.None? ==> Earned(flow.value, context, luck, r))
    {
      var flow := SelectFlow(credentials, flowType);
      if flow.Err? {
        return Err(flow.error);
      }
      if video && luck.media.Some? {
        return Err(luck.media.value);
      }
      var path := UniqueRemotePath(configured, job);
      var result, held := Attempt(flow.value, path, video, context, luck);
      r := if result.Ok? then Ok(result.value) else Err(Classify(result.error));
      PutAway(path, held, luck.removes);
      ghost var taken := Taken(StageOf(luck, video), video, Writes(luck));
      assert old(history) + taken + Closing(held) == old(history) + (taken + Closing(held));
      TakenThenClosed(StageOf(luck, video), video, Writes(luck));
    }

    /** Each step is attempted whether or not the one before it worked. */
    method PutAway(path: string, held: Held, removes: bool)
      modifies this
      ensures history == old(history) + Closing(held)
      ensures files == if held.file && removes then old(files) - {path} else old(files)
    {
      if held.session {
        history := history + [SessionClosed];
      }
      if held.file {
        history := history + [RemovalAsked];
        if removes {
          files := files - {path};
        }
      }
      if held.acquired {
        history := history + [Released];
      }
    }

    /** Success means that the flow ran to its end, and failure that a step of it failed. */
    static ghost predicate Earned(steps: Flow, context: Interpolation.Context, luck: Luck,
                                  r: Result<UiFlow.FlowResult, PublishError>)
    {
      match r
      case Ok(value) =>
        UiFlow.Returned(steps, luck.moments, context, value) && UiFlow.AllPass(steps, luck.moments, context)
      case Err(error) => exists f :: error == Classify(FromFlow(f)) && UiFlow.FailedAt(steps, luck.moments, context, f)
    }
  }

  function Count(s: seq<Event>, e: Event): nat {
    multiset(s)[e]
  }

  lemma Around(first: Event, inner: seq<Event>, last: Event, e: Event)
    ensures Count([first] + inner + [last], e) ==
            Count(inner, e) + (if e == first then 1 else 0) + (if e == last then 1 else 0)
  {
    assert multiset([first] + inner + [last]) == multiset{first, last} + multiset(inner);
  }

  /** Sessions and devices that are taken are given back; so many files are not even asked for. */
  predicate Balanced(s: seq<Event>, devices: nat, forgotten: nat) {
    && Count(s, SessionOpened) == Count(s, SessionClosed) && Count(s, FileWritten) == Count(s, RemovalAsked) + forgotten
    && Count(s, Acquired) == Count(s, Released) == devices
  }

  lemma AroundAll(first: Event, inner: seq<Event>, last: Event)
    ensures forall e :: Count([first] + inner + [last], e) ==
                        Count(inner, e) + (if e == first then 1 else 0) + (if e == last then 1 else 0)
  {
    forall e { Around(first, inner, last, e); }
  }

  lemma SessionPutAway(stage: Stage)
    ensures Balanced(SessionTrace(stage), 0, 0)
  {
    if Rank(stage) > Rank(Opening) {
      var inner := if stage == Driving then [Launched, Drove] else [];
      AroundAll(SessionOpened, inner, SessionClosed);
    }
  }

  /** Staging threw with a file already at the path. */
  predicate Forgets(stage: Stage, video: bool, writes: bool) {
    video && stage == Staging && writes
  }

  lemma MediaPutAway(stage: Stage, video: bool, writes: bool)
    ensures Balanced(MediaTrace(stage, video, writes), 0, if Forgets(stage, video, writes) then 1 else 0)
  {
    SessionPutAway(stage);
    AroundAll(FileWritten, SessionTrace(stage), RemovalAsked);
  }

  /** At whatever stage a run fails, sessions and devices are given back, the device last of
      all; the removal of the remote file is not asked for if and only if staging threw after
      it had been written, in its read-back, its size check or the media scan. */
  lemma ForgottenIff(stage: Stage, video: bool, writes: bool)
    ensures var s := Trace(stage, video, writes);
            && Count(s, SessionOpened) == Count(s, SessionClosed)
            && Count(s, Acquired) == Count(s, Released) == (if Rank(stage) > Rank(Acquiring) then 1 else 0)
            && (s != [] ==> s[|s| - 1] == Released)
            && (Count(s, FileWritten) > Count(s, RemovalAsked) <==> Forgets(stage, video, writes))
  {
    MediaPutAway(stage, video, writes);
    AroundAll(Acquired, MediaTrace(stage, video, writes), Released);
  }

  /** And then it is still there: of a volume that did not have it, the file stays on if and
      only if staging threw after writing it, or the removal that was asked for failed. */
  lemma FileStaysIff(files: set<string>, path: string, video: bool, luck: Luck)
    requires path !in files
    ensures var left := FilesLeft(files, path, StageOf(luck, video), video, luck);
            && left - {path} == files
            && (path in left <==>
                  && video && luck.media.None? && luck.acquire.None?
                  && if StagingThrows(luck).Some? then Writes(luck) else !luck.removes)
  {
  }

  // ----- what a failure does to the job -----

  /** The job as the queue has it while the publisher is being called. */
  predicate Publishing(s: JobProtocol.State) {
    JobProtocol.IsCalling(s)
  }

  /** What throwing `t` at this point makes of the job, row and queue entry. */
  function JobAfter(s: JobProtocol.State, t: Thrown): Option<JobProtocol.State> {
    JobProtocol.Execute(s, JobProtocol.Settling(IsRetryable(Classified(Classify(t)))))
  }

  predicate GivenUp(s: JobProtocol.State) {
    s.row.Failed? && s.entry.Some? && s.entry.value.state.Exhausted?
  }

  predicate WaitsForAnother(s: JobProtocol.State) {
    s.row.Queued? && s.entry.Some? && s.entry.value.state.Delayed?
  }

  /** A leak ends the job on the spot, whatever is left of its budget, and whether it is found
      while the device is acquired, where anything unclassified is made retryable, or later. */
  lemma LeakEndsTheJob(s: JobProtocol.State, luck: Luck, video: bool)
    requires Publishing(s) && Trouble(luck, video).Some?
    requires luck.acquire == Some(EgressLeak) || (luck.acquire.None? && Trouble(luck, video).value.1 == EgressLeak)
    requires video ==> luck.media.None?
    ensures var t := JobAfter(s, Trouble(luck, video).value.1); t.Some? && GivenUp(t.value)
  {
    JobProtocol.FailureSettles(s, Classify(Trouble(luck, video).value.1).retryable);
  }

  /** A device that would not come up for a reason nobody classified, even one that is final
      anywhere else, costs one attempt: the job waits for another if and only if one is left. */
  lemma NoDeviceIsRetriedIff(s: JobProtocol.State, luck: Luck, video: bool)
    requires Publishing(s) && (video ==> luck.media.None?) && luck.acquire.Some?
    requires !luck.acquire.value.PackageNotInstalled? && !luck.acquire.value.Classified?
             && !luck.acquire.value.EgressLeak?
    requires s.entry.value.allowed == s.max
    ensures var t := JobAfter(s, Trouble(luck, video).value.1);
            && t.Some?
            && (WaitsForAnother(t.value) <==> s.entry.value.attemptsMade + 1 < s.max)
            && (GivenUp(t.value) <==> s.entry.value.attemptsMade + 1 >= s.max)
  {
    JobProtocol.FailureSettles(s, Classify(Trouble(luck, video).value.1).retryable);
  }

  /** Of everything that can go wrong once there is a device, whoever has not classified it: what is
      wrong with the job or the flow ends it, and what is wrong with the world does not. */
  predicate IsFinal(t: Thrown) {
    || t.PackageNotInstalled? || t.EgressLeak?
    || (t.UiStepError? && (t.kind.NotFound? || t.kind.StillPresent?))
    || (t.AppiumProtocolError? && !t.invalidSession && t.status != 404)
    || (t.AdbError? && !t.unreachable)
    || (t.Classified? && !t.error.retryable)
  }

  lemma FinalEndsIff(s: JobProtocol.State, t: Thrown)
    requires Publishing(s) && s.entry.value.allowed == s.max && s.entry.value.attemptsMade + 1 < s.max
    ensures var u := JobAfter(s, t);
            && u.Some?
            && (GivenUp(u.value) <==> IsFinal(t)) && (WaitsForAnother(u.value) <==> !IsFinal(t))
  {
    JobProtocol.FailureSettles(s, Classify(t).retryable);
  }

  /** While the device is being acquired only these are known for what they are; the rest is reported
      as a device that is not ready. */
  predicate IsKnownAtAcquire(t: Thrown) {
    t.PackageNotInstalled? || t.Classified? || t.EgressLeak? || t.EgressUnreachable?
  }

  lemma AcquireFailureEndsIff(s: JobProtocol.State, t: Thrown)
    requires Publishing(s) && s.entry.value.allowed == s.max && s.entry.value.attemptsMade + 1 < s.max
    ensures var u := JobAfter(s, FromAcquire(t));
            && u.Some?
            && (GivenUp(u.value) <==>
                  t.PackageNotInstalled? || t.EgressLeak? || (t.Classified? && !t.error.retryable))
            && (WaitsForAnother(u.value) <==> !GivenUp(u.value))
    ensures Classify(FromAcquire(t)) ==
            if t.Classified? then t.error
            else if IsKnownAtAcquire(t) then Classify(t) else PublishError(DeviceNotReady, true)
  {
    JobProtocol.FailureSettles(s, Classify(FromAcquire(t)).retryable);
  }

  /** What is thrown before the publisher classifies anything is worth another attempt. */
  lemma UnclassifiedIsRetried(s: JobProtocol.State, t: Thrown)
    requires Publishing(s) && s.entry.value.allowed == s.max && s.entry.value.attemptsMade + 1 < s.max
    requires !t.Classified?
    ensures var u := JobProtocol.Execute(s, JobProtocol.Settling(IsRetryable(t))); u.Some? && WaitsForAnother(u.value)
  {
    JobProtocol.FailureSettles(s, IsRetryable(t));
  }

  /** A selector that does not match ends the job, and a tap that fails does not. */
  lemma FlowFailureEndsIff(s: JobProtocol.State, f: UiFlow.Failure)
    requires Publishing(s) && s.entry.value.allowed == s.max && s.entry.value.attemptsMade + 1 < s.max
    ensures var t := JobAfter(s, FromFlow(f));
            && t.Some?
            && (GivenUp(t.value) <==> f.StepFailed? && !f.kind.InteractionFailed?)
            && (WaitsForAnother(t.value) <==> !GivenUp(t.value))
  {
    JobProtocol.FailureSettles(s, Classify(FromFlow(f)).retryable);
  }

  /** What is reported tells one cause from another, and says what it was. */
  lemma CodesTellApart(t: Thrown, u: Thrown)
    requires !t.Classified? && !u.Classified? && Classify(t).code == Classify(u).code
    ensures Classify(t).retryable == Classify(u).retryable
    ensures t.EgressLeak? <==> u.EgressLeak?
    ensures Classify(t).code.DeviceUnreachable? ==> t == AdbError(true)
    ensures Classify(t).code.AdbCommandRejected? ==> t == AdbError(false)
    ensures Classify(t).code.AppiumUnreachable? ==> t.AppiumTransportError?
    ensures Classify(t).code.EgressUnreachableCode? ==> t.EgressUnreachable?
    ensures Classify(t).code.AppNotInstalled? ==> t.PackageNotInstalled?
    ensures Classify(t).code.UiStepNotFound? ==> t == UiStepError(UiFlow.NotFound)
    ensures Classify(t).code.UiStepStillPresent? ==> t == UiStepError(UiFlow.StillPresent)
    ensures Classify(t).code.UiInteractionFailed? ==> t == UiStepError(UiFlow.InteractionFailed)
    ensures Classify(t).code.EgressLeakDetected? ==> t.EgressLeak?
    ensures t.UiStepError? <==> u.UiStepError?
    ensures t.UiStepError? && u.UiStepError? ==> t == u
    ensures t.AdbError? && u.AdbError? ==> t == u
  {
  }
}
