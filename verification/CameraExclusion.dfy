/** Jobs leasing, using and giving back cameras while reconciliations run, one Redis,
    Docker or database step at a time. */
module CameraExclusion {
  import opened Options
  import opened CameraSlots

  const PUBLISH_TIMEOUT_MS: nat := 900_000

  /** How long a job may hold a device: an interactive job is aborted a minute after the
      onboarding timeout, a publication after fifteen, and then it tears down. */
  function HoldMs(onboardingTimeoutMs: nat, teardownMs: nat): nat {
    (if onboardingTimeoutMs + 60_000 > PUBLISH_TIMEOUT_MS then onboardingTimeoutMs + 60_000 else PUBLISH_TIMEOUT_MS)
    + teardownMs
  }

  lemma LeaseOutlivesHold(onboardingTimeoutMs: nat, teardownMs: nat)
    requires teardownMs < 2_700_000
    ensures HoldMs(onboardingTimeoutMs, teardownMs) < LeaseTtlMs(onboardingTimeoutMs)
    ensures onboardingTimeoutMs + 60_000 + teardownMs <= HoldMs(onboardingTimeoutMs, teardownMs)
    ensures 900_000 + teardownMs <= HoldMs(onboardingTimeoutMs, teardownMs)
    ensures HoldMs(onboardingTimeoutMs, teardownMs) in
            {onboardingTimeoutMs + 60_000 + teardownMs, 900_000 + teardownMs}
  {
    assert (onboardingTimeoutMs + 999) / 1_000 * 1_000 >= onboardingTimeoutMs;
  }

  /** One delivery of a job. A worker that crashes leaves its run's device and lease behind, and
      the job runs again as another delivery. */
  datatype Run = Run(job: JobId, delivery: nat)

  datatype Use = Use(index: Index, since: nat)

  /** A reconciliation, from its Docker listing on: the indices it saw on containers, those
      of the pool it has still to come to, and the lease it has read, if it is looking at one. */
  datatype Sweep =
    | Listed(held: set<Index>, todo: set<Index>)
    | Read(held: set<Index>, todo: set<Index>, index: Index, job: JobId)
    | Doomed(held: set<Index>, todo: set<Index>, index: Index, job: JobId)

  /** `started` are the deliveries that have leased a camera, which each does once. */
  datatype State = State(
    pool: set<Index>,
    now: nat,
    leases: map<Index, Lease>,
    using: map<Run, Use>,
    releasing: map<Run, Index>,
    started: set<Run>,
    live: set<JobId>,
    labelled: set<Index>,
    sweeps: map<nat, Sweep>)

  datatype Step =
    | GoLive(job: JobId)
    | Acquire(run: Run, index: Index)         // SET NX EX
    | Label(run: Run)                         // docker run, with the camera label
    | GoDead(job: JobId)                      // cancelled, or failed by a recovery
    | StopUsing(run: Run)                     // device and bridge removed, by the run or a sweep
    | Release(run: Run)
    | Abandon(run: Run)                       // the worker crashed: no release
    | List(sweep: nat)
    | Pass(sweep: nat, index: Index)          // on a container, or not leased
    | ReadLease(sweep: nat, index: Index)
    | AskDatabase(sweep: nat)
    | Delete(sweep: nat)
    | Tick(ms: nat)

  predicate Enabled(s: State, step: Step) {
    match step
    case GoLive(_) => true
    case Acquire(run, index) =>
      index in s.pool && run.job in s.live && run !in s.started && Holder(s.leases, index, s.now).None?
    case Label(run) => run in s.using
    case GoDead(_) => true
    case StopUsing(run) => run in s.using
    case Release(run) => run in s.releasing
    case Abandon(run) => run in s.releasing
    case List(n) => n !in s.sweeps
    case Pass(n, index) =>
      && n in s.sweeps && s.sweeps[n].Listed? && index in s.sweeps[n].todo
      && (index in s.sweeps[n].held || Holder(s.leases, index, s.now).None?)
    case ReadLease(n, index) =>
      && n in s.sweeps && s.sweeps[n].Listed? && index in s.sweeps[n].todo
      && index !in s.sweeps[n].held && Holder(s.leases, index, s.now).Some?
    case AskDatabase(n) => n in s.sweeps && s.sweeps[n].Read?
    case Delete(n) => n in s.sweeps && s.sweeps[n].Doomed?
    case Tick(_) => true
  }

  function After(s: State, step: Step, ttl: nat): State
    requires Enabled(s, step)
  {
    match step
    case GoLive(job) => s.(live := s.live + {job})
    case Acquire(run, index) =>
      s.(leases := s.leases[index := Lease(run.job, s.now + ttl)], using := s.using[run := Use(index, s.now)],
         started := s.started + {run})
    case Label(run) => s.(labelled := s.labelled + {s.using[run].index})
    case GoDead(job) => s.(live := s.live - {job})
    case StopUsing(run) =>
      s.(using := s.using - {run}, releasing := s.releasing[run := s.using[run].index],
         labelled := s.labelled - {s.using[run].index})
    case Release(run) =>
      s.(leases := ReleaseIfHeld(s.leases, s.releasing[run], run.job, s.now), releasing := s.releasing - {run})
    case Abandon(run) => s.(releasing := s.releasing - {run})
    case List(n) => s.(sweeps := s.sweeps[n := Listed(s.labelled, s.pool)])
    case Pass(n, index) =>
      s.(sweeps := s.sweeps[n := Listed(s.sweeps[n].held, s.sweeps[n].todo - {index})])
    case ReadLease(n, index) =>
      var sweep := s.sweeps[n];
      s.(sweeps := s.sweeps[n := Read(sweep.held, sweep.todo - {index}, index, Holder(s.leases, index, s.now).value)])
    case AskDatabase(n) =>
      var sweep := s.sweeps[n];
      s.(sweeps := s.sweeps[n := if sweep.job in s.live then Listed(sweep.held, sweep.todo)
                                 else Doomed(sweep.held, sweep.todo, sweep.index, sweep.job)])
    case Delete(n) =>
      var sweep := s.sweeps[n];
      s.(leases := ReleaseIfHeld(s.leases, sweep.index, sweep.job, s.now),
         sweeps := s.sweeps[n := Listed(sweep.held, sweep.todo)])
    case Tick(ms) => s.(now := s.now + ms)
  }

  /** A reconciliation that can still take the lease of a job that is not live: it did not
      see the index on a container, and has yet to come to it or has just read it there. */
  predicate CanTake(sweep: Sweep, index: Index, job: JobId) {
    index !in sweep.held && (index in sweep.todo || (sweep.Read? && sweep.index == index && sweep.job == job))
  }

  /** Nothing stands for a run's use of its device but its job's being live. */
  ghost predicate Exposed(s: State, run: Run)
    requires run in s.using
  {
    var index := s.using[run].index;
    index !in s.labelled || exists n :: n in s.sweeps && CanTake(s.sweeps[n], index, run.job)
  }

  /** What compares the holder with this job and deletes is on its way to this index: the release
      of an earlier run of the same job, or a reconciliation that found the job not live. */
  ghost predicate DeletionPending(s: State, index: Index, job: JobId) {
    || (exists run :: run in s.releasing && run.job == job && s.releasing[run] == index)
    || (exists n :: n in s.sweeps && s.sweeps[n].Doomed? && s.sweeps[n].index == index && s.sweeps[n].job == job)
  }

  /** With nobody in between, a reconciliation does at each index what the call does: it passes over
      one that a container carries or nobody leases, and of any other it takes the lease exactly
      when the job that holds it is not live. */
  lemma SweepIsTheCall(s: State, n: nat, index: Index, ttl: nat)
    requires n in s.sweeps && s.sweeps[n].Listed? && index in s.sweeps[n].todo
    ensures var held, holder := s.sweeps[n].held, Holder(s.leases, index, s.now);
            var on := s.sweeps[n := Listed(held, s.sweeps[n].todo - {index})];
            if index in held || holder.None? then
              !Enabled(s, ReadLease(n, index)) && Enabled(s, Pass(n, index))
              && After(s, Pass(n, index), ttl) == s.(sweeps := on)
            else
              && !Enabled(s, Pass(n, index)) && Enabled(s, ReadLease(n, index))
              && var s1 := After(s, ReadLease(n, index), ttl);
              && Enabled(s1, AskDatabase(n))
              && var s2 := After(s1, AskDatabase(n), ttl);
              if holder.value in s.live then s2 == s.(sweeps := on)
              else Enabled(s2, Delete(n)) && After(s2, Delete(n), ttl) == s.(leases := s.leases - {index}, sweeps := on)
  {
  }

  /** What the surroundings promise. While a run uses a camera its job is live, or its container
      accounts for it; a job is not given an index again while a deletion of its old lease is on
      its way there; nobody outstays the abort. */
  ghost predicate Orderly(s: State, step: Step, hold: nat) {
    match step
    case Acquire(run, index) => !DeletionPending(s, index, run.job)
    case GoDead(job) => forall run :: run in s.using && run.job == job ==> !Exposed(s, run)
    case Tick(ms) => forall run :: run in s.using ==> s.now + ms <= s.using[run].since + hold
    case _ => true
  }

  ghost predicate Init(s: State) {
    && s.leases == map[] && s.using == map[] && s.releasing == map[]
    && s.labelled == {} && s.sweeps == map[] && s.started == {}
  }

  predicate Steps(s: State, step: Step, t: State, ttl: nat) {
    Enabled(s, step) && t == After(s, step, ttl)
  }

  ghost predicate IsPath(trace: seq<State>, steps: seq<Step>, ttl: nat) {
    |trace| == |steps| + 1 && forall i :: 0 <= i < |steps| ==> Steps(trace[i], steps[i], trace[i + 1], ttl)
  }

  ghost predicate OrderlyPath(trace: seq<State>, steps: seq<Step>, ttl: nat, hold: nat) {
    IsPath(trace, steps, ttl) && forall i :: 0 <= i < |steps| ==> Orderly(trace[i], steps[i], hold)
  }

  ghost predicate OrderlyRun(trace: seq<State>, steps: seq<Step>, ttl: nat, hold: nat) {
    OrderlyPath(trace, steps, ttl, hold) && Init(trace[0])
  }

  // ----- the invariant -----

  /** A reconciliation does not come back to the index it is looking at. */
  ghost predicate Tidy(s: State) {
    forall n :: n in s.sweeps && !s.sweeps[n].Listed? ==>
      s.sweeps[n].index !in s.sweeps[n].held && s.sweeps[n].index !in s.sweeps[n].todo
  }

  /** A run in possession of a device holds an unexpired lease on it. */
  ghost predicate Leased(s: State, run: Run, ttl: nat, hold: nat)
    requires run in s.using
  {
    var u := s.using[run];
    && u.since <= s.now <= u.since + hold && u.index in s.pool && run in s.started
    && u.index in s.leases && s.leases[u.index].job == run.job && u.since + ttl <= s.leases[u.index].expires
  }

  /** Nobody else is in possession, nothing is about to delete the lease, and if the job is no
      longer live a container accounts for it. */
  ghost predicate Guarded(s: State, run: Run)
    requires run in s.using
  {
    && (forall other :: other in s.using && s.using[other].index == s.using[run].index ==> other == run)
    && !DeletionPending(s, s.using[run].index, run.job)
    && (run.job !in s.live ==> !Exposed(s, run))
  }

  ghost predicate Safe(s: State, run: Run, ttl: nat, hold: nat)
    requires run in s.using
  {
    Leased(s, run, ttl, hold) && Guarded(s, run)
  }

  ghost predicate Inv(s: State, ttl: nat, hold: nat) {
    Tidy(s) && forall run :: run in s.using ==> Safe(s, run, ttl, hold)
  }

  /** What has to be orderly about a step for the sake of one run. */
  ghost predicate OrderlyFor(s: State, step: Step, run: Run, hold: nat)
    requires run in s.using
  {
    && (step == GoDead(run.job) ==> !Exposed(s, run))
    && (step.Tick? ==> s.now + step.ms <= s.using[run].since + hold)
  }

  /** The run is as it was, and safe. */
  ghost predicate StillSafe(s: State, t: State, run: Run, ttl: nat, hold: nat)
    requires run in s.using
  {
    run in t.using && t.using[run] == s.using[run] && Safe(t, run, ttl, hold)
  }

  /** A run stays safe until it stops using its device, whatever becomes of the others. */
  lemma StaysSafe(s: State, step: Step, run: Run, ttl: nat, hold: nat)
    requires hold < ttl && Tidy(s) && run in s.using && Safe(s, run, ttl, hold) && Enabled(s, step)
    requires OrderlyFor(s, step, run, hold) && step != StopUsing(run)
    ensures StillSafe(s, After(s, step, ttl), run, ttl, hold)
  {
  }

  lemma StaysTidy(s: State, step: Step, ttl: nat)
    requires Tidy(s) && Enabled(s, step)
    ensures Tidy(After(s, step, ttl))
  {
  }

  lemma LeasesSafely(s: State, run: Run, index: Index, ttl: nat, hold: nat)
    requires hold < ttl && Inv(s, ttl, hold) && Enabled(s, Acquire(run, index))
    requires Orderly(s, Acquire(run, index), hold)
    ensures Safe(After(s, Acquire(run, index), ttl), run, ttl, hold)
  {
    forall other | other in s.using && s.using[other].index == index ensures other == run {
      assert Safe(s, other, ttl, hold);
    }
  }

  lemma StepKeeps(s: State, step: Step, ttl: nat, hold: nat)
    requires hold < ttl && Inv(s, ttl, hold) && Enabled(s, step) && Orderly(s, step, hold)
    ensures Inv(After(s, step, ttl), ttl, hold)
  {
    var t := After(s, step, ttl);
    StaysTidy(s, step, ttl);
    forall run | run in t.using ensures Safe(t, run, ttl, hold) {
      if run in s.using {
        StaysSafe(s, step, run, ttl, hold);
      } else {
        LeasesSafely(s, run, step.index, ttl, hold);
      }
    }
  }

  lemma {:induction false} RunKeeps(trace: seq<State>, steps: seq<Step>, ttl: nat, hold: nat, i: nat)
    requires hold < ttl && OrderlyRun(trace, steps, ttl, hold) && i < |trace|
    ensures Inv(trace[i], ttl, hold)
  {
    if i == 0 {
    } else {
      RunKeeps(trace, steps, ttl, hold, i - 1);
      assert Steps(trace[i - 1], steps[i - 1], trace[i - 1 + 1], ttl);
      StepKeeps(trace[i - 1], steps[i - 1], ttl, hold);
    }
  }

  ghost predicate Bounded(s: State, ttl: nat) {
    forall i :: i in s.leases ==> s.leases[i].expires <= s.now + ttl
  }

  lemma {:induction false} LeasesAreBounded(trace: seq<State>, steps: seq<Step>, ttl: nat, i: nat)
    requires IsPath(trace, steps, ttl) && Bounded(trace[0], ttl) && i < |trace|
    ensures Bounded(trace[i], ttl)
  {
    if i == 0 {
    } else {
      LeasesAreBounded(trace, steps, ttl, i - 1);
      assert Steps(trace[i - 1], steps[i - 1], trace[i - 1 + 1], ttl);
    }
  }

  /** What leaks, by a crash or a lost release, leaks for no longer than a lease: in any run, orderly
      or not, every index nobody has leased since is free again by then. */
  lemma LeaksAreBounded(trace: seq<State>, steps: seq<Step>, ttl: nat, ms: nat, index: Index)
    requires IsPath(trace, steps, ttl) && Init(trace[0]) && ms >= ttl
    ensures Holder(After(trace[|steps|], Tick(ms), ttl).leases, index, After(trace[|steps|], Tick(ms), ttl).now).None?
  {
    LeasesAreBounded(trace, steps, ttl, |steps|);
  }

  /** No index is in the possession of two runs, of two jobs or of one, at any instant of any
      orderly run of the system. */
  lemma MutualExclusion(trace: seq<State>, steps: seq<Step>, onboardingTimeoutMs: nat, teardownMs: nat, i: nat,
                        a: Run, b: Run)
    requires teardownMs < 2_700_000
    requires OrderlyRun(trace, steps, LeaseTtlMs(onboardingTimeoutMs), HoldMs(onboardingTimeoutMs, teardownMs))
    requires i < |trace| && a in trace[i].using && b in trace[i].using && a != b
    ensures trace[i].using[a].index != trace[i].using[b].index
  {
    LeaseOutlivesHold(onboardingTimeoutMs, teardownMs);
    RunKeeps(trace, steps, LeaseTtlMs(onboardingTimeoutMs), HoldMs(onboardingTimeoutMs, teardownMs), i);
    assert Guarded(trace[i], a);
  }

  /** A lease in use leaves Redis neither by a release nor by a reconciliation, and it
      does not expire: a user's lease is its own until it stops using the device. */
  lemma LeaseKeptWhileUsed(trace: seq<State>, steps: seq<Step>, onboardingTimeoutMs: nat, teardownMs: nat, i: nat,
                           run: Run)
    requires teardownMs < 2_700_000
    requires OrderlyRun(trace, steps, LeaseTtlMs(onboardingTimeoutMs), HoldMs(onboardingTimeoutMs, teardownMs))
    requires i < |trace| && run in trace[i].using
    ensures Holder(trace[i].leases, trace[i].using[run].index, trace[i].now) == Some(run.job)
  {
    LeaseOutlivesHold(onboardingTimeoutMs, teardownMs);
    RunKeeps(trace, steps, LeaseTtlMs(onboardingTimeoutMs), HoldMs(onboardingTimeoutMs, teardownMs), i);
    assert Leased(trace[i], run, LeaseTtlMs(onboardingTimeoutMs), HoldMs(onboardingTimeoutMs, teardownMs));
  }

  // ----- when a run loses its lease -----

  /** Two runs are in possession of the index of the first. */
  ghost predicate IsShared(s: State, run: Run) {
    run in s.using && exists other :: other != run && other in s.using && s.using[other].index == s.using[run].index
  }

  /** Some continuation that is orderly, step by step, ends with the index handed out twice. */
  ghost predicate CanBeShared(s: State, run: Run, ttl: nat, hold: nat) {
    exists trace, steps :: OrderlyPath(trace, steps, ttl, hold) && trace[0] == s && IsShared(trace[|steps|], run)
  }

  /** Along orderly steps a safe run stays safe while it lasts, and does not come back. */
  lemma {:induction false} PathStaysSafe(trace: seq<State>, steps: seq<Step>, run: Run, ttl: nat, hold: nat, i: nat)
    requires hold < ttl && OrderlyPath(trace, steps, ttl, hold) && i < |trace|
    requires Tidy(trace[0]) && run in trace[0].using && Safe(trace[0], run, ttl, hold)
    ensures Tidy(trace[i]) && run in trace[i].started
    ensures run in trace[i].using ==> Safe(trace[i], run, ttl, hold)
  {
    if i == 0 {
    } else {
      PathStaysSafe(trace, steps, run, ttl, hold, i - 1);
      var s, step := trace[i - 1], steps[i - 1];
      assert Steps(s, step, trace[i - 1 + 1], ttl) && Orderly(s, step, hold);
      StaysTidy(s, step, ttl);
      if run in s.using && step != StopUsing(run) {
        StaysSafe(s, step, run, ttl, hold);
      }
    }
  }

  lemma SafeIsNotShared(s: State, run: Run, ttl: nat, hold: nat)
    requires hold < ttl && Tidy(s) && run in s.using && Safe(s, run, ttl, hold)
    ensures !CanBeShared(s, run, ttl, hold)
  {
    forall trace, steps | OrderlyPath(trace, steps, ttl, hold) && trace[0] == s
      ensures !IsShared(trace[|steps|], run)
    {
      PathStaysSafe(trace, steps, run, ttl, hold, |steps|);
    }
  }

  /** A run whose job is not live but which still holds its device, by an unexpired lease. */
  predicate IsStrayUser(s: State, run: Run, index: Index) {
    && run in s.using && s.using[run].index == index && run.job !in s.live
    && index in s.pool && Holder(s.leases, index, s.now) == Some(run.job)
  }

  lemma Extend(trace: seq<State>, steps: seq<Step>, step: Step, ttl: nat, hold: nat)
      returns (trace1: seq<State>, steps1: seq<Step>)
    requires OrderlyPath(trace, steps, ttl, hold) && Enabled(trace[|steps|], step)
             && Orderly(trace[|steps|], step, hold)
    ensures OrderlyPath(trace1, steps1, ttl, hold) && trace1[0] == trace[0]
    ensures trace1[|steps1|] == After(trace[|steps|], step, ttl)
  {
    trace1, steps1 := trace + [After(trace[|steps|], step, ttl)], steps + [step];
    forall i | 0 <= i < |steps1|
      ensures Steps(trace1[i], steps1[i], trace1[i + 1], ttl) && Orderly(trace1[i], steps1[i], hold) {
      if i < |steps| { assert Steps(trace[i], steps[i], trace[i + 1], ttl); }
    }
  }

  lemma {:induction false} FreshJob(jobs: set<JobId>) returns (job: JobId)
    ensures forall other :: other in jobs ==> |other| < |job|
  {
    if jobs == {} {
      job := "";
    } else {
      var other :| other in jobs;
      var rest := FreshJob(jobs - {other});
      job := if |rest| > |other| then rest else other + "j";
      assert jobs == jobs - {other} + {other};
    }
  }

  lemma {:induction false} FreshSweep(sweeps: set<nat>) returns (n: nat)
    ensures forall other :: other in sweeps ==> other < n
  {
    if sweeps == {} {
      n := 0;
    } else {
      var other :| other in sweeps;
      var rest := FreshSweep(sweeps - {other});
      n := if rest > other then rest else other + 1;
      assert sweeps == sweeps - {other} + {other};
    }
  }

  /** Every job that a run, a release or a reconciliation has to do with. */
  function KnownJobs(s: State): set<JobId> {
    (set run | run in s.started :: run.job) + (set run | run in s.releasing :: run.job)
    + (set run | run in s.using :: run.job) + set n | n in s.sweeps && s.sweeps[n].Doomed? :: s.sweeps[n].job
  }

  lemma NothingPending(s: State, index: Index, job: JobId)
    requires job !in KnownJobs(s)
    ensures !DeletionPending(s, index, job) && Run(job, 0) !in s.started && Run(job, 0) !in s.using
  {
    assert forall run :: run in s.started || run in s.releasing || run in s.using ==> run.job in KnownJobs(s);
    assert forall n :: n in s.sweeps && s.sweeps[n].Doomed? ==> s.sweeps[n].job in KnownJobs(s);
  }

  /** Once the lease is gone, any job that goes live may have the index. */
  lemma PassedOn(trace: seq<State>, steps: seq<Step>, run: Run, index: Index, ttl: nat, hold: nat)
    requires OrderlyPath(trace, steps, ttl, hold)
    requires var s := trace[|steps|];
             run in s.using && s.using[run].index == index && index in s.pool && Holder(s.leases, index, s.now).None?
    ensures CanBeShared(trace[0], run, ttl, hold)
  {
    var other := FreshJob(KnownJobs(trace[|steps|]));
    var trace1, steps1 := Extend(trace, steps, GoLive(other), ttl, hold);
    NothingPending(trace1[|steps1|], index, other);
    var trace2, steps2 := Extend(trace1, steps1, Acquire(Run(other, 0), index), ttl, hold);
    var t := trace2[|steps2|];
    assert Run(other, 0) != run && Run(other, 0) in t.using && t.using[Run(other, 0)].index == t.using[run].index;
    assert IsShared(t, run);
  }

  /** A reconciliation that has read the lease asks about the job, and deletes it. */
  lemma TakenOnceRead(trace: seq<State>, steps: seq<Step>, n: nat, run: Run, index: Index, ttl: nat, hold: nat)
    requires OrderlyPath(trace, steps, ttl, hold) && IsStrayUser(trace[|steps|], run, index)
    requires var s := trace[|steps|];
             n in s.sweeps && s.sweeps[n].Read? && s.sweeps[n].index == index && s.sweeps[n].job == run.job
    ensures CanBeShared(trace[0], run, ttl, hold)
  {
    var trace1, steps1 := Extend(trace, steps, AskDatabase(n), ttl, hold);
    var trace2, steps2 := Extend(trace1, steps1, Delete(n), ttl, hold);
    PassedOn(trace2, steps2, run, index, ttl, hold);
  }

  lemma TakenOnceReached(trace: seq<State>, steps: seq<Step>, n: nat, run: Run, index: Index, ttl: nat, hold: nat)
    requires OrderlyPath(trace, steps, ttl, hold) && IsStrayUser(trace[|steps|], run, index)
    requires var s := trace[|steps|];
             n in s.sweeps && s.sweeps[n].Listed? && index !in s.sweeps[n].held && index in s.sweeps[n].todo
    ensures CanBeShared(trace[0], run, ttl, hold)
  {
    var trace1, steps1 := Extend(trace, steps, ReadLease(n, index), ttl, hold);
    TakenOnceRead(trace1, steps1, n, run, index, ttl, hold);
  }

  /** What a reconciliation is looking at when the job dies is another lease, and it goes on. */
  lemma FinishLookup(s: State, n: nat, run: Run, index: Index, ttl: nat, hold: nat)
      returns (trace: seq<State>, steps: seq<Step>)
    requires IsStrayUser(s, run, index) && n in s.sweeps && index !in s.sweeps[n].held && index in s.sweeps[n].todo
    requires s.sweeps[n].Listed? || s.sweeps[n].index != index
    ensures OrderlyPath(trace, steps, ttl, hold) && trace[0] == s
    ensures var t := trace[|steps|];
            && IsStrayUser(t, run, index) && n in t.sweeps
            && t.sweeps[n] == Listed(s.sweeps[n].held, s.sweeps[n].todo)
  {
    trace, steps := [s], [];
    if s.sweeps[n].Read? {
      trace, steps := Extend(trace, steps, AskDatabase(n), ttl, hold);
    }
    if trace[|steps|].sweeps[n].Doomed? {
      trace, steps := Extend(trace, steps, Delete(n), ttl, hold);
    }
  }

  lemma ExposedIsTaken(s: State, run: Run, ttl: nat, hold: nat)
    requires run in s.using && Exposed(s, run) && IsStrayUser(s, run, s.using[run].index) && Tidy(s)
    ensures CanBeShared(s, run, ttl, hold)
  {
    var index := s.using[run].index;
    if index !in s.labelled {
      var n := FreshSweep(s.sweeps.Keys);
      var trace, steps := Extend([s], [], List(n), ttl, hold);
      TakenOnceReached(trace, steps, n, run, index, ttl, hold);
    } else {
      var n :| n in s.sweeps && CanTake(s.sweeps[n], index, run.job);
      if index in s.sweeps[n].todo {
        var trace, steps := FinishLookup(s, n, run, index, ttl, hold);
        TakenOnceReached(trace, steps, n, run, index, ttl, hold);
      } else {
        TakenOnceRead([s], [], n, run, index, ttl, hold);
      }
    }
  }

  /** The exact condition on a death. Of a run whose job stops being live while it holds a
      device, the index can come into the possession of a second run if and only if no container
      carried it yet, or a reconciliation under way did not see that container and has still to
      come to the index, or has just read the lease. */
  lemma SharedIff(s: State, run: Run, ttl: nat, hold: nat)
    requires hold < ttl && Tidy(s) && run in s.using && Safe(s, run, ttl, hold)
    ensures CanBeShared(After(s, GoDead(run.job), ttl), run, ttl, hold) <==> Exposed(s, run)
  {
    var t := After(s, GoDead(run.job), ttl);
    if Exposed(s, run) {
      assert Exposed(t, run);
      ExposedIsTaken(t, run, ttl, hold);
    } else {
      StaysSafe(s, GoDead(run.job), run, ttl, hold);
      SafeIsNotShared(t, run, ttl, hold);
    }
  }

  /** The exact condition on a lease. The index a run is given can come into the possession of a
      second run, with no further disorder, if and only if a deletion of an old lease of its own
      job was on its way there. */
  lemma LeasedAgainIff(s: State, run: Run, index: Index, ttl: nat, hold: nat)
    requires hold < ttl && Inv(s, ttl, hold) && Enabled(s, Acquire(run, index))
    ensures CanBeShared(After(s, Acquire(run, index), ttl), run, ttl, hold) <==> DeletionPending(s, index, run.job)
  {
    var t := After(s, Acquire(run, index), ttl);
    if !DeletionPending(s, index, run.job) {
      StaysTidy(s, Acquire(run, index), ttl);
      LeasesSafely(s, run, index, ttl, hold);
      SafeIsNotShared(t, run, ttl, hold);
    } else if earlier :| earlier in s.releasing && earlier.job == run.job && s.releasing[earlier] == index {
      var trace, steps := Extend([t], [], Release(earlier), ttl, hold);
      PassedOn(trace, steps, run, index, ttl, hold);
    } else {
      var n :| n in s.sweeps && s.sweeps[n].Doomed? && s.sweeps[n].index == index && s.sweeps[n].job == run.job;
      var trace, steps := Extend([t], [], Delete(n), ttl, hold);
      PassedOn(trace, steps, run, index, ttl, hold);
    }
  }

  /** The first comes about: a reconciliation lists, a job leases and labels, and is cancelled.
      Its container is there, and its lease can be taken all the same. */
  lemma StaleListingBreaksExclusion(job: JobId, index: Index, ttl: nat, hold: nat)
      returns (trace: seq<State>, steps: seq<Step>)
    requires hold < ttl
    ensures OrderlyRun(trace, steps, ttl, hold)
    ensures var s, run := trace[|steps|], Run(job, 0);
            && run in s.using && s.using[run].index == index && index in s.labelled && job in s.live
            && CanBeShared(After(s, GoDead(job), ttl), run, ttl, hold)
  {
    var run := Run(job, 0);
    trace, steps := [State({index}, 0, map[], map[], map[], {}, {job}, {}, map[])], [];
    trace, steps := Extend(trace, steps, List(0), ttl, hold);
    trace, steps := Extend(trace, steps, Acquire(run, index), ttl, hold);
    trace, steps := Extend(trace, steps, Label(run), ttl, hold);
    var s := trace[|steps|];
    RunKeeps(trace, steps, ttl, hold, |steps|);
    assert 0 in s.sweeps && CanTake(s.sweeps[0], index, job);
    SharedIff(s, run, ttl, hold);
  }

  /** A run puts its device away, and its job stops being live. */
  lemma PutAway(job: JobId, index: Index, ttl: nat, hold: nat) returns (trace: seq<State>, steps: seq<Step>)
    requires hold < ttl
    ensures OrderlyRun(trace, steps, ttl, hold)
    ensures var run := Run(job, 0);
      trace[|steps|] == State({index}, 0, map[index := Lease(job, ttl)], map[], map[run := index], {run}, {}, {}, map[])
  {
    var run := Run(job, 0);
    trace, steps := [State({index}, 0, map[], map[], map[], {}, {job}, {}, map[])], [];
    trace, steps := Extend(trace, steps, Acquire(run, index), ttl, hold);
    trace, steps := Extend(trace, steps, StopUsing(run), ttl, hold);
    trace, steps := Extend(trace, steps, GoDead(job), ttl, hold);
  }

  /** And so does the second: a run that has put its device away and not yet given back the lease
      outlasts a reconciliation that frees it, and its job runs again. */
  lemma LateReleaseBreaksExclusion(job: JobId, index: Index, ttl: nat, hold: nat)
      returns (trace: seq<State>, steps: seq<Step>)
    requires hold < ttl
    ensures OrderlyRun(trace, steps, ttl, hold)
    ensures var s, again := trace[|steps|], Acquire(Run(job, 1), index);
            Enabled(s, again) && CanBeShared(After(s, again, ttl), Run(job, 1), ttl, hold)
  {
    trace, steps := PutAway(job, index, ttl, hold);
    trace, steps := Extend(trace, steps, List(0), ttl, hold);
    trace, steps := Extend(trace, steps, ReadLease(0, index), ttl, hold);
    trace, steps := Extend(trace, steps, AskDatabase(0), ttl, hold);
    trace, steps := Extend(trace, steps, Delete(0), ttl, hold);
    trace, steps := Extend(trace, steps, GoLive(job), ttl, hold);
    RunKeeps(trace, steps, ttl, hold, |steps|);
    assert Run(job, 0) in trace[|steps|].releasing;
    LeasedAgainIff(trace[|steps|], Run(job, 1), index, ttl, hold);
  }
}
