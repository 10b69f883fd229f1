/** What a worker does before it takes its first job: recover what a dead one left, then
    settle every account's slots, the containers and the camera leases by the result. */
module Boot {
  import opened Lists
  import opened Options
  import opened Docker
  import opened Recovery
  import CameraSlots
  import JobProtocol
  import RateLimiter
  import Reaper

  /** A status in which a job has a device, and an account has a slot in use. */
  predicate IsRunning(r: Row) {
    r.status.Processing? || r.status.AwaitingHuman? || r.status.Verifying?
  }

  predicate IsLiveJob(rows: Rows, job: JobId) {
    job in rows && IsRunning(rows[job])
  }

  /** What holds a device and a slot, by the status alone. */
  ghost predicate InUse(rows: Rows, job: JobId) {
    job in rows && rows[job].status in {JobProtocol.Processing, JobProtocol.AwaitingHuman, JobProtocol.Verifying}
  }

  function RunningRows(rows: Rows, account: AccountId): set<JobId> {
    set id | id in rows && IsRunning(rows[id]) && rows[id].account == account
  }

  ghost function RowsInUse(rows: Rows, account: AccountId): set<JobId> {
    set id | id in rows && InUse(rows, id) && rows[id].account == account
  }

  /** The grouped count: accounts with nothing running have no entry. */
  function PerAccount(rows: Rows): map<AccountId, nat> {
    map a | a in (set id | id in rows && IsRunning(rows[id]) :: rows[id].account) :: |RunningRows(rows, a)|
  }

  lemma PerAccountIsRunning(rows: Rows, account: AccountId)
    ensures RateLimiter.Redis.Running(PerAccount(rows), account) == |RowsInUse(rows, account)|
  {
    assert RunningRows(rows, account) == RowsInUse(rows, account);
    if account !in PerAccount(rows) {
      assert RunningRows(rows, account) == {};
    }
  }

  method ReconcileSlots(store: Store, slots: RateLimiter.Redis, accounts: seq<AccountId>) returns (corrected: nat)
    requires Distinct(accounts)
    modifies slots`slots
    ensures forall a :: a in accounts ==> slots.InFlight(a) == |RowsInUse(store.rows, a)|
  {
    corrected := slots.ReconcileAccountSlots(PerAccount(store.rows), accounts);
    forall a { PerAccountIsRunning(store.rows, a); }
  }

  // ----- the answers the two sweeps get from the database -----

  function JobsOf(containers: Containers): set<JobId> {
    set n | n in containers && containers[n].job.Some? :: containers[n].job.value
  }

  function AboutContainers(rows: Rows, containers: Containers): Reaper.Answers {
    map n | n in containers && containers[n].job.Some? :: IsLiveJob(rows, containers[n].job.value)
  }

  function AboutLeases(rows: Rows, leases: map<Index, CameraSlots.Lease>): map<Index, bool> {
    map i | i in leases :: IsLiveJob(rows, leases[i].job)
  }

  /** How the worker builds its containers: gateways lend their namespace, to their own job only. */
  ghost predicate WellBuilt(containers: Containers, now: int) {
    && Reaper.OnlyGatewaysLend(containers)
    && (forall job :: job in JobsOf(containers) ==> Reaper.JobKeepsToItself(containers, job))
    && forall n :: n in containers && containers[n].createdAt.Some? ==> containers[n].createdAt.value <= now
  }

  ghost predicate OnlyLiveJobsLeft(containers: Containers, rows: Rows) {
    forall n :: n in containers && containers[n].owned && containers[n].job.Some? && containers[n].job.value != "" ==>
      InUse(rows, containers[n].job.value)
  }

  lemma DeadJobsCollected(before: Containers, listing: seq<Name>, now: int, rows: Rows, removed: seq<Name>,
                          failed: seq<Name>)
    requires WellBuilt(before, now) && IsListing(listing, before)
    requires Reaper.Swept(before, {}, listing, now, 0, AboutContainers(rows, before), removed, failed)
    ensures OnlyLiveJobsLeft(before - Reaper.Names(removed), rows)
  {
    var after := before - Reaper.Names(removed);
    forall n | n in after && after[n].owned && after[n].job.Some? && after[n].job.value != ""
      ensures InUse(rows, after[n].job.value)
    {
      var job := after[n].job.value;
      assert n in before && before[n].job == Some(job) && job in JobsOf(before);
      if !IsLiveJob(rows, job) {
        Reaper.DeadJobCollected(before, {}, listing, now, 0, AboutContainers(rows, before), removed, failed, job);
      }
    }
  }

  /** Nothing a live job owns has been taken. */
  ghost predicate LiveJobsKept(before: Containers, after: Containers, rows: Rows) {
    forall n :: n in before && before[n].job.Some? && InUse(rows, before[n].job.value) ==> n in after
  }

  lemma LiveJobsSpared(before: Containers, listing: seq<Name>, now: int, rows: Rows, removed: seq<Name>,
                       failed: seq<Name>)
    requires "" !in rows
    requires Reaper.Swept(before, {}, listing, now, 0, AboutContainers(rows, before), removed, failed)
    ensures LiveJobsKept(before, before - Reaper.Names(removed), rows)
  {
    forall n | n in before && before[n].job.Some? && InUse(rows, before[n].job.value) ensures n !in removed {
      assert before[n].job.value in JobsOf(before);
      if n in listing {
        assert Reaper.Settled(before, {}, n, now, 0, AboutContainers(rows, before), removed, failed);
      }
    }
  }

  /** What the sweep must not touch stays as it is, and nothing new appears. */
  ghost predicate OthersKept(before: Containers, after: Containers) {
    && (forall n :: n in before && !before[n].owned ==> n in after)
    && (forall n :: n in after ==> n in before && after[n] == before[n])
  }

  /** A lease on a camera of the pool that no surviving container carries and whose job is not
      live. */
  ghost predicate Abandoned(containers: Containers, leases: map<Index, CameraSlots.Lease>, index: Index, now: nat,
                            pool: seq<Index>, rows: Rows) {
    && index in pool && !Reaper.HeldBy(containers, index)
    && CameraSlots.Holder(leases, index, now).Some?
    && !InUse(rows, CameraSlots.Holder(leases, index, now).value)
  }

  /** Exactly the abandoned leases are freed; every other one is as it was. */
  ghost predicate LeasesSettled(containers: Containers, before: map<Index, CameraSlots.Lease>,
                                after: map<Index, CameraSlots.Lease>, now: nat, pool: seq<Index>, rows: Rows) {
    forall i :: CameraSlots.Holder(after, i, now) ==
                if Abandoned(containers, before, i, now, pool, rows) then None else CameraSlots.Holder(before, i, now)
  }

  method StartContainerReaping(store: Store, host: Host, cameras: CameraSlots.Redis, pool: seq<Index>, now: int)
    requires host.wedged == {} && WellBuilt(host.containers, now) && "" !in store.rows
    modifies host`containers, host`events, cameras`leases
    ensures OnlyLiveJobsLeft(host.containers, store.rows)
    ensures LiveJobsKept(old(host.containers), host.containers, store.rows)
    ensures OthersKept(old(host.containers), host.containers)
    ensures LeasesSettled(host.containers, old(cameras.leases), cameras.leases, cameras.now, pool, store.rows)
    ensures LeasesAccounted(host.containers, cameras.leases, cameras.now, pool, store.rows)
  {
    ghost var before := host.containers;
    var listing := host.ListByLabel();
    var r := Reaper.ReapAndroidContainers(host, listing, now, 0, AboutContainers(store.rows, host.containers));
    DeadJobsCollected(before, listing, now, store.rows, r.removed, r.failed);
    LiveJobsSpared(before, listing, now, store.rows, r.removed, r.failed);
    listing := host.ListByLabel();
    ghost var leases := cameras.leases;
    var freed := Reaper.ReconcileCameraLeases(host, cameras, listing, pool, AboutLeases(store.rows, cameras.leases));
    Settled(host.containers, leases, cameras.leases, cameras.now, pool, store.rows, freed);
  }

  /** A lease on a camera of the pool is on a surviving container, or a live job's. */
  ghost predicate LeasesAccounted(containers: Containers, leases: map<Index, CameraSlots.Lease>, now: nat,
                                  pool: seq<Index>, rows: Rows) {
    forall i :: i in pool && CameraSlots.Holder(leases, i, now).Some? ==>
      Reaper.HeldBy(containers, i) || InUse(rows, CameraSlots.Holder(leases, i, now).value)
  }

  lemma Settled(containers: Containers, before: map<Index, CameraSlots.Lease>, after: map<Index, CameraSlots.Lease>,
                now: nat, pool: seq<Index>, rows: Rows, freed: seq<Index>)
    requires var active := AboutLeases(rows, before);
             forall i :: i in freed <==>
               && i in pool && !Reaper.HeldBy(containers, i) && CameraSlots.Holder(before, i, now).Some?
               && i in active && !active[i]
    requires forall i :: CameraSlots.Holder(after, i, now) ==
              if i in freed then None else CameraSlots.Holder(before, i, now)
    ensures LeasesSettled(containers, before, after, now, pool, rows)
    ensures LeasesAccounted(containers, after, now, pool, rows)
  {
    forall i ensures i in freed <==> Abandoned(containers, before, i, now, pool, rows) {
      assert CameraSlots.Holder(before, i, now).Some? ==> i in before;
    }
  }

  /** After recovery a running row is PROCESSING and still in the queue. */
  lemma RunningIsQueued(rows0: Rows, queue0: Queue, rows: Rows, queue: Queue, now: int, defaultAttempts: nat)
    requires Agreement(rows0, queue0, rows, queue, now, defaultAttempts)
    ensures forall job :: InUse(rows, job) ==>
              rows[job].status.Processing? && LiveIn(queue, job) && job in rows0 && rows0[job].status.Processing?
  {
    forall job | InUse(rows, job)
      ensures rows[job].status.Processing? && LiveIn(queue, job) && job in rows0 && rows0[job].status.Processing?
    {
      assert Recovered(rows0, queue0, rows, queue, job, now, defaultAttempts);
    }
  }

  /** The four steps together: jobs and queue agree, and the slots, the containers and the
      leases say what the jobs say. */
  method StartUp(store: Store, slots: RateLimiter.Redis, host: Host, cameras: CameraSlots.Redis, android: bool,
              stranded: seq<JobId>, candidates: seq<JobId>, accounts: seq<AccountId>, pool: seq<Index>,
              now: int, defaultAttempts: nat)
    requires IsQuery(stranded, store.rows, IsStranded) && IsQuery(candidates, store.rows, IsCandidate)
    requires Distinct(accounts)
    requires host.wedged == {} && WellBuilt(host.containers, now) && "" !in store.rows
    modifies store, slots`slots, host`containers, host`events, cameras`leases
    ensures Agreement(old(store.rows), old(store.queue), store.rows, store.queue, now, defaultAttempts)
    ensures AllSettled(old(store.rows), old(store.queue), store.rows, store.queue, now, defaultAttempts)
    ensures forall job :: InUse(store.rows, job) ==>
              store.rows[job].status.Processing? && LiveIn(store.queue, job)
    ensures forall a :: a in accounts ==> slots.InFlight(a) == |RowsInUse(store.rows, a)|
    ensures !android ==> host.containers == old(host.containers) && cameras.leases == old(cameras.leases)
    ensures android ==>
              && OnlyLiveJobsLeft(host.containers, store.rows)
              && LiveJobsKept(old(host.containers), host.containers, store.rows)
              && OthersKept(old(host.containers), host.containers)
              && LeasesSettled(host.containers, old(cameras.leases), cameras.leases, cameras.now, pool, store.rows)
              && LeasesAccounted(host.containers, cameras.leases, cameras.now, pool, store.rows)
  {
    var _ := store.RecoverOrphans(stranded, candidates, now, defaultAttempts);
    RunningIsQueued(old(store.rows), old(store.queue), store.rows, store.queue, now, defaultAttempts);
    var _ := ReconcileSlots(store, slots, accounts);
    if android {
      StartContainerReaping(store, host, cameras, pool, now);
    }
  }

  /** Why recovery comes first: a sweep or a count that goes by the statuses recovery has
      still to correct keeps the container of a stranded job, and its account's slot. */
  lemma RecoveryComesFirst(rows0: Rows, queue0: Queue, rows: Rows, queue: Queue, now: int, defaultAttempts: nat,
                           before: Containers, swept: Containers, job: JobId, n: Name)
    requires Agreement(rows0, queue0, rows, queue, now, defaultAttempts)
    requires job in rows0 && IsStranded(rows0[job]) && job != ""
    requires n in before && before[n].owned && before[n].job == Some(job)
    requires swept == map m | m in swept && m in before :: before[m]
    requires LiveJobsKept(before, swept, rows0)
    ensures !OnlyLiveJobsLeft(swept, rows)
    ensures job in RowsInUse(rows0, rows0[job].account) && job !in RowsInUse(rows, rows0[job].account)
  {
    assert InUse(rows0, job);
    assert n in swept && swept[n] == before[n];
    assert job in rows && Recovered(rows0, queue0, rows, queue, job, now, defaultAttempts);
  }
}
