/** Leases on the host's camera devices: one Redis key per index. */
module CameraSlots {
  import opened Lists
  import opened Options

  type Index = nat
  type JobId = string

  datatype Lease = Lease(job: JobId, expires: nat)

  /** The onboarding timeout rounded up to seconds, and an hour. */
  function LeaseTtlMs(onboardingTimeoutMs: nat): nat {
    ((onboardingTimeoutMs + 999) / 1_000 + 3_600) * 1_000
  }

  /** Whole seconds, an hour more than the timeout and less than a second more than that. */
  lemma LeaseIsAnHourLonger(onboardingTimeoutMs: nat)
    ensures LeaseTtlMs(onboardingTimeoutMs) % 1_000 == 0
    ensures onboardingTimeoutMs + 3_600_000 <= LeaseTtlMs(onboardingTimeoutMs) < onboardingTimeoutMs + 3_601_000
  {
    var seconds := (onboardingTimeoutMs + 999) / 1_000;
    assert (onboardingTimeoutMs + 999) == seconds * 1_000 + (onboardingTimeoutMs + 999) % 1_000;
  }

  function Holder(leases: map<Index, Lease>, index: Index, now: nat): Option<JobId> {
    if index in leases && now < leases[index].expires then Some(leases[index].job) else None
  }

  /** The script that compares and deletes in one step. */
  function ReleaseIfHeld(leases: map<Index, Lease>, index: Index, job: JobId, now: nat): map<Index, Lease> {
    if Holder(leases, index, now) == Some(job) then leases - {index} else leases
  }

  class CameraSlot {
    const index: Index
    const job: JobId
    var released: bool

    constructor (index: Index, job: JobId)
      ensures this.index == index && this.job == job && !released
    {
      this.index, this.job := index, job;
      released := false;
    }
  }

  datatype PoolError = NoCameraAvailable(pool: seq<Index>)

  class Redis {
    var now: nat
    var leases: map<Index, Lease>

    constructor ()
      ensures leases == map[]
    {
      now, leases := 0, map[];
    }

    predicate Free(index: Index)
      reads this
    {
      Holder(leases, index, now).None?
    }

    /** The first free index of the pool, or a refusal that leased nothing. */
    method AcquireCameraSlot(job: JobId, pool: seq<Index>, onboardingTimeoutMs: nat)
        returns (r: Result<CameraSlot, PoolError>)
      modifies this`leases
      ensures r.Err? <==> forall i :: 0 <= i < |pool| ==> !old(Free(pool[i]))
      ensures r.Err? <==> forall i :: 0 <= i < |pool| ==>
                            pool[i] in old(leases) && now < old(leases)[pool[i]].expires
      ensures r.Err? ==> leases == old(leases)
      ensures r.Ok? ==>
                && fresh(r.value) && r.value.job == job && !r.value.released
                && (exists i :: 0 <= i < |pool| && pool[i] == r.value.index && old(Free(pool[i]))
                      && forall j :: 0 <= j < i ==> !old(Free(pool[j])))
                && leases == old(leases)[r.value.index := Lease(job, now + LeaseTtlMs(onboardingTimeoutMs))]
                && Holder(leases, r.value.index, now) == Some(job)
    {
      for i := 0 to |pool|
        invariant leases == old(leases)
        invariant forall j :: 0 <= j < i ==> !Free(pool[j])
      {
        if !Free(pool[i]) {
          continue;
        }
        leases := leases[pool[i] := Lease(job, now + LeaseTtlMs(onboardingTimeoutMs))];
        var slot := new CameraSlot(pool[i], job);
        return Ok(slot);
      }
      return Err(NoCameraAvailable(pool));
    }

    /** Frees the lease only while this job still holds it, and only once. */
    method Release(slot: CameraSlot)
      modifies this`leases, slot
      ensures slot.released
      ensures leases == if old(slot.released) then old(leases)
                        else ReleaseIfHeld(old(leases), slot.index, slot.job, now)
      ensures leases == if !old(slot.released) && slot.index in old(leases) && now < old(leases)[slot.index].expires
                           && old(leases)[slot.index].job == slot.job
                        then old(leases) - {slot.index} else old(leases)
      ensures forall i :: old(Holder(leases, i, now)) != Some(slot.job) ==>
                Holder(leases, i, now) == old(Holder(leases, i, now))
      ensures !old(slot.released) ==> Holder(leases, slot.index, now) != Some(slot.job)
    {
      if slot.released {
        return;
      }
      slot.released := true;
      leases := ReleaseIfHeld(leases, slot.index, slot.job, now);
    }

    /** A lease nothing accounts for: no container carries the index, and the job that held
        it when it was read is known to be gone. A lookup that failed counts as alive. */
    predicate Stale(index: Index, held: set<Index>, active: map<Index, bool>)
      reads this
    {
      index !in held && Holder(leases, index, now).Some? && index in active && !active[index]
    }

    method ReconcileCameraSlots(pool: seq<Index>, held: set<Index>, active: map<Index, bool>)
        returns (freed: seq<Index>)
      modifies this`leases
      ensures forall i :: i in freed <==> i in pool && old(Stale(i, held, active))
      ensures Distinct(freed)
      ensures forall i :: Holder(leases, i, now) == if i in freed then None else old(Holder(leases, i, now))
    {
      freed := [];
      for n := 0 to |pool|
        invariant forall i :: i in freed <==> i in pool[..n] && old(Stale(i, held, active))
        invariant Distinct(freed)
        invariant forall i :: Holder(leases, i, now) == if i in freed then None else old(Holder(leases, i, now))
      {
        var index := pool[n];
        assert pool[..n + 1] == pool[..n] + [index];
        if index in held {
          continue;
        }
        var holder := Holder(leases, index, now);
        if holder.None? {
          continue;
        }
        var isActive := if index in active then active[index] else true;
        if isActive {
          continue;
        }
        leases := ReleaseIfHeld(leases, index, holder.value, now);
        freed := freed + [index];
      }
      assert pool[..|pool|] == pool;
    }
  }
}
