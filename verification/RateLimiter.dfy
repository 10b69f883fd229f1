/** The per-account concurrency slots: a counter in Redis, and the calls that move it. */
module RateLimiter {
  import opened Lists
  import opened Options

  const SLOT_TTL_MS: nat := 900_000

  // ----- one Redis key -----

  datatype Counter = Counter(value: int, expires: Option<nat>)

  function Live(key: Option<Counter>, now: nat): Option<Counter> {
    if key.Some? && (key.value.expires.None? || now < key.value.expires.value) then key else None
  }

  /** What a GET sees; an absent key counts as zero. */
  function Count(key: Option<Counter>, now: nat): int {
    var c := Live(key, now);
    if c.Some? then c.value.value else 0
  }

  /** INCRBY: keeps the key's lifetime, and starts an absent key without one. */
  function Add(key: Option<Counter>, now: nat, delta: int): Counter {
    var c := Live(key, now);
    if c.Some? then Counter(c.value.value + delta, c.value.expires) else Counter(delta, None)
  }

  function Expire(key: Option<Counter>, now: nat): Option<Counter> {
    var c := Live(key, now);
    if c.Some? then Some(Counter(c.value.value, Some(now + SLOT_TTL_MS))) else None
  }

  /** INCR and EXPIRE. */
  function Taken(key: Option<Counter>, now: nat): Counter {
    Counter(Add(key, now, 1).value, Some(now + SLOT_TTL_MS))
  }

  /** DECR, and SET 0 when that went below. */
  function GivenBack(key: Option<Counter>, now: nat): Counter {
    if Add(key, now, -1).value < 0 then Counter(0, None) else Add(key, now, -1)
  }

  /** What a reconciliation leaves of a key: itself when it counts right. */
  function Reconciled(key: Option<Counter>, now: nat, running: nat): (left: Option<Counter>)
    ensures Count(left, now) == running
  {
    if Count(key, now) == running then key
    else if running == 0 then None
    else Some(Counter(running, Some(now + SLOT_TTL_MS)))
  }

  // ----- the limiter -----

  datatype Limits = Limits(maxConcurrent: nat, minIntervalMs: nat)
  datatype Reason = MaxConcurrent | MinInterval
  datatype Rejection = Rejection(retryAfterMs: nat, reason: Reason)

  /** A closure over the account, with its `released` flag. */
  class Reservation {
    const account: string
    var released: bool

    constructor (account: string)
      ensures this.account == account && !released
    {
      this.account := account;
      released := false;
    }
  }

  function Lookup<V>(m: map<string, V>, key: string): Option<V> {
    if key in m then Some(m[key]) else None
  }

  /** Of a record, its stamp and when it lapses. */
  function CooldownOf(record: Option<(nat, nat)>, now: nat, intervalMs: nat): nat {
    if intervalMs > 0 && record.Some? && now < record.value.1 && now - record.value.0 < intervalMs
    then intervalMs - (now - record.value.0) else 0
  }

  /** Whether the next one is still held back, so long after a publication that ended then. */
  predicate Cooling(published: nat, intervalMs: nat, ms: nat) {
    CooldownOf(Some((published, published + SLOT_TTL_MS)), published + ms, intervalMs) > 0
  }

  /** It is for the whole interval if and only if that is no longer than the lifetime of the
      record, and never after it. */
  lemma IntervalKeptIff(published: nat, intervalMs: nat)
    ensures (forall ms :: 0 <= ms < intervalMs ==> Cooling(published, intervalMs, ms)) <==> intervalMs <= SLOT_TTL_MS
    ensures forall ms: nat :: Cooling(published, intervalMs, ms) ==> ms < intervalMs
  {
    if intervalMs > SLOT_TTL_MS {
      assert !Cooling(published, intervalMs, SLOT_TTL_MS);
    }
  }

  class Redis {
    var now: nat
    var slots: map<string, Counter>
    /** When the account last finished, and when that record lapses. */
    var lastPublish: map<string, (nat, nat)>

    constructor ()
      ensures slots == map[] && lastPublish == map[]
    {
      now, slots, lastPublish := 0, map[], map[];
    }

    function InFlight(account: string): int
      reads this
    {
      Count(Lookup(slots, account), now)
    }

    /** The window left after the last publication, when it is remembered and recent. One that
        is stamped in the future, by another worker's clock, counts as recent. */
    function Cooldown(account: string, intervalMs: nat): nat
      reads this
    {
      CooldownOf(Lookup(lastPublish, account), now, intervalMs)
    }

    /** A reservation takes a slot only when one is left; a refusal leaves the count as
        it was, although refusing for concurrency has extended the key's lifetime. */
    method Reserve(account: string, limits: Limits, deferMs: nat) returns (r: Result<Reservation, Rejection>)
      modifies this`slots
      ensures r.Err? && r.error.reason == MinInterval <==>
                && limits.minIntervalMs > 0 && account in lastPublish && now < lastPublish[account].1
                && now < lastPublish[account].0 + limits.minIntervalMs
      ensures r.Err? && r.error.reason == MinInterval ==>
                slots == old(slots) && r.error.retryAfterMs == lastPublish[account].0 + limits.minIntervalMs - now
      ensures r.Err? && r.error.reason == MaxConcurrent ==> r.error.retryAfterMs == deferMs
      ensures r.Ok? <==>
                old(Cooldown(account, limits.minIntervalMs)) == 0 && old(InFlight(account)) < limits.maxConcurrent
      ensures r.Ok? ==> Lookup(slots, account) == Some(Taken(old(Lookup(slots, account)), now))
      ensures r.Err? && r.error.reason == MaxConcurrent ==>
                Lookup(slots, account) == Some(Add(Some(Taken(old(Lookup(slots, account)), now)), now, -1))
      ensures r.Ok? ==> fresh(r.value) && r.value.account == account && !r.value.released
      ensures InFlight(account) == old(InFlight(account)) + if r.Ok? then 1 else 0
      ensures r.Ok? || r.error.reason == MaxConcurrent ==>
                account in slots && slots[account].expires == Some(now + SLOT_TTL_MS)
      ensures forall other :: other != account ==> Lookup(slots, other) == old(Lookup(slots, other))
    {
      if limits.minIntervalMs > 0 {
        var wait := Cooldown(account, limits.minIntervalMs);
        if wait > 0 {
          return Err(Rejection(wait, MinInterval));
        }
      }
      slots := slots[account := Add(Lookup(slots, account), now, 1)];
      var inFlight := slots[account].value;
      slots := slots[account := Expire(Lookup(slots, account), now).value];
      if inFlight > limits.maxConcurrent {
        slots := slots[account := Add(Lookup(slots, account), now, -1)];
        return Err(Rejection(deferMs, MaxConcurrent));
      }
      var reservation := new Reservation(account);
      return Ok(reservation);
    }

    /** Gives the slot back once, however often it is called, and never below zero. */
    method Release(r: Reservation)
      modifies this`slots, this`lastPublish, r
      ensures r.released
      ensures old(r.released) ==> slots == old(slots) && lastPublish == old(lastPublish)
      ensures !old(r.released) ==>
                && InFlight(r.account) == (if old(InFlight(r.account)) > 0 then old(InFlight(r.account)) - 1 else 0)
                && lastPublish == old(lastPublish)[r.account := (now, now + SLOT_TTL_MS)]
      ensures !old(r.released) ==> Lookup(slots, r.account) == Some(GivenBack(old(Lookup(slots, r.account)), now))
      ensures forall other :: other != r.account ==> Lookup(slots, other) == old(Lookup(slots, other))
    {
      if r.released {
        return;
      }
      r.released := true;
      slots := slots[r.account := Add(Lookup(slots, r.account), now, -1)];
      if slots[r.account].value < 0 {
        slots := slots[r.account := Counter(0, None)];
      }
      lastPublish := lastPublish[r.account := (now, now + SLOT_TTL_MS)];
    }

    /** The heartbeat. */
    method Touch(account: string)
      modifies this`slots
      ensures InFlight(account) == old(InFlight(account))
      ensures old(Live(Lookup(slots, account), now)).Some? ==>
                account in slots && slots[account].expires == Some(now + SLOT_TTL_MS)
      ensures forall other :: other != account ==> Lookup(slots, other) == old(Lookup(slots, other))
    {
      var key := Expire(Lookup(slots, account), now);
      if key.Some? {
        slots := slots[account := key.value];
      }
    }

    /** How many accounts of the list have a count other than the number running. */
    static function Wrong(ids: seq<string>, slots: map<string, Counter>, running: map<string, nat>, now: nat): nat {
      if ids == [] then 0
      else (if Count(Lookup(slots, ids[0]), now) == Running(running, ids[0]) then 0 else 1)
           + Wrong(ids[1..], slots, running, now)
    }

    static function Running(running: map<string, nat>, id: string): nat {
      if id in running then running[id] else 0
    }

    static lemma {:induction false} WrongSnoc(ids: seq<string>, id: string, slots: map<string, Counter>,
                                              running: map<string, nat>, now: nat)
      ensures Wrong(ids + [id], slots, running, now) ==
              Wrong(ids, slots, running, now) + Wrong([id], slots, running, now)
    {
      if ids == [] {
        assert ids + [id] == [id];
      } else {
        assert (ids + [id])[1..] == ids[1..] + [id];
        WrongSnoc(ids[1..], id, slots, running, now);
      }
    }

    static lemma {:induction false} NoneWrong(ids: seq<string>, slots: map<string, Counter>,
                                              running: map<string, nat>, now: nat)
      requires forall id :: id in ids ==> Count(Lookup(slots, id), now) == Running(running, id)
      ensures Wrong(ids, slots, running, now) == 0
    {
      if ids == [] {
      } else {
        assert ids[0] in ids;
        NoneWrong(ids[1..], slots, running, now);
      }
    }

    /** Afterwards every listed account counts what is running, with the lifetime it had when
        it did already and a fresh one otherwise; nothing else has moved, and a second call
        would have nothing to correct. */
    method ReconcileAccountSlots(running: map<string, nat>, ids: seq<string>) returns (corrected: nat)
      requires Distinct(ids)
      modifies this`slots
      ensures corrected == old(Wrong(ids, slots, running, now))
      ensures forall id :: id in ids ==>
                InFlight(id) == Running(running, id)
                && Lookup(slots, id) == Reconciled(old(Lookup(slots, id)), now, Running(running, id))
      ensures forall id :: id !in ids ==> Lookup(slots, id) == old(Lookup(slots, id))
      ensures Wrong(ids, slots, running, now) == 0
    {
      corrected := 0;
      for i := 0 to |ids|
        invariant corrected == old(Wrong(ids[..i], slots, running, now))
        invariant forall j :: 0 <= j < i ==>
                    Lookup(slots, ids[j]) == Reconciled(old(Lookup(slots, ids[j])), now, Running(running, ids[j]))
        invariant forall id :: id !in ids[..i] ==> Lookup(slots, id) == old(Lookup(slots, id))
      {
        var id := ids[i];
        assert id !in ids[..i];
        assert ids[..i + 1] == ids[..i] + [id];
        WrongSnoc(ids[..i], id, old(slots), running, now);
        var stored := InFlight(id);
        var actual := Running(running, id);
        if stored == actual {
          continue;
        }
        if actual == 0 {
          slots := slots - {id};
        } else {
          slots := slots[id := Counter(actual, Some(now + SLOT_TTL_MS))];
        }
        corrected := corrected + 1;
      }
      assert ids[..|ids|] == ids;
      NoneWrong(ids, slots, running, now);
    }
  }
}

/** Any number of workers reserving, touching and releasing one account's slots, one
    Redis command at a time. */
module SlotSemaphore {
  import opened Options
  import opened RateLimiter

  const HEARTBEAT_MS: nat := 60_000

  type Pid = nat

  /** `since` is when the process last set the key's lifetime. */
  datatype Phase = Idle | Rejected(since: nat) | Holding(since: nat) | Clamping

  datatype State = State(now: nat, slot: Option<Counter>, procs: map<Pid, Phase>)

  datatype Step =
    | Reserve(p: Pid)   // INCR and EXPIRE
    | Undo(p: Pid)      // DECR after a refusal
    | Touch(p: Pid)     // EXPIRE from the heartbeat
    | Release(p: Pid)   // DECR
    | Clamp(p: Pid)     // SET 0 when that went below zero
    | Tick(ms: nat)

  function PhaseOf(s: State, p: Pid): Phase {
    if p in s.procs then s.procs[p] else Idle
  }

  predicate Enabled(s: State, step: Step) {
    match step
    case Reserve(p) => PhaseOf(s, p).Idle?
    case Undo(p) => PhaseOf(s, p).Rejected?
    case Touch(p) => PhaseOf(s, p).Holding?
    case Release(p) => PhaseOf(s, p).Holding?
    case Clamp(p) => PhaseOf(s, p).Clamping?
    case Tick(_) => true
  }

  function After(s: State, step: Step, max: nat): State
    requires Enabled(s, step)
  {
    match step
    case Reserve(p) =>
      var slot := Add(s.slot, s.now, 1);
      State(s.now, Expire(Some(slot), s.now),
            s.procs[p := if slot.value > max then Rejected(s.now) else Holding(s.now)])
    case Undo(p) => State(s.now, Some(Add(s.slot, s.now, -1)), s.procs[p := Idle])
    case Touch(p) =>
      var slot := Expire(s.slot, s.now);
      State(s.now, if slot.Some? then slot else s.slot, s.procs[p := Holding(s.now)])
    case Release(p) =>
      var slot := Add(s.slot, s.now, -1);
      State(s.now, Some(slot), s.procs[p := if slot.value < 0 then Clamping else Idle])
    case Clamp(p) => State(s.now, Some(Counter(0, None)), s.procs[p := Idle])
    case Tick(ms) => s.(now := s.now + ms)
  }

  /** Nobody crashes: a holder is never silent for longer than a heartbeat, and the DECR
      that undoes a refusal follows its INCR within the key's lifetime. */
  ghost predicate Timely(s: State) {
    forall p :: p in s.procs ==>
      && (s.procs[p].Holding? ==> s.procs[p].since <= s.now <= s.procs[p].since + HEARTBEAT_MS)
      && (s.procs[p].Rejected? ==> s.procs[p].since <= s.now < s.procs[p].since + SLOT_TTL_MS)
  }

  // ----- one process at a time, the commands are the calls -----

  /** A reservation is let in on the count it made, or undoes it; either way the key is as the
      call leaves it. */
  lemma ReserveIsTheCall(s: State, p: Pid, max: nat)
    requires PhaseOf(s, p).Idle?
    ensures After(s, Reserve(p), max).slot == Some(Taken(s.slot, s.now))
    ensures PhaseOf(After(s, Reserve(p), max), p) == Holding(s.now) <==> Count(s.slot, s.now) < max
    ensures PhaseOf(After(s, Reserve(p), max), p) != Holding(s.now) ==>
              && Enabled(After(s, Reserve(p), max), Undo(p))
              && After(After(s, Reserve(p), max), Undo(p), max).slot == Some(Add(Some(Taken(s.slot, s.now)), s.now, -1))
  {
  }

  /** A release clamps if it has to, and then the key is as the call leaves it. */
  lemma ReleaseIsTheCall(s: State, p: Pid, max: nat)
    requires PhaseOf(s, p).Holding?
    ensures PhaseOf(After(s, Release(p), max), p).Idle? ==>
              After(s, Release(p), max).slot == Some(GivenBack(s.slot, s.now))
    ensures !PhaseOf(After(s, Release(p), max), p).Idle? ==>
              && Enabled(After(s, Release(p), max), Clamp(p))
              && After(After(s, Release(p), max), Clamp(p), max).slot == Some(GivenBack(s.slot, s.now))
              && PhaseOf(After(After(s, Release(p), max), Clamp(p), max), p).Idle?
  {
  }

  ghost predicate Next(s: State, t: State, max: nat) {
    exists step :: Enabled(s, step) && t == After(s, step, max) && Timely(t)
  }

  ghost predicate Init(s: State) {
    s.slot.None? && s.procs == map[]
  }

  ghost predicate IsRun(trace: seq<State>, max: nat) {
    && trace != []
    && Init(trace[0])
    && forall i :: 0 < i < |trace| ==> Next(trace[i - 1], trace[i], max)
  }

  function Holders(s: State): set<Pid> {
    set p | p in s.procs && s.procs[p].Holding?
  }

  function Undoing(s: State): set<Pid> {
    set p | p in s.procs && s.procs[p].Rejected?
  }

  function Counted(s: State): set<Pid> {
    Holders(s) + Undoing(s)
  }

  /** The counter is what the processes account for, with whatever a reconciliation counted
      that nobody holds, and outlives everyone it counts. */
  ghost predicate Accounted(s: State, extra: nat) {
    && Count(s.slot, s.now) == |Counted(s)| + extra
    && (Counted(s) != {} ==> Live(s.slot, s.now).Some?)
    && (forall p :: p in Counted(s) ==> s.procs[p].since + SLOT_TTL_MS <= Expiry(s.slot))
  }

  ghost predicate Inv(s: State, max: nat, extra: nat) {
    && Timely(s)
    && Accounted(s, extra)
    && |Holders(s)| <= max
    && forall p :: p in s.procs ==> !s.procs[p].Clamping?
  }

  function Expiry(slot: Option<Counter>): nat {
    if slot.Some? && slot.value.expires.Some? then slot.value.expires.value else 0
  }

  lemma Disjoint(s: State)
    ensures |Counted(s)| == |Holders(s)| + |Undoing(s)|
  {
    assert Holders(s) !! Undoing(s);
  }

  lemma Enter(s: State, p: Pid, phase: Phase, t: State)
    requires PhaseOf(s, p).Idle? && t.procs == s.procs[p := phase]
    requires phase.Holding? || phase.Rejected?
    ensures |Counted(t)| == |Counted(s)| + 1
    ensures |Holders(t)| == |Holders(s)| + if phase.Holding? then 1 else 0
    ensures forall q :: q in Counted(t) ==> q == p || (q in Counted(s) && t.procs[q] == s.procs[q])
  {
    assert p !in Counted(s) && Counted(t) == Counted(s) + {p};
    assert Holders(t) == if phase.Holding? then Holders(s) + {p} else Holders(s);
  }

  lemma ReserveAccounted(s: State, p: Pid, max: nat, extra: nat)
    requires Accounted(s, extra) && PhaseOf(s, p).Idle?
    requires forall q :: q in Counted(s) ==> s.procs[q].since <= s.now
    ensures Accounted(After(s, Reserve(p), max), extra)
  {
    var t := After(s, Reserve(p), max);
    Enter(s, p, t.procs[p], t);
    assert t.slot == Some(Counter(|Counted(s)| + extra + 1, Some(s.now + SLOT_TTL_MS)));
  }

  lemma ReserveBounded(s: State, p: Pid, max: nat, extra: nat)
    requires Accounted(s, extra) && PhaseOf(s, p).Idle? && |Holders(s)| <= max
    ensures |Holders(After(s, Reserve(p), max))| <= max
  {
    var t := After(s, Reserve(p), max);
    Disjoint(s);
    Enter(s, p, t.procs[p], t);
  }

  lemma ReserveKeepsInv(s: State, p: Pid, max: nat, extra: nat)
    requires Inv(s, max, extra) && Enabled(s, Reserve(p))
    ensures Inv(After(s, Reserve(p), max), max, extra)
  {
    ReserveAccounted(s, p, max, extra);
    ReserveBounded(s, p, max, extra);
  }

  lemma Leave(s: State, p: Pid, t: State, extra: nat)
    requires Accounted(s, extra) && p in Counted(s)
    requires t == State(s.now, Some(Add(s.slot, s.now, -1)), s.procs[p := Idle])
    ensures Accounted(t, extra) && t.slot.value.value >= 0
    ensures |Holders(t)| <= |Holders(s)|
  {
    assert Counted(t) == Counted(s) - {p};
    assert Holders(t) == Holders(s) - {p};
  }

  lemma UndoKeepsInv(s: State, p: Pid, max: nat, extra: nat)
    requires Inv(s, max, extra) && Enabled(s, Undo(p))
    ensures Inv(After(s, Undo(p), max), max, extra)
  {
    Leave(s, p, After(s, Undo(p), max), extra);
  }

  lemma ReleaseKeepsInv(s: State, p: Pid, max: nat, extra: nat)
    requires Inv(s, max, extra) && Enabled(s, Release(p))
    ensures Inv(After(s, Release(p), max), max, extra)
  {
    Leave(s, p, State(s.now, Some(Add(s.slot, s.now, -1)), s.procs[p := Idle]), extra);
  }

  lemma TouchAccounted(s: State, p: Pid, max: nat, extra: nat)
    requires Accounted(s, extra) && PhaseOf(s, p).Holding?
    requires forall q :: q in Counted(s) ==> s.procs[q].since <= s.now
    ensures var t := After(s, Touch(p), max);
            Accounted(t, extra) && Holders(t) == Holders(s)
  {
    var t := After(s, Touch(p), max);
    assert p in Counted(s);
    assert t.procs == s.procs[p := Holding(s.now)];
    assert Holders(t) == Holders(s) && Undoing(t) == Undoing(s);
    assert t.slot == Some(Counter(|Counted(s)| + extra, Some(s.now + SLOT_TTL_MS)));
  }

  lemma TouchKeepsInv(s: State, p: Pid, max: nat, extra: nat)
    requires Inv(s, max, extra) && Enabled(s, Touch(p))
    ensures Inv(After(s, Touch(p), max), max, extra)
  {
    TouchAccounted(s, p, max, extra);
  }

  lemma TickKeepsInv(s: State, ms: nat, max: nat, extra: nat)
    requires Inv(s, max, extra) && Timely(After(s, Tick(ms), max))
    ensures var t := After(s, Tick(ms), max); Inv(t, max, extra) || Inv(t, max, 0)
  {
    var t := After(s, Tick(ms), max);
    assert Counted(t) == Counted(s) && Holders(t) == Holders(s);
    if p :| p in Counted(s) {
      assert s.procs[p].since + SLOT_TTL_MS > t.now;
    }
  }

  /** What is counted too much stays counted, unless the key lapses while nobody holds it. */
  lemma StepKeepsInv(s: State, step: Step, max: nat, extra: nat)
    requires Inv(s, max, extra) && Enabled(s, step) && Timely(After(s, step, max))
    ensures var t := After(s, step, max); Inv(t, max, extra) || Inv(t, max, 0)
  {
    match step
    case Reserve(p) => ReserveKeepsInv(s, p, max, extra);
    case Undo(p) => UndoKeepsInv(s, p, max, extra);
    case Touch(p) => TouchKeepsInv(s, p, max, extra);
    case Release(p) => ReleaseKeepsInv(s, p, max, extra);
    case Clamp(p) => assert false;
    case Tick(ms) => TickKeepsInv(s, ms, max, extra);
  }

  lemma {:induction false} RunKeepsInv(trace: seq<State>, max: nat, i: nat)
    requires IsRun(trace, max) && i < |trace|
    ensures Inv(trace[i], max, 0)
  {
    if i == 0 {
      assert Counted(trace[0]) == {} && Holders(trace[0]) == {};
    } else {
      RunKeepsInv(trace, max, i - 1);
      assert Next(trace[i - 1], trace[i], max);
      var step :| Enabled(trace[i - 1], step) && trace[i] == After(trace[i - 1], step, max) && Timely(trace[i]);
      StepKeepsInv(trace[i - 1], step, max, 0);
    }
  }

  /** At every instant of every run: the counter is the holders plus the refusals not yet
      undone, the limit holds, nobody has to clamp, and the key is there while anyone holds it. */
  lemma SemaphoreSafety(trace: seq<State>, max: nat, i: nat)
    requires IsRun(trace, max) && i < |trace|
    ensures var s := trace[i];
            && Count(s.slot, s.now) == |Holders(s)| + |Undoing(s)|
            && |Holders(s)| <= max
            && (forall p :: p in s.procs ==> !s.procs[p].Clamping?)
            && (Holders(s) != {} ==> Live(s.slot, s.now).Some?)
  {
    RunKeepsInv(trace, max, i);
    Disjoint(trace[i]);
    if Holders(trace[i]) != {} {
      var p :| p in Holders(trace[i]);
      assert p in Counted(trace[i]);
    }
  }

  // ----- another worker's boot -----

  /** The key as a reconciliation leaves it. */
  function Rewritten(s: State, running: nat): State {
    s.(slot := Reconciled(s.slot, s.now, running))
  }

  ghost predicate IsPath(path: seq<State>, max: nat) {
    && path != []
    && forall i :: 0 < i < |path| ==> Next(path[i - 1], path[i], max)
  }

  ghost predicate PathBeyond(path: seq<State>, s: State, max: nat) {
    IsPath(path, max) && path[0] == s && |Holders(path[|path| - 1])| > max
  }

  /** From here some run in which the heartbeat beats gives out more slots than there are. */
  ghost predicate CanExceed(s: State, max: nat) {
    exists path :: PathBeyond(path, s, max)
  }

  lemma {:induction false} PathKeepsLimit(path: seq<State>, max: nat, extra: nat, i: nat)
    requires IsPath(path, max) && Inv(path[0], max, extra) && i < |path|
    ensures Inv(path[i], max, extra) || Inv(path[i], max, 0)
  {
    if i == 0 {
    } else {
      PathKeepsLimit(path, max, extra, i - 1);
      var s, t := path[i - 1], path[i];
      assert Next(s, t, max);
      var step :| Enabled(s, step) && t == After(s, step, max) && Timely(t);
      StepKeepsInv(s, step, max, if Inv(s, max, extra) then extra else 0);
    }
  }

  lemma StepThenExceed(s: State, step: Step, max: nat)
    requires Enabled(s, step) && Timely(After(s, step, max)) && CanExceed(After(s, step, max), max)
    ensures CanExceed(s, max)
  {
    var t := After(s, step, max);
    var path :| PathBeyond(path, t, max);
    var longer := [s] + path;
    assert Next(s, t, max);
    forall i | 0 < i < |longer| ensures Next(longer[i - 1], longer[i], max) {
      if i > 1 { assert Next(path[i - 2], path[i - 1], max); }
    }
    assert PathBeyond(longer, s, max);
  }

  lemma {:induction false} FreshPid(used: set<Pid>) returns (p: Pid)
    ensures forall q :: q in used ==> q < p
  {
    if used == {} {
      p := 0;
    } else {
      var q :| q in used;
      p := FreshPid(used - {q});
      assert used == used - {q} + {q};
      p := if p <= q then q + 1 else p;
    }
  }

  lemma UndoneIsFewer(s: State, p: Pid, max: nat)
    requires Timely(s) && PhaseOf(s, p).Rejected?
    ensures var t := After(s, Undo(p), max);
      && Timely(t) && |Undoing(t)| == |Undoing(s)| - 1 && Holders(t) == Holders(s)
      && Count(t.slot, t.now) == Count(s.slot, s.now) - 1
  {
    assert Undoing(After(s, Undo(p), max)) == Undoing(s) - {p};
  }

  lemma AdmittedIsMore(s: State, p: Pid, max: nat)
    requires Timely(s) && PhaseOf(s, p).Idle? && Count(s.slot, s.now) < max
    ensures var t := After(s, Reserve(p), max);
      && Timely(t) && Undoing(t) == Undoing(s) && Holders(t) == Holders(s) + {p} && p !in Holders(s)
      && Count(t.slot, t.now) == Count(s.slot, s.now) + 1
  {
  }

  /** A counter that says less than is held lets them in until there are too many: the refusals
      under way are undone, and the next processes find it low enough. */
  lemma {:induction false} UndercountExceeds(s: State, max: nat)
    requires Timely(s) && Count(s.slot, s.now) < |Holders(s)| + |Undoing(s)|
    ensures CanExceed(s, max)
    decreases |Undoing(s)|, max + 1 - |Holders(s)|
  {
    if |Holders(s)| > max {
      assert PathBeyond([s], s, max);
    } else if Undoing(s) != {} {
      var p :| p in Undoing(s);
      UndoneIsFewer(s, p, max);
      UndercountExceeds(After(s, Undo(p), max), max);
      StepThenExceed(s, Undo(p), max);
    } else {
      var p := FreshPid(s.procs.Keys);
      AdmittedIsMore(s, p, max);
      UndercountExceeds(After(s, Reserve(p), max), max);
      StepThenExceed(s, Reserve(p), max);
    }
  }

  /** A worker that boots while others hold slots endangers the limit if and only if what it
      counts in the database is less than what those hold, refusals under way included; a
      reservation whose row does not say PROCESSING yet is one it does not see. Counting too
      many defers jobs, and no more. */
  lemma ReconcileBreaksLimitIff(s: State, max: nat, running: nat)
    requires Inv(s, max, 0)
    ensures CanExceed(Rewritten(s, running), max) <==> running < |Holders(s)| + |Undoing(s)|
  {
    var t := Rewritten(s, running);
    Disjoint(s);
    assert Counted(t) == Counted(s) && Holders(t) == Holders(s) && Undoing(t) == Undoing(s);
    if running < |Holders(s)| + |Undoing(s)| {
      UndercountExceeds(t, max);
    } else {
      var extra := running - |Counted(s)|;
      OvercountKeepsInv(s, max, running);
      forall path | IsPath(path, max) && path[0] == t ensures !PathBeyond(path, t, max) {
        PathKeepsLimit(path, max, extra, |path| - 1);
      }
    }
  }

  lemma OvercountKeepsInv(s: State, max: nat, running: nat)
    requires Inv(s, max, 0) && running >= |Counted(s)|
    ensures Inv(Rewritten(s, running), max, running - |Counted(s)|)
  {
    var t := Rewritten(s, running);
    assert Counted(t) == Counted(s) && Holders(t) == Holders(s);
    if p :| p in Counted(s) {
      assert |Counted(s)| > 0 && s.procs[p].since <= s.now;
    }
  }

  /** Why the heartbeat is there: with every slot held, the next process is let in beside the
      holders if and only if they have been silent until the key lapsed, and a holder that
      beats has not been. */
  lemma LetInBesideIff(s: State, max: nat, ms: nat, p: Pid)
    requires Inv(s, max, 0) && |Holders(s)| == max > 0 && PhaseOf(s, p).Idle?
    ensures var t := After(s, Tick(ms), max);
      && (|Holders(After(t, Reserve(p), max))| > max <==> Expiry(s.slot) <= t.now)
      && (Expiry(s.slot) <= t.now ==> !Timely(t))
  {
    var t := After(s, Tick(ms), max);
    var u := After(t, Reserve(p), max);
    Disjoint(s);
    assert Holders(t) == Holders(s);
    Enter(t, p, u.procs[p], u);
    var h :| h in Holders(s);
    assert h in Counted(s) && t.procs[h] == s.procs[h];
  }
}
