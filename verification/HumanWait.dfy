/** Waiting for a person: a loop over a database read and a blocking pop, while requests in
    other processes write the row, push signals or fail to, and cancel. */
module HumanWait {
  import opened Options
  import opened JobProtocol

  const PAUSE_MS: nat := 1_000

  datatype Row = Row(status: Status, confirmedAt: Option<int>)

  /** What other processes do while one of the worker's commands is under way. A confirmation is
      stamped by the clock of the process that writes it. */
  datatype Other =
    | ConfirmWrite(at: int)    // the operator's request: the column first
    | Push                     // then the list
    | PushFails
    | SetStatus(status: Status)
    | DeleteRow
    | SignalsExpire
    | Abort                    // of this wait: shutdown, or the job's own timeout

  /** How one command goes: its latency, of which so much comes after it has taken effect;
      how long a blocking pop sat before it was woken; what others did before it took effect
      and after; and whether it fails, perhaps after Redis had popped. */
  datatype Turn = Turn(latencyMs: nat, afterMs: nat, satMs: nat, before: seq<Other>, after: seq<Other>, fails: bool,
                       reply: Reply)
  datatype Reply = Lost | NotLost

  /** `pushing` counts requests between their write and their push. */
  datatype World = World(row: Option<Row>, signals: nat, pushing: nat, aborted: bool, confirmations: nat)

  /** A wait between two commands: the clock, the world, the world as the last read of the row
      found it and when that was, and how many commands were sent. */
  datatype Wait = Wait(now: int, world: World, seen: World, seenAt: int, turn: nat)

  datatype Human = Confirmed | Cancelled | Expired
  datatype Pop = Signal | Nothing | RedisError

  function Happen(w: World, o: Other): World {
    match o
    case ConfirmWrite(at) =>
      if w.row.Some? && w.row.value.status.AwaitingHuman? && w.row.value.confirmedAt.None? then
        w.(row := Some(w.row.value.(confirmedAt := Some(at))), pushing := w.pushing + 1,
            confirmations := w.confirmations + 1)
      else w
    case Push => if w.pushing > 0 then w.(pushing := w.pushing - 1, signals := w.signals + 1) else w
    case PushFails => if w.pushing > 0 then w.(pushing := w.pushing - 1) else w
    case SetStatus(status) => if w.row.Some? then w.(row := Some(w.row.value.(status := status))) else w
    case DeleteRow => w.(row := None)
    case SignalsExpire => w.(signals := 0)
    case Abort => w.(aborted := true)
  }

  function AllHappen(w: World, others: seq<Other>): World
    decreases |others|
  {
    if others == [] then w else AllHappen(Happen(w, others[0]), others[1..])
  }

  predicate HasColumn(w: World) {
    w.row.Some? && w.row.value.confirmedAt.Some?
  }

  /** Nothing says "confirmed" unless a person has; a person's confirmation stays on the row. */
  ghost predicate Faithful(w: World) {
    && (HasColumn(w) || w.signals > 0 || w.pushing > 0 ==> w.confirmations > 0)
    && (w.confirmations > 0 ==> w.row.None? || HasColumn(w))
  }

  ghost predicate Later(w: World, v: World) {
    && w.confirmations <= v.confirmations
    && (w.aborted ==> v.aborted) && (w.row.None? ==> v.row.None?)
    && (HasColumn(w) ==> v.row.None? || v.row.value.confirmedAt == w.row.value.confirmedAt)
    && (Faithful(w) ==> Faithful(v))
  }

  lemma {:induction false} OthersAreFaithful(w: World, others: seq<Other>)
    ensures Later(w, AllHappen(w, others))
    decreases |others|
  {
    if others == [] {
    } else {
      OthersAreFaithful(Happen(w, others[0]), others[1..]);
      assert Later(w, Happen(w, others[0]));
    }
  }

  /** The block never shrinks as the deadline nears: the expression is the configured time. */
  function BlockMs(configuredMs: nat, remainingMs: int): (blockMs: nat)
    ensures blockMs == configuredMs
  {
    var longer := if configuredMs > remainingMs then configuredMs else remainingMs;
    if configuredMs < longer then configuredMs else longer
  }

  /** A read of the row: it sees the world at one instant, and others go on before and after. */
  function ReadJob(w: Wait, t: Turn): (read: Wait)
    ensures w.now <= read.seenAt <= read.now == w.now + t.latencyMs && read.turn == w.turn + 1
    ensures Later(w.world, read.seen) && Later(read.seen, read.world)
  {
    var now := w.now + t.latencyMs;
    var seenAt := now - if t.afterMs < t.latencyMs then t.afterMs else t.latencyMs;
    var seen := AllHappen(w.world, t.before);
    OthersAreFaithful(w.world, t.before);
    OthersAreFaithful(seen, t.after);
    Wait(now, AllHappen(seen, t.after), seen, seenAt, w.turn + 1)
  }

  function Popped(w: World): World {
    if w.signals > 0 then w.(signals := w.signals - 1) else w
  }

  /** A blocking pop, which takes effect when it is woken. An abort disconnects the client, so
      it fails at once; a pop that fails may have taken the signal all the same. */
  function BlockingPop(w: Wait, t: Turn, blockMs: nat): (popped: (Pop, Wait))
    ensures popped.1.turn == w.turn + 1 && popped.1.seen == w.seen && popped.1.seenAt == w.seenAt
    ensures w.now <= popped.1.now <= w.now + blockMs + t.latencyMs
    ensures popped.0.Nothing? ==> popped.1.now >= w.now + blockMs
    ensures Later(w.world, popped.1.world)
    ensures popped.0.Signal? && Faithful(w.world) ==> popped.1.world.confirmations > 0
  {
    var came := AllHappen(w.world, t.before);
    var woken := if t.satMs < blockMs then t.satMs else blockMs;
    var answer := if t.fails || came.aborted then RedisError else if came.signals > 0 then Signal else Nothing;
    var left := if answer == RedisError && t.reply == NotLost then came else Popped(came);
    OthersAreFaithful(w.world, t.before);
    OthersAreFaithful(left, t.after);
    (answer,
     w.(now := w.now + (if answer == Nothing then blockMs else woken) + t.latencyMs,
     world := AllHappen(left, t.after), turn := w.turn + 1))
  }

  function Pause(w: Wait, t: Turn): (paused: Wait)
    ensures paused.now == w.now + PAUSE_MS + t.latencyMs && paused.turn == w.turn + 1
    ensures paused.seen == w.seen && paused.seenAt == w.seenAt && Later(w.world, paused.world)
  {
    OthersAreFaithful(w.world, t.before + t.after);
    w.(now := w.now + PAUSE_MS + t.latencyMs, world := AllHappen(w.world, t.before + t.after), turn := w.turn + 1)
  }

  /** What ended a wait: a look at the abort signal, a read of the row or a pop. */
  datatype Cause = ByAbort | ByRead | ByPop
  datatype End = End(outcome: Result<Human, ()>, cause: Cause, at: Wait)

  /** What a row says, if it says anything. */
  function Answer(row: Option<Row>): (said: Option<Human>)
    ensures said != Some(Expired)
  {
    if row.None? then Some(Human.Cancelled)
    else if row.value.confirmedAt.Some? then Some(Confirmed)
    else if row.value.status.Cancelled? then Some(Human.Cancelled)
    else None
  }

  /** The wait as a recursion over its commands: it ends at the first look that decides. */
  function Waited(w: Wait, schedule: nat -> Turn, deadline: int, blockMs: nat): End
    requires blockMs > 0
    decreases deadline - w.now
  {
    if w.world.aborted then End(Ok(Human.Cancelled), ByAbort, w) else
    var read := ReadJob(w, schedule(w.turn));
    if schedule(w.turn).fails then End(Err(()), ByRead, read) else
    if Answer(read.seen.row).Some? then End(Ok(Answer(read.seen.row).value), ByRead, read) else
    if read.now >= deadline then End(Ok(Expired), ByRead, read) else
    var (answer, popped) := BlockingPop(read, schedule(read.turn), blockMs);
    match answer
    case Signal => End(Ok(Confirmed), ByPop, popped)
    case Nothing => Waited(popped, schedule, deadline, blockMs)
    case RedisError =>
      if popped.world.aborted then End(Ok(Human.Cancelled), ByAbort, popped)
      else Waited(Pause(popped, schedule(popped.turn)), schedule, deadline, blockMs)
  }

  /** Which outcome goes with which ending. */
  ghost predicate Exact(e: End, schedule: nat -> Turn, deadline: int) {
    match e.cause
    case ByAbort => e.outcome == Ok(Human.Cancelled) && e.at.world.aborted
    case ByPop => e.outcome == Ok(Confirmed)
    case ByRead =>
      && e.at.turn > 0
      && var t := schedule(e.at.turn - 1);
      && e.at.world == AllHappen(e.at.seen, t.after)
      && (e.outcome.Err? <==> t.fails)
      && (e.outcome == Ok(Confirmed) <==> !t.fails && HasColumn(e.at.seen))
      && (e.outcome == Ok(Human.Cancelled) <==>
          && !t.fails && !HasColumn(e.at.seen)
          && (e.at.seen.row.Some? ==> e.at.seen.row.value.status.Cancelled?))
      && (e.outcome == Ok(Expired) ==> e.at.now >= deadline)
  }

  /** What may be relied on. Confirmed: a person had. Cancelled and expired: so the last look
      had it, and nobody had confirmed when it was taken. */
  ghost predicate Justified(e: End) {
    e.outcome.Ok? ==>
      match e.outcome.value
      case Confirmed => e.at.world.confirmations > 0
      case Cancelled =>
        e.at.world.aborted || e.at.seen.row.None? ||
        (e.at.seen.row.value.status.Cancelled? && e.at.seen.confirmations == 0)
      case Expired => e.at.seen.row.Some? && e.at.seen.confirmations == 0
  }

  lemma {:induction false} EndsExactly(w: Wait, schedule: nat -> Turn, deadline: int, blockMs: nat)
    requires blockMs > 0
    ensures Exact(Waited(w, schedule, deadline, blockMs), schedule, deadline)
    decreases deadline - w.now
  {
    var read := ReadJob(w, schedule(w.turn));
    if w.world.aborted || schedule(w.turn).fails || Answer(read.seen.row).Some? || read.now >= deadline {
    } else {
      var (answer, popped) := BlockingPop(read, schedule(read.turn), blockMs);
      if answer == Nothing {
        EndsExactly(popped, schedule, deadline, blockMs);
      } else if answer == RedisError && !popped.world.aborted {
        EndsExactly(Pause(popped, schedule(popped.turn)), schedule, deadline, blockMs);
      }
    }
  }

  lemma {:induction false} EndsJustly(w: Wait, schedule: nat -> Turn, deadline: int, blockMs: nat)
    requires blockMs > 0
    ensures var e := Waited(w, schedule, deadline, blockMs);
      && Later(w.world, e.at.world) && (e.at == w || Later(e.at.seen, e.at.world))
      && (Faithful(w.world) ==> Faithful(e.at.world) && Justified(e))
    decreases deadline - w.now
  {
    var read := ReadJob(w, schedule(w.turn));
    if w.world.aborted || schedule(w.turn).fails || Answer(read.seen.row).Some? || read.now >= deadline {
    } else {
      var (answer, popped) := BlockingPop(read, schedule(read.turn), blockMs);
      assert Later(w.world, popped.world) && Later(read.seen, popped.world);
      if answer == Nothing {
        EndsJustly(popped, schedule, deadline, blockMs);
      } else if answer == RedisError && !popped.world.aborted {
        var paused := Pause(popped, schedule(popped.turn));
        assert Later(w.world, paused.world) && Later(read.seen, paused.world);
        EndsJustly(paused, schedule, deadline, blockMs);
      }
    }
  }

  /** No command takes more than this beyond the time it was asked to wait. */
  ghost predicate Responsive(schedule: nat -> Turn, ioMs: nat) {
    forall n :: schedule(n).latencyMs <= ioMs
  }

  /** When a wait is over: at most a block, a pause and the commands' own latency after its
      deadline. It has not expired before it, on a read no older than one command. */
  lemma {:induction false} EndsInTime(w: Wait, schedule: nat -> Turn, deadline: int, blockMs: nat, ioMs: nat)
    requires blockMs > 0 && Responsive(schedule, ioMs) && w.now <= deadline + blockMs + PAUSE_MS + 2 * ioMs
    ensures var e := Waited(w, schedule, deadline, blockMs);
      && e.at.now <= deadline + blockMs + PAUSE_MS + 3 * ioMs
      && (e.outcome == Ok(Expired) ==> deadline - ioMs <= e.at.seenAt)
    decreases deadline - w.now
  {
    var read := ReadJob(w, schedule(w.turn));
    if w.world.aborted || schedule(w.turn).fails || Answer(read.seen.row).Some? || read.now >= deadline {
    } else {
      var (answer, popped) := BlockingPop(read, schedule(read.turn), blockMs);
      if answer == Nothing {
        EndsInTime(popped, schedule, deadline, blockMs, ioMs);
      } else if answer == RedisError && !popped.world.aborted {
        EndsInTime(Pause(popped, schedule(popped.turn)), schedule, deadline, blockMs, ioMs);
      }
    }
  }

  /** A confirmation goes through among these, for a row with this status and no confirmation. */
  predicate Lands(status: Status, others: seq<Other>)
    decreases |others|
  {
    others != [] &&
    match others[0]
    case ConfirmWrite(_) => status.AwaitingHuman? || Lands(status, others[1..])
    case SetStatus(next) => Lands(next, others[1..])
    case DeleteRow => false
    case _ => Lands(status, others[1..])
  }

  lemma {:induction false} DeletedStaysDeleted(w: World, others: seq<Other>)
    requires w.row.None?
    ensures AllHappen(w, others).confirmations == w.confirmations
    decreases |others|
  {
    if others == [] {
    } else {
      DeletedStaysDeleted(Happen(w, others[0]), others[1..]);
    }
  }

  lemma {:induction false} ConfirmedIfLands(w: World, others: seq<Other>)
    requires w.row.Some? && !HasColumn(w) && w.confirmations == 0
    ensures AllHappen(w, others).confirmations > 0 <==> Lands(w.row.value.status, others)
    decreases |others|
  {
    if others == [] {
    } else if others[0].DeleteRow? {
      DeletedStaysDeleted(Happen(w, others[0]), others[1..]);
    } else if others[0].ConfirmWrite? && w.row.value.status.AwaitingHuman? {
      OthersAreFaithful(Happen(w, others[0]), others[1..]);
    } else {
      ConfirmedIfLands(Happen(w, others[0]), others[1..]);
    }
  }

  /** An expiry is true, nobody having confirmed by then, if and only if no confirmation lands
      while the answer of the last read is on its way. */
  lemma ExpiryIsTrueIff(w: Wait, schedule: nat -> Turn, deadline: int, blockMs: nat)
    requires blockMs > 0 && Faithful(w.world)
    requires Waited(w, schedule, deadline, blockMs).outcome == Ok(Expired)
    ensures var e := Waited(w, schedule, deadline, blockMs);
      && e.at.turn > 0 && e.at.seen.row.Some?
      && (e.at.world.confirmations == 0 <==>
          !Lands(e.at.seen.row.value.status, schedule(e.at.turn - 1).after))
  {
    EndsExactly(w, schedule, deadline, blockMs);
    EndsJustly(w, schedule, deadline, blockMs);
    var e := Waited(w, schedule, deadline, blockMs);
    ConfirmedIfLands(e.at.seen, schedule(e.at.turn - 1).after);
  }

  /** And both come about, whatever the timeout: nobody confirms, or somebody does while the one
      read, which takes that long, brings back what it saw at the start. */
  lemma LateConfirmationExpires(now: int, timeoutMs: nat, blockMs: nat, late: bool)
    returns (w: Wait, schedule: nat -> Turn)
    requires blockMs > 0
    ensures w.now == now && Faithful(w.world)
    ensures var e := Waited(w, schedule, now + timeoutMs, blockMs);
      && e.outcome == Ok(Expired) && e.at.seenAt == now && e.at.now == now + timeoutMs
      && (e.at.world.confirmations > 0 <==> late)
  {
    var world := World(Some(Row(Status.AwaitingHuman, None)), 0, 0, false, 0);
    w := Wait(now, world, world, now, 0);
    var after := if late then [ConfirmWrite(now)] else [];
    var t := Turn(timeoutMs, timeoutMs, 0, [], after, false, NotLost);
    schedule := n => t;
    assert AllHappen(world, []) == world;
    ConfirmedIfLands(world, after);
    assert Waited(w, schedule, now + timeoutMs, blockMs) == End(Ok(Expired), ByRead, ReadJob(w, t));
  }

  /** On a row that an earlier run left confirmed nobody is waited for: the first read answers,
      unless it fails or the row has gone. */
  lemma LeftoverColumnAnswers(w: Wait, schedule: nat -> Turn, deadline: int, blockMs: nat)
    requires blockMs > 0 && HasColumn(w.world) && !w.world.aborted
    ensures var e := Waited(w, schedule, deadline, blockMs);
      && e.cause == ByRead && e.at.turn == w.turn + 1
      && (e.outcome.Err? <==> schedule(w.turn).fails)
      && (e.outcome.Ok? ==> e.outcome.value == if e.at.seen.row.None? then Human.Cancelled else Confirmed)
  {
    assert Later(w.world, ReadJob(w, schedule(w.turn)).seen);
  }

  // ----- the wait as a protocol: what may be sent after what, and what ends it -----

  datatype Command = SendRead | SendPop | SendPause

  function AfterCommand(c: Command, w: Wait, t: Turn, blockMs: nat): Wait {
    match c
    case SendRead => ReadJob(w, t)
    case SendPop => BlockingPop(w, t, blockMs).1
    case SendPause => Pause(w, t)
  }

  /** A command, how it went, and where the wait stood when it was sent. */
  datatype Sent = Sent(command: Command, at: Wait, turn: Turn)

  /** A row that is there and says neither confirmed nor cancelled. */
  predicate IsOpen(row: Option<Row>) {
    row.Some? && row.value.confirmedAt.None? && !row.value.status.Cancelled?
  }

  predicate PopSaid(s: Sent, blockMs: nat, answer: Pop) {
    s.command.SendPop? && BlockingPop(s.at, s.turn, blockMs).0 == answer
  }

  /** Why a command may be sent. A wait begins with a read, and nothing is read after an abort; a
      pop follows a read that leaves things open before the deadline; a pause a pop that failed
      without an abort; a read a pause, or a pop that came back empty. */
  ghost predicate MaySend(c: Command, w: Wait, before: Option<Sent>, deadline: int, blockMs: nat) {
    match c
    case SendRead =>
      && !w.world.aborted
      && (before.Some? ==> before.value.command.SendPause? || PopSaid(before.value, blockMs, Nothing))
    case SendPop =>
      && before.Some? && before.value.command.SendRead? && !before.value.turn.fails
      && IsOpen(w.seen.row) && w.now < deadline
    case SendPause =>
      before.Some? && PopSaid(before.value, blockMs, RedisError) && !w.world.aborted
  }

  /** Why a wait ends after a command, or before any, and with what. */
  ghost predicate EndsWith(w: Wait, before: Option<Sent>, deadline: int, blockMs: nat, r: Result<Human, ()>) {
    if before.Some? && before.value.command.SendRead? then
      if before.value.turn.fails then r == Err(())
      else if w.seen.row.None? then r == Ok(Human.Cancelled)
      else if w.seen.row.value.confirmedAt.Some? then r == Ok(Confirmed)
      else if w.seen.row.value.status.Cancelled? then r == Ok(Human.Cancelled)
      else w.now >= deadline && r == Ok(Expired)
    else if before.Some? && PopSaid(before.value, blockMs, Signal) then r == Ok(Confirmed)
    else w.world.aborted && r == Ok(Human.Cancelled)
  }

  function Last(sent: seq<Sent>): Option<Sent> {
    if sent == [] then None else Some(sent[|sent| - 1])
  }

  /** Commands that lead from one state of a wait to another, each sent for a reason. */
  ghost predicate Leads(start: Wait, sent: seq<Sent>, w: Wait, schedule: nat -> Turn, deadline: int, blockMs: nat)
    decreases |sent|
  {
    if sent == [] then w == start else
    var s, rest := sent[|sent| - 1], sent[..|sent| - 1];
    && Leads(start, rest, s.at, schedule, deadline, blockMs)
    && s.turn == schedule(s.at.turn) && w == AfterCommand(s.command, s.at, s.turn, blockMs)
    && MaySend(s.command, s.at, Last(rest), deadline, blockMs)
  }

  /** A whole wait. */
  ghost predicate IsWait(start: Wait, sent: seq<Sent>, w: Wait, schedule: nat -> Turn, deadline: int, blockMs: nat,
                         r: Result<Human, ()>) {
    Leads(start, sent, w, schedule, deadline, blockMs) && EndsWith(w, Last(sent), deadline, blockMs, r)
  }

  ghost predicate ComesAbout(start: Wait, w: Wait, schedule: nat -> Turn, deadline: int, blockMs: nat,
                             r: Result<Human, ()>) {
    exists sent :: IsWait(start, sent, w, schedule, deadline, blockMs, r)
  }

  lemma Send(start: Wait, sent: seq<Sent>, c: Command, w: Wait, schedule: nat -> Turn, deadline: int, blockMs: nat)
      returns (sent1: seq<Sent>, w1: Wait)
    requires Leads(start, sent, w, schedule, deadline, blockMs) && MaySend(c, w, Last(sent), deadline, blockMs)
    ensures w1 == AfterCommand(c, w, schedule(w.turn), blockMs) && |sent1| == |sent| + 1
    ensures Last(sent1) == Some(Sent(c, w, schedule(w.turn))) && Leads(start, sent1, w1, schedule, deadline, blockMs)
  {
    sent1, w1 := sent + [Sent(c, w, schedule(w.turn))], AfterCommand(c, w, schedule(w.turn), blockMs);
    assert sent1[..|sent1| - 1] == sent;
  }

  /** The recursion is such a wait. */
  lemma {:induction false} WaitedIsWait(start: Wait, sent: seq<Sent>, w: Wait, schedule: nat -> Turn, deadline: int,
                                        blockMs: nat) returns (all: seq<Sent>)
    requires blockMs > 0 && Leads(start, sent, w, schedule, deadline, blockMs)
    requires sent == [] || Last(sent).value.command.SendPause? || PopSaid(Last(sent).value, blockMs, Nothing)
    ensures var e := Waited(w, schedule, deadline, blockMs);
            IsWait(start, all, e.at, schedule, deadline, blockMs, e.outcome)
    decreases deadline - w.now
  {
    if w.world.aborted {
      return sent;
    }
    var w1;
    all, w1 := Send(start, sent, SendRead, w, schedule, deadline, blockMs);
    if schedule(w.turn).fails || Answer(w1.seen.row).Some? || w1.now >= deadline {
      return;
    }
    var (answer, popped) := BlockingPop(w1, schedule(w1.turn), blockMs);
    all, w1 := Send(start, all, SendPop, w1, schedule, deadline, blockMs);
    if answer == Nothing {
      all := WaitedIsWait(start, all, w1, schedule, deadline, blockMs);
    } else if answer == RedisError && !w1.world.aborted {
      all, w1 := Send(start, all, SendPause, w1, schedule, deadline, blockMs);
      all := WaitedIsWait(start, all, w1, schedule, deadline, blockMs);
    }
  }

  lemma {:induction false} Reason(start: Wait, sent: seq<Sent>, w: Wait, schedule: nat -> Turn, deadline: int,
                                  blockMs: nat, i: nat)
    requires Leads(start, sent, w, schedule, deadline, blockMs) && i < |sent|
    ensures MaySend(sent[i].command, sent[i].at, if i == 0 then None else Some(sent[i - 1]), deadline, blockMs)
    ensures (if i + 1 < |sent| then sent[i + 1].at else w) ==
            AfterCommand(sent[i].command, sent[i].at, sent[i].turn, blockMs)
    ensures i == 0 ==> sent[i].at == start
    decreases |sent|
  {
    var s, rest := sent[|sent| - 1], sent[..|sent| - 1];
    if i == |rest| {
      if i > 0 { Reason(start, rest, s.at, schedule, deadline, blockMs, i - 1); }
    } else {
      Reason(start, rest, s.at, schedule, deadline, blockMs, i);
    }
  }

  /** An aborted wait sends nothing more but a pop, if it had just read, and that fails; it ends
      as cancelled. */
  lemma AbortEndsIt(start: Wait, sent: seq<Sent>, w: Wait, schedule: nat -> Turn, deadline: int, blockMs: nat,
                    r: Result<Human, ()>, i: nat)
    requires IsWait(start, sent, w, schedule, deadline, blockMs, r) && i < |sent| && sent[i].at.world.aborted
    ensures i == |sent| - 1 && i > 0 && PopSaid(sent[i], blockMs, RedisError) && r == Ok(Human.Cancelled)
  {
    Reason(start, sent, w, schedule, deadline, blockMs, i);
    assert sent[i].command.SendPop?;
    var came := AllHappen(sent[i].at.world, sent[i].turn.before);
    OthersAreFaithful(sent[i].at.world, sent[i].turn.before);
    assert came.aborted && PopSaid(sent[i], blockMs, RedisError);
    if i + 1 < |sent| {
      Reason(start, sent, w, schedule, deadline, blockMs, i + 1);
      assert false;
    }
  }

  /** A signal ends it there, as confirmed. */
  lemma SignalEndsIt(start: Wait, sent: seq<Sent>, w: Wait, schedule: nat -> Turn, deadline: int, blockMs: nat,
                     r: Result<Human, ()>, i: nat)
    requires IsWait(start, sent, w, schedule, deadline, blockMs, r) && i < |sent|
    requires PopSaid(sent[i], blockMs, Signal)
    ensures i == |sent| - 1 && r == Ok(Confirmed)
  {
    if i + 1 < |sent| {
      Reason(start, sent, w, schedule, deadline, blockMs, i + 1);
      assert false;
    }
  }

  /** A pop that finds a signal takes it, unless it fails or the wait is aborted. */
  lemma SignalIsTaken(start: Wait, sent: seq<Sent>, w: Wait, schedule: nat -> Turn, deadline: int, blockMs: nat,
                      r: Result<Human, ()>, i: nat)
    requires IsWait(start, sent, w, schedule, deadline, blockMs, r) && i < |sent| && sent[i].command.SendPop?
    requires var came := AllHappen(sent[i].at.world, sent[i].turn.before);
             came.signals > 0 && !came.aborted && !sent[i].turn.fails
    ensures i == |sent| - 1 && r == Ok(Confirmed)
  {
    SignalEndsIt(start, sent, w, schedule, deadline, blockMs, r, i);
  }

  /** A read sent when the column is set is the last command, whatever became of the push: the
      outcome is "confirmed", unless the read fails or the row is deleted under it. */
  lemma ColumnEndsIt(start: Wait, sent: seq<Sent>, w: Wait, schedule: nat -> Turn, deadline: int, blockMs: nat,
                     r: Result<Human, ()>, i: nat)
    requires IsWait(start, sent, w, schedule, deadline, blockMs, r)
    requires i < |sent| && sent[i].command.SendRead? && HasColumn(sent[i].at.world)
    ensures i == |sent| - 1 && (r.Err? <==> sent[i].turn.fails)
    ensures r.Ok? ==> r.value == if w.seen.row.None? then Human.Cancelled else Confirmed
  {
    Reason(start, sent, w, schedule, deadline, blockMs, i);
    assert Later(sent[i].at.world, ReadJob(sent[i].at, sent[i].turn).seen);
    if i + 1 < |sent| {
      Reason(start, sent, w, schedule, deadline, blockMs, i + 1);
      assert false;
    }
  }

  /** A row that waits for a person, and nobody has confirmed. */
  predicate IsWaiting(w: World) {
    w.row.Some? && w.row.value.status.AwaitingHuman? && w.row.value.confirmedAt.None? && w.signals == 0
    && w.pushing == 0 && !w.aborted
  }

  /** A confirmation while a pop blocks wakes it by its push, at once. If the push is lost the pop
      comes back empty after its block, and the read that follows it finds the column. */
  lemma ConfirmationGetsThrough(w: Wait, t: Turn, t1: Turn, blockMs: nat, at: int)
    requires IsWaiting(w.world) && !t.fails && t.after == [] && t1.before == []
    ensures t.before == [ConfirmWrite(at), Push] ==>
              var (answer, popped) := BlockingPop(w, t, blockMs);
              && answer == Signal && popped.world.signals == 0
              && popped.world.confirmations == w.world.confirmations + 1
              && popped.now == w.now + t.latencyMs + if t.satMs < blockMs then t.satMs else blockMs
    ensures t.before == [ConfirmWrite(at), PushFails] ==>
              var (answer, popped) := BlockingPop(w, t, blockMs);
              && answer == Nothing && popped.now == w.now + blockMs + t.latencyMs
              && ReadJob(popped, t1).seen.row == Some(w.world.row.value.(confirmedAt := Some(at)))
  {
    var confirmed := Happen(w.world, ConfirmWrite(at));
    assert AllHappen(Happen(confirmed, Push), []) == Happen(confirmed, Push);
    assert AllHappen(Happen(confirmed, PushFails), []) == Happen(confirmed, PushFails);
    assert [Push][1..] == [] && [PushFails][1..] == [];
    assert AllHappen(confirmed, [Push]) == Happen(confirmed, Push);
    assert AllHappen(confirmed, [PushFails]) == Happen(confirmed, PushFails);
    if t.before == [ConfirmWrite(at), Push] {
      assert t.before[1..] == [Push];
      assert AllHappen(w.world, t.before) == Happen(confirmed, Push);
    }
    if t.before == [ConfirmWrite(at), PushFails] {
      assert t.before[1..] == [PushFails];
      assert AllHappen(w.world, t.before) == Happen(confirmed, PushFails);
    }
  }

  /** Whoever was told that it expired was not aborted when the last read was sent, and that read
      came back at the deadline or after it. */
  lemma ExpiryIsNoAbort(start: Wait, sent: seq<Sent>, w: Wait, schedule: nat -> Turn, deadline: int, blockMs: nat)
    requires IsWait(start, sent, w, schedule, deadline, blockMs, Ok(Expired))
    ensures sent != []
    ensures var last := sent[|sent| - 1];
            && last.command.SendRead? && !last.at.world.aborted && !last.turn.fails
            && w.now >= deadline && IsOpen(w.seen.row)
  {
    assert sent != [];
    Reason(start, sent, w, schedule, deadline, blockMs, |sent| - 1);
  }

  /** What the caller of a wait may rely on, however it went: the outcome fits what ended it;
      from a start without a confirmation, "confirmed" means that a person did and "expired"
      that nobody had at the last read, which is within one command's latency of the deadline;
      and the wait outlives its deadline by at most a block, a pause and the commands' own
      latency. */
  ghost predicate Promised(start: Wait, e: End, schedule: nat -> Turn, deadline: int, blockMs: nat, ioMs: nat) {
    && Exact(e, schedule, deadline)
    && Later(start.world, e.at.world) && (e.at == start || Later(e.at.seen, e.at.world))
    && (Faithful(start.world) ==> Faithful(e.at.world) && Justified(e))
    && (Responsive(schedule, ioMs) ==> e.at.now <= deadline + blockMs + PAUSE_MS + 3 * ioMs)
    && (Responsive(schedule, ioMs) && e.outcome == Ok(Expired) ==> deadline - ioMs <= e.at.seenAt)
    && (e.outcome == Ok(Expired) ==> !HasColumn(start.world))
  }

  lemma PromiseKept(start: Wait, schedule: nat -> Turn, deadline: int, blockMs: nat, ioMs: nat)
    requires blockMs > 0 && start.now <= deadline
    ensures Promised(start, Waited(start, schedule, deadline, blockMs), schedule, deadline, blockMs, ioMs)
  {
    EndsExactly(start, schedule, deadline, blockMs);
    EndsJustly(start, schedule, deadline, blockMs);
    if Responsive(schedule, ioMs) {
      EndsInTime(start, schedule, deadline, blockMs, ioMs);
    }
    if HasColumn(start.world) && !start.world.aborted {
      LeftoverColumnAnswers(start, schedule, deadline, blockMs);
    }
  }

  /** The loop, against the recursion, with what every wait promises. */
  method WaitForHuman(start: Wait, schedule: nat -> Turn, timeoutMs: nat, configuredMs: nat, ghost ioMs: nat)
    returns (r: Result<Human, ()>, w: Wait)
    requires configuredMs > 0
    ensures var e := Waited(start, schedule, start.now + timeoutMs, configuredMs);
      && r == e.outcome && w == e.at
      && Promised(start, e, schedule, start.now + timeoutMs, configuredMs, ioMs)
    ensures ComesAbout(start, w, schedule, start.now + timeoutMs, configuredMs, r)
    ensures start.world.aborted ==> r == Ok(Human.Cancelled) && w == start
  {
    var deadline := start.now + timeoutMs;
    ghost var e := Waited(start, schedule, deadline, configuredMs);
    PromiseKept(start, schedule, deadline, configuredMs, ioMs);
    ghost var sent := WaitedIsWait(start, [], start, schedule, deadline, configuredMs);
    w := start;
    while true
      invariant Waited(w, schedule, deadline, configuredMs) == e
      decreases deadline - w.now
    {
      if w.world.aborted {
        return Ok(Human.Cancelled), w;
      }
      var failed := schedule(w.turn).fails;
      w := ReadJob(w, schedule(w.turn));
      if failed {
        return Err(()), w;
      }
      var job := w.seen.row;
      if job.None? {
        return Ok(Human.Cancelled), w;
      }
      if job.value.confirmedAt.Some? {
        return Ok(Confirmed), w;
      }
      if job.value.status.Cancelled? {
        return Ok(Human.Cancelled), w;
      }
      var remainingMs := deadline - w.now;
      if remainingMs <= 0 {
        return Ok(Expired), w;
      }
      var popped := BlockingPop(w, schedule(w.turn), BlockMs(configuredMs, remainingMs));
      w := popped.1;
      match popped.0 {
        case RedisError =>
          if w.world.aborted {
            return Ok(Human.Cancelled), w;
          }
          w := Pause(w, schedule(w.turn));
        case Signal =>
          return Ok(Confirmed), w;
        case Nothing =>
      }
    }
  }
}
