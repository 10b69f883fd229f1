/** Running a UI flow: every step does its job or the run fails, and a run that returns has
    asserted something. */
module UiFlow {
  import opened Options
  import opened Interpolation
  import opened Text

  datatype Step =
    | Tap(name: string, locator: string, optional: bool)
    | Type(name: string, locator: string, text: string, clearFirst: bool, optional: bool)
    | AssertVisible(name: string, locator: string, captureText: bool)
    | AssertGone(name: string, locator: string)
    | Wait(name: string, ms: nat)

  /** What the schema asks of a flow. */
  ghost predicate WellFormed(steps: seq<Step>) {
    exists i :: 0 <= i < |steps| && (steps[i].AssertVisible? || steps[i].AssertGone?)
  }

  /** The device, while one step runs. */
  datatype Moment = Moment(
    abortedBefore: bool,
    aborted: bool,             // during a wait
    driver: bool,              // Appium answers when asked to look
    present: string -> bool,   // what is on the screen before the step's timeout
    clicks: bool,
    clears: bool,
    types: bool,
    text: Option<string>,      // of the element found, if Appium will say
    ms: nat)

  datatype Command = Click(locator: string) | Clear(locator: string) | SetValue(locator: string, text: string)

  datatype Kind = NotFound | StillPresent | InteractionFailed
  datatype Failure = CancelledBefore(index: nat) | AbortedIn(index: nat) | StepFailed(kind: Kind, index: nat)

  datatype Timing = Timing(step: Step, ms: nat, skipped: bool)

  datatype FlowResult =
    FlowResult(executed: seq<string>, skipped: seq<string>, captured: Option<string>, timings: seq<Timing>,
        totalMs: nat)

  // ----- what a step is for -----

  predicate Seen(s: Step, m: Moment, context: Context)
    requires !s.Wait?
  {
    m.driver && m.present(Interpolate(s.locator, context))
  }

  predicate Absent(s: Step, m: Moment, context: Context)
    requires !s.Wait?
  {
    m.driver && !m.present(Interpolate(s.locator, context))
  }

  /** The step did what it says. */
  predicate Done(s: Step, m: Moment, context: Context) {
    && !m.abortedBefore
    && match s
       case Wait(_, _) => !m.aborted
       case Tap(_, _, _) => Seen(s, m, context) && m.clicks
       case Type(_, _, _, clearFirst, _) => Seen(s, m, context) && m.clicks && (clearFirst ==> m.clears) && m.types
       case AssertVisible(_, _, captureText) => Seen(s, m, context) && (captureText ==> m.text.Some?)
       case AssertGone(_, _) => Absent(s, m, context)
  }

  /** The step's element is conditional, and is not there. */
  predicate Skips(s: Step, m: Moment, context: Context) {
    !m.abortedBefore && (s.Tap? || s.Type?) && s.optional && Absent(s, m, context)
  }

  ghost predicate AllPass(steps: seq<Step>, moments: nat -> Moment, context: Context) {
    forall i :: 0 <= i < |steps| ==> Outcome(steps[i], moments(i), context, i).Ok?
  }

  /** Whether the step is passed over, or how it fails. */
  function Outcome(s: Step, m: Moment, context: Context, index: nat): Result<bool, Failure> {
    if Done(s, m, context) then Ok(false)
    else if Skips(s, m, context) then Ok(true)
    else Err(FailureOf(s, m, context, index))
  }

  function FailureOf(s: Step, m: Moment, context: Context, index: nat): Failure {
    if m.abortedBefore then CancelledBefore(index)
    else if s.Wait? then AbortedIn(index)
    else if s.AssertGone? then StepFailed(StillPresent, index)
    else if Absent(s, m, context) then StepFailed(NotFound, index)
    else StepFailed(InteractionFailed, index)
  }

  /** The commands a step sends, up to the one that fails. */
  function Sent(s: Step, m: Moment, context: Context): seq<Command> {
    if s.Wait? || m.abortedBefore || !Seen(s, m, context) then []
    else
      var locator := Interpolate(s.locator, context);
      match s
      case Tap(_, _, _) => [Click(locator)]
      case Type(_, _, text, clearFirst, _) =>
        [Click(locator)]
        + (if m.clicks && clearFirst then [Clear(locator)] else [])
        + (if m.clicks && (clearFirst ==> m.clears) then [SetValue(locator, Interpolate(text, context))] else [])
      case _ => []
  }

  // ----- what a run returns -----

  function Names(timings: seq<Timing>, skipped: bool): seq<string> {
    if timings == [] then []
    else Names(timings[..|timings| - 1], skipped)
         + if timings[|timings| - 1].skipped == skipped then [timings[|timings| - 1].step.name] else []
  }

  function Sum(timings: seq<Timing>): nat {
    if timings == [] then 0 else Sum(timings[..|timings| - 1]) + timings[|timings| - 1].ms
  }

  function CapturedBy(s: Step, m: Moment, before: Option<string>): Option<string> {
    if s.AssertVisible? && s.captureText && m.text.Some? then NonEmpty(Trim(m.text.value)) else before
  }

  /** The last step told to capture decides, even when what it captures is blank. */
  function Captured(steps: seq<Step>, moments: nat -> Moment): Option<string> {
    if steps == [] then None
    else CapturedBy(steps[|steps| - 1], moments(|steps| - 1), Captured(steps[..|steps| - 1], moments))
  }

  function AllSent(steps: seq<Step>, moments: nat -> Moment, context: Context): seq<Command> {
    if steps == [] then []
    else AllSent(steps[..|steps| - 1], moments, context) + Sent(steps[|steps| - 1], moments(|steps| - 1), context)
  }

  /** The first steps have gone by: each did its job, or was one that may be passed over. */
  ghost predicate Went(steps: seq<Step>, moments: nat -> Moment, context: Context, timings: seq<Timing>) {
    && |timings| == |steps|
    && forall i :: 0 <= i < |steps| ==>
         && timings[i].step == steps[i] && timings[i].ms == moments(i).ms
         && Outcome(steps[i], moments(i), context, i) == Ok(timings[i].skipped)
  }

  ghost predicate Returned(steps: seq<Step>, moments: nat -> Moment, context: Context, r: FlowResult) {
    && Went(steps, moments, context, r.timings)
    && r.executed == Names(r.timings, false) && r.skipped == Names(r.timings, true)
    && r.captured == Captured(steps, moments)
    && r.totalMs == Sum(r.timings)
  }

  class Session {
    var commands: seq<Command>
    const moments: nat -> Moment

    constructor (moments: nat -> Moment)
      ensures commands == [] && this.moments == moments
    {
      commands, this.moments := [], moments;
    }

    /** Taps, types or reads an element that has been found. */
    method Interact(s: Step, m: Moment, context: Context, captured: Option<string>)
        returns (ok: bool, text: Option<string>)
      requires !s.Wait? && !s.AssertGone? && !m.abortedBefore && Seen(s, m, context)
      modifies this
      ensures commands == old(commands) + Sent(s, m, context)
      ensures ok <==> Done(s, m, context)
      ensures ok ==> text == CapturedBy(s, m, captured)
    {
      text := captured;
      var locator := Interpolate(s.locator, context);
      match s
      case Tap(_, _, _) =>
        commands := commands + [Click(locator)];
        ok := m.clicks;
      case Type(_, _, value, clearFirst, _) =>
        commands := commands + [Click(locator)];
        ok := m.clicks;
        if ok && clearFirst {
          commands := commands + [Clear(locator)];
          ok := m.clears;
        }
        if ok {
          commands := commands + [SetValue(locator, Interpolate(value, context))];
          ok := m.types;
        }
      case AssertVisible(_, _, captureText) =>
        ok := true;
        if captureText {
          ok := m.text.Some?;
          if ok {
            text := NonEmpty(Trim(m.text.value));
          }
        }
      case _ =>
        ok := true;
    }

    method RunStep(s: Step, index: nat, context: Context, captured: Option<string>)
        returns (skipped: Result<bool, Failure>, text: Option<string>)
      modifies this
      ensures commands == old(commands) + Sent(s, moments(index), context)
      ensures skipped == Outcome(s, moments(index), context, index)
      ensures skipped.Ok? ==> text == CapturedBy(s, moments(index), captured)
    {
      var m := moments(index);
      text := captured;
      if m.abortedBefore {
        return Err(CancelledBefore(index)), text;
      }
      if s.Wait? {
        return if m.aborted then Err(AbortedIn(index)) else Ok(false), text;
      }
      if s.AssertGone? {
        return if Absent(s, m, context) then Ok(false) else Err(StepFailed(StillPresent, index)), text;
      }
      if !Seen(s, m, context) {
        var optional := (s.Tap? || s.Type?) && s.optional;
        if optional && Absent(s, m, context) {
          return Ok(true), text;
        }
        return Err(StepFailed(if Absent(s, m, context) then NotFound else InteractionFailed, index)), text;
      }
      var ok;
      ok, text := Interact(s, m, context, captured);
      return if ok then Ok(false) else Err(StepFailed(InteractionFailed, index)), text;
    }

    /** Returns exactly when every step did its job or may be passed over; otherwise fails
        with the first step that did neither, and sends nothing on behalf of a later one. */
    method RunUiFlow(steps: seq<Step>, context: Context) returns (r: Result<FlowResult, Failure>)
      modifies this
      ensures r.Ok? ==> Returned(steps, moments, context, r.value) && AllPass(steps, moments, context)
      ensures r.Err? ==> FailedAt(steps, moments, context, r.error)
      ensures exists sent :: commands == old(commands) + sent && IsSent(steps, moments, context, r, sent)
    {
      var executed, skipped, timings, captured := [], [], [], None;
      ghost var sent := [];
      for index := 0 to |steps|
        invariant Progress(steps[..index], moments, context, timings, executed, skipped, captured, sent)
        invariant commands == old(commands) + sent
      {
        var step := steps[index];
        ghost var done, sent0 := steps[..index], sent;
        var wasSkipped, text := RunStep(step, index, context, captured);
        ghost var more := Sent(step, moments(index), context);
        Associate(old(commands), sent, more);
        sent := sent + more;
        assert steps[..index + 1] == done + [step];
        SentSnoc(done, step, moments, context);
        if wasSkipped.Err? {
          Stop(steps, index, moments, context, timings, executed, skipped, captured, sent0, wasSkipped.error);
          return Err(wasSkipped.error);
        }
        ghost var before := (timings, executed, skipped, captured);
        captured := text;
        var timing := Timing(step, moments(index).ms, wasSkipped.value);
        timings := timings + [timing];
        if wasSkipped.value {
          skipped := skipped + [step.name];
        } else {
          executed := executed + [step.name];
        }
        Advance(done, moments, context, before.0, before.1, before.2, before.3, sent0, timing);
      }
      assert steps[..|steps|] == steps;
      Finish(steps, moments, context, timings, executed, skipped, captured, sent);
      return Ok(FlowResult(executed, skipped, captured, timings, Sum(timings)));
    }
  }

  ghost predicate IsSent(steps: seq<Step>, moments: nat -> Moment, context: Context, r: Result<FlowResult, Failure>,
                         sent: seq<Command>) {
    match r
    case Ok(_) => sent == AllSent(steps, moments, context)
    case Err(f) => f.index < |steps| && sent == AllSent(steps[..f.index + 1], moments, context)
  }

  lemma Associate(a: seq<Command>, b: seq<Command>, c: seq<Command>)
    ensures a + b + c == a + (b + c)
  {
  }

  /** The failure is that of the first step that neither did its job nor may be passed over. */
  ghost predicate FailedAt(steps: seq<Step>, moments: nat -> Moment, context: Context, f: Failure) {
    && f.index < |steps| && AllPass(steps[..f.index], moments, context) && !AllPass(steps, moments, context)
    && Outcome(steps[f.index], moments(f.index), context, f.index) == Err(f)
  }

  ghost predicate Progress(done: seq<Step>, moments: nat -> Moment, context: Context, timings: seq<Timing>,
                           executed: seq<string>, skipped: seq<string>, captured: Option<string>, sent: seq<Command>)
  {
    && Went(done, moments, context, timings)
    && executed == Names(timings, false) && skipped == Names(timings, true)
    && captured == Captured(done, moments)
    && sent == AllSent(done, moments, context)
  }

  lemma SentSnoc(done: seq<Step>, step: Step, moments: nat -> Moment, context: Context)
    ensures AllSent(done + [step], moments, context) ==
              AllSent(done, moments, context) + Sent(step, moments(|done|), context)
  {
    assert (done + [step])[..|done|] == done;
  }

  lemma Advance(done: seq<Step>, moments: nat -> Moment, context: Context, timings: seq<Timing>,
                executed: seq<string>, skipped: seq<string>, captured: Option<string>, sent: seq<Command>, t: Timing)
    requires Progress(done, moments, context, timings, executed, skipped, captured, sent)
    requires t.ms == moments(|done|).ms && Outcome(t.step, moments(|done|), context, |done|) == Ok(t.skipped)
    ensures Progress(done + [t.step], moments, context, timings + [t],
                     if t.skipped then executed else executed + [t.step.name],
                     if t.skipped then skipped + [t.step.name] else skipped,
                     CapturedBy(t.step, moments(|done|), captured), sent + Sent(t.step, moments(|done|), context))
  {
    SentSnoc(done, t.step, moments, context);
    WentSnoc(done, moments, context, timings, t);
    NamesSnoc(timings, t);
    assert (done + [t.step])[..|done|] == done;
  }

  lemma WentSnoc(done: seq<Step>, moments: nat -> Moment, context: Context, timings: seq<Timing>, t: Timing)
    requires Went(done, moments, context, timings)
    requires t.ms == moments(|done|).ms && Outcome(t.step, moments(|done|), context, |done|) == Ok(t.skipped)
    ensures Went(done + [t.step], moments, context, timings + [t])
  {
  }

  lemma NamesSnoc(timings: seq<Timing>, t: Timing)
    ensures Names(timings + [t], t.skipped) == Names(timings, t.skipped) + [t.step.name]
    ensures Names(timings + [t], !t.skipped) == Names(timings, !t.skipped)
  {
    assert (timings + [t])[..|timings|] == timings;
  }

  lemma Stop(steps: seq<Step>, index: nat, moments: nat -> Moment, context: Context, timings: seq<Timing>,
             executed: seq<string>, skipped: seq<string>, captured: Option<string>, sent: seq<Command>, f: Failure)
    requires index < |steps| && Progress(steps[..index], moments, context, timings, executed, skipped, captured, sent)
    requires Outcome(steps[index], moments(index), context, index) == Err(f)
    ensures f.index == index && FailedAt(steps, moments, context, f)
  {
  }

  lemma Finish(steps: seq<Step>, moments: nat -> Moment, context: Context, timings: seq<Timing>,
               executed: seq<string>, skipped: seq<string>, captured: Option<string>, sent: seq<Command>)
    requires Progress(steps, moments, context, timings, executed, skipped, captured, sent)
    ensures Returned(steps, moments, context, FlowResult(executed, skipped, captured, timings, Sum(timings)))
    ensures AllPass(steps, moments, context)
  {
  }

  /** The total is the sum of its parts. */
  lemma {:induction false} SumSplits(a: seq<Timing>, b: seq<Timing>)
    ensures Sum(a + b) == Sum(a) + Sum(b)
    ensures |b| == 1 ==> Sum(b) == b[0].ms
  {
    if b == [] {
      assert a + b == a;
    } else {
      SumSplits(a, b[..|b| - 1]);
      assert (a + b)[..|a + b| - 1] == a + b[..|b| - 1];
    }
  }

  // ----- what the device is told -----

  /** All that a step is for, in order: the field is focused, emptied if so told, and typed into. */
  function Wanted(s: Step, context: Context): seq<Command> {
    match s
    case Tap(_, locator, _) => [Click(Interpolate(locator, context))]
    case Type(_, locator, text, clearFirst, _) =>
      var field := Interpolate(locator, context);
      if clearFirst then [Click(field), Clear(field), SetValue(field, Interpolate(text, context))]
      else [Click(field), SetValue(field, Interpolate(text, context))]
    case _ => []
  }

  /** A step sends that, or as much of it as works. */
  lemma SendsWhatIsWanted(s: Step, m: Moment, context: Context)
    ensures Sent(s, m, context) <= Wanted(s, context)
    ensures Done(s, m, context) ==> Sent(s, m, context) == Wanted(s, context)
    ensures Skips(s, m, context) ==> Sent(s, m, context) == []
  {
  }

  function AllWanted(timings: seq<Timing>, context: Context): seq<Command> {
    if timings == [] then []
    else
      var last := timings[|timings| - 1];
      AllWanted(timings[..|timings| - 1], context) + if last.skipped then [] else Wanted(last.step, context)
  }

  /** A run that returns has sent, for each step that was not passed over, all that the step is
      for, in the order of the flow, and nothing else. */
  lemma {:induction false} ReturnedSends(steps: seq<Step>, moments: nat -> Moment, context: Context,
                                         timings: seq<Timing>)
    requires Went(steps, moments, context, timings)
    ensures AllSent(steps, moments, context) == AllWanted(timings, context)
  {
    if steps == [] {
    } else {
      var n := |steps| - 1;
      ReturnedSends(steps[..n], moments, context, timings[..n]);
      assert Outcome(steps[n], moments(n), context, n) == Ok(timings[n].skipped);
      SendsWhatIsWanted(steps[n], moments(n), context);
    }
  }

  // ----- what a result is worth -----

  lemma {:induction false} NamesSplit(timings: seq<Timing>)
    ensures |Names(timings, false)| + |Names(timings, true)| == |timings|
  {
    if timings == [] {
    } else {
      NamesSplit(timings[..|timings| - 1]);
    }
  }

  lemma {:induction false} NamedOnce(timings: seq<Timing>, i: nat)
    requires i < |timings|
    ensures timings[i].step.name in Names(timings, timings[i].skipped)
  {
    var n := |timings| - 1;
    if i == n {
    } else {
      NamedOnce(timings[..n], i);
    }
  }

  /** A step that was passed over was conditional and absent; an assertion was not passed
      over, and held; and nothing was taken for absent or present without being asked. */
  ghost predicate HonestAt(s: Step, m: Moment, context: Context, skipped: bool) {
    && (!s.Wait? ==> m.driver) && !m.abortedBefore
    && (skipped ==> (s.Tap? || s.Type?) && s.optional && !m.present(Interpolate(s.locator, context)))
    && (s.AssertVisible? ==> !skipped && m.present(Interpolate(s.locator, context)))
    && (s.AssertGone? ==> !skipped && !m.present(Interpolate(s.locator, context)))
    && ((s.Tap? || s.Type?) && !skipped ==> m.present(Interpolate(s.locator, context)) && m.clicks)
  }

  lemma OutcomeIsHonest(s: Step, m: Moment, context: Context, index: nat, skipped: bool)
    requires Outcome(s, m, context, index) == Ok(skipped)
    ensures HonestAt(s, m, context, skipped)
  {
  }

  /** A run that returns cannot lie: each assertion of the flow held when it was reached and
      there was one, whatever was passed over was optional and absent, and every step is
      accounted for, once. */
  lemma SuccessCannotLie(steps: seq<Step>, moments: nat -> Moment, context: Context, r: FlowResult)
    requires WellFormed(steps) && Returned(steps, moments, context, r)
    ensures |r.executed| + |r.skipped| == |steps| == |r.timings|
    ensures forall i :: 0 <= i < |steps| ==>
              && HonestAt(steps[i], moments(i), context, r.timings[i].skipped)
              && steps[i].name in (if r.timings[i].skipped then r.skipped else r.executed)
    ensures exists i :: 0 <= i < |steps| && (steps[i].AssertVisible? || steps[i].AssertGone?)
                        && steps[i].name in r.executed
  {
    NamesSplit(r.timings);
    forall i | 0 <= i < |steps|
      ensures HonestAt(steps[i], moments(i), context, r.timings[i].skipped)
      ensures steps[i].name in (if r.timings[i].skipped then r.skipped else r.executed)
    {
      NamedOnce(r.timings, i);
      OutcomeIsHonest(steps[i], moments(i), context, i, r.timings[i].skipped);
    }
    var i :| 0 <= i < |steps| && (steps[i].AssertVisible? || steps[i].AssertGone?);
  }
}
