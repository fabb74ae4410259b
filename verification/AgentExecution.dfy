/** One column: the verification loop around a driver, the agent execution around that, and the column worker
    around both.  Every generator is taken as the events it yields and whether it ends by throwing. */
module AgentExecution {
  import opened JsText

  datatype Kind = StepStart | Thought | Action | Verify | Reflect | HarnessEdit | Complete | Error | Other

  datatype Metrics = Metrics(success: bool, steps: nat, toolCalls: nat)

  datatype Event = Event(kind: Kind, metrics: Option<Metrics> := None, text: string := "")

  /** What an async generator does when it is read to its end. */
  datatype Stream = Stream(events: seq<Event>, throws: bool)

  function Count(events: seq<Event>, kind: Kind): nat {
    if events == [] then 0
    else Count(events[..|events|-1], kind) + if events[|events|-1].kind == kind then 1 else 0
  }

  lemma {:induction false} CountConcat(a: seq<Event>, b: seq<Event>, kind: Kind)
    ensures Count(a + b, kind) == Count(a, kind) + Count(b, kind)
  {
    if b == [] {
      assert a + b == a;
    } else {
      CountConcat(a, b[..|b|-1], kind);
      assert (a + b)[..|a + b|-1] == a + b[..|b|-1];
    }
  }

  lemma CountOne(e: Event, kind: Kind)
    ensures Count([e], kind) == if e.kind == kind then 1 else 0
  {
    assert [e][..0] == [];
  }

  lemma CountTwo(e: Event, f: Event, kind: Kind)
    ensures Count([e, f], kind) == (if e.kind == kind then 1 else 0) + if f.kind == kind then 1 else 0
  {
    assert [e, f] == [e] + [f];
    CountConcat([e], [f], kind);
    CountOne(e, kind);
    CountOne(f, kind);
  }

  /** The events other than completes, in order. */
  function NonCompletes(events: seq<Event>): seq<Event> {
    if events == [] then []
    else
      var before, last := NonCompletes(events[..|events|-1]), events[|events|-1];
      if last.kind == Complete then before else before + [last]
  }

  lemma {:induction false} NonCompletesHaveNone(events: seq<Event>)
    ensures Count(NonCompletes(events), Complete) == 0
  {
    if events != [] {
      var before, last := NonCompletes(events[..|events|-1]), events[|events|-1];
      NonCompletesHaveNone(events[..|events|-1]);
      assert (before + [last])[..|before|] == before;
    }
  }

  function FirstComplete(events: seq<Event>): (r: Option<Event>)
    ensures r.Some? ==> r.value.kind == Complete
  {
    if events == [] then None
    else
      var before, last := FirstComplete(events[..|events|-1]), events[|events|-1];
      if before.None? && last.kind == Complete then Some(last) else before
  }

  // ----- the verification loop -----

  datatype Level = Bare | VerifyOnly | Reflecting | SelfEvolve

  /** One driver attempt and what its judge, reflection and edit calls do; `None` is a throw. */
  datatype Attempt = Attempt(run: Stream, answered: bool, judge: Option<bool>, insight: Option<string>,
    edit: Option<string>)

  predicate Passes(a: Attempt) {
    a.answered && a.judge == Some(true)
  }

  predicate JudgeThrows(a: Attempt) {
    a.answered && a.judge.None?
  }

  function ForwardedOf(a: Attempt, isLast: bool): seq<Event> {
    if isLast then a.run.events else NonCompletes(a.run.events)
  }

  /** The control events between a failed attempt and the next one. */
  function BetweenAttempts(level: Level, a: Attempt): Stream {
    if level == VerifyOnly then Stream([], false)
    else if a.insight.None? then Stream([], true)
    else if level == Reflecting then Stream([Event(Reflect, text := a.insight.value)], false)
    else if a.edit.None? then Stream([Event(Reflect, text := a.insight.value)], true)
    else Stream([Event(Reflect, text := a.insight.value), Event(HarnessEdit, text := a.edit.value)], false)
  }

  /** Whether the loop goes on after an attempt that is not the last. */
  predicate GoesOn(level: Level, a: Attempt) {
    !a.run.throws && !JudgeThrows(a) && !Passes(a) && !BetweenAttempts(level, a).throws
  }

  /** What one attempt adds to the stream. */
  function AttemptStream(level: Level, a: Attempt, isLast: bool): Stream {
    var forwarded := ForwardedOf(a, isLast);
    if a.run.throws || JudgeThrows(a) then Stream(forwarded, true)
    else if Passes(a) || isLast then Stream(forwarded + [Event(Verify)], false)
    else
      var between := BetweenAttempts(level, a);
      Stream(forwarded + [Event(Verify)] + between.events, between.throws)
  }

  /** The loop from attempt `n` on. */
  function LoopFrom(level: Level, maxRetries: int, attempt: nat -> Attempt, n: nat): Stream
    decreases maxRetries - n
  {
    if n > maxRetries then Stream([], false)
    else
      var now := AttemptStream(level, attempt(n), n == maxRetries);
      if n == maxRetries || !GoesOn(level, attempt(n)) then now
      else
        var rest := LoopFrom(level, maxRetries, attempt, n + 1);
        Stream(now.events + rest.events, rest.throws)
  }

  function VerificationLoop(level: Level, maxRetries: int, attempt: nat -> Attempt): Stream {
    if level == Bare then attempt(1).run else LoopFrom(level, maxRetries, attempt, 1)
  }

  method ForwardAttempt(a: Attempt, isLast: bool) returns (out: seq<Event>)
    ensures out == ForwardedOf(a, isLast)
  {
    out := [];
    var events := a.run.events;
    for i := 0 to |events|
      invariant out == if isLast then events[..i] else NonCompletes(events[..i])
    {
      assert events[..i+1][..i] == events[..i];
      if !isLast && events[i].kind == Complete { continue; }
      out := out + [events[i]];
    }
    assert events[..|events|] == events;
  }

  method RunAttempt(level: Level, a: Attempt, isLast: bool) returns (out: seq<Event>, throws: bool, goesOn: bool)
    ensures Stream(out, throws) == AttemptStream(level, a, isLast)
    ensures goesOn <==> !isLast && GoesOn(level, a)
  {
    hide NonCompletes, ForwardedOf;
    out := ForwardAttempt(a, isLast);
    if a.run.throws || JudgeThrows(a) { return out, true, false; }
    out := out + [Event(Verify)];
    if Passes(a) || isLast { return out, false, false; }
    var between := BetweenAttempts(level, a);
    return out + between.events, between.throws, !between.throws;
  }

  method RunVerificationLoop(level: Level, maxRetries: int, attempt: nat -> Attempt)
    returns (out: seq<Event>, throws: bool)
    ensures Stream(out, throws) == VerificationLoop(level, maxRetries, attempt)
  {
    hide AttemptStream, GoesOn;
    if level == Bare {
      return attempt(1).run.events, attempt(1).run.throws;
    }
    out := [];
    var attempts: nat := 0;
    ghost var whole := LoopFrom(level, maxRetries, attempt, 1);
    while attempts < maxRetries
      invariant attempts <= maxRetries || attempts == 0
      invariant var rest := LoopFrom(level, maxRetries, attempt, attempts + 1);
                out + rest.events == whole.events && rest.throws == whole.throws
      decreases maxRetries - attempts
    {
      attempts := attempts + 1;
      var more, goesOn;
      more, throws, goesOn := RunAttempt(level, attempt(attempts), attempts >= maxRetries);
      out := out + more;
      if !goesOn { return; }
    }
    return out, false;
  }

  lemma AttemptCompletes(level: Level, a: Attempt, isLast: bool)
    ensures Count(AttemptStream(level, a, isLast).events, Complete)
         == if isLast then Count(a.run.events, Complete) else 0
  {
    hide Count, NonCompletes, BetweenAttempts;
    var judged := ForwardedOf(a, isLast) + [Event(Verify)];
    CountConcat(ForwardedOf(a, isLast), [Event(Verify)], Complete);
    CountOne(Event(Verify), Complete);
    NonCompletesHaveNone(a.run.events);
    BetweenCompletes(level, a);
    CountConcat(judged, BetweenAttempts(level, a).events, Complete);
  }

  /** A judged loop forwards completes only from its last permitted attempt, reached when all before it failed. */
  lemma {:induction false} OnlyTheLastAttemptCompletes(level: Level, maxRetries: int, attempt: nat -> Attempt, n: nat)
    requires 1 <= n <= maxRetries
    ensures var reached := forall k: nat | n <= k < maxRetries :: GoesOn(level, attempt(k));
            Count(LoopFrom(level, maxRetries, attempt, n).events, Complete)
            == if reached then Count(attempt(maxRetries).run.events, Complete) else 0
    decreases maxRetries - n
  {
    hide AttemptStream, Count, GoesOn;
    var now := AttemptStream(level, attempt(n), n == maxRetries);
    AttemptCompletes(level, attempt(n), n == maxRetries);
    if n < maxRetries && GoesOn(level, attempt(n)) {
      OnlyTheLastAttemptCompletes(level, maxRetries, attempt, n + 1);
      CountConcat(now.events, LoopFrom(level, maxRetries, attempt, n + 1).events, Complete);
    }
  }

  lemma BetweenCompletes(level: Level, a: Attempt)
    ensures Count(BetweenAttempts(level, a).events, Complete) == 0
  {
    var events := BetweenAttempts(level, a).events;
    if |events| == 1 { CountOne(events[0], Complete); }
    if |events| == 2 { CountTwo(events[0], events[1], Complete); }
  }

  // ----- the agent execution -----

  /** Everything the execution meets outside its own control. */
  datatype Surroundings = Surroundings(
    setupThrows: bool,          // before the driver loop
    driver: Stream,             // what the verification loop yields
    abortedAfterLoop: bool,     // the signal at the checkpoint behind the loop
    structured: bool,
    answered: bool,             // the answer projection is not empty
    normalized: Option<string>, // the structured finalize's answer, if it gets one
    settlementThrows: bool,     // the analytics summary and the episodic record: neither throws as shipped
    abortedAtCatch: bool,
    postMortemThrows: bool,     // the episodic record of a failure, which catches its own errors
    cleanupThrows: bool)        // closing remote clients, whose injected transports are killed, and the workspace

  function Completed(success: bool, steps: nat, toolCalls: nat): Event {
    Event(Complete, Some(Metrics(success, steps, toolCalls)))
  }

  /** The setup and the driver loop passed, and nobody cancelled. */
  predicate PassesCheckpoint(s: Surroundings) {
    !s.setupThrows && !s.driver.throws && !s.abortedAfterLoop
  }

  function Streamed(s: Surroundings): seq<Event> {
    if s.setupThrows then [] else NonCompletes(s.driver.events)
  }

  function DriverComplete(s: Surroundings): Option<Event> {
    FirstComplete(s.driver.events)
  }

  predicate HasFailed(held: Option<Event>) {
    held.Some? && held.value.metrics.Some? && !held.value.metrics.value.success
  }

  predicate Normalizes(s: Surroundings) {
    s.structured && s.answered && !HasFailed(DriverComplete(s)) && s.normalized.Some?
  }

  function NormalizedAnswer(s: Surroundings): seq<Event> {
    if Normalizes(s) then [Event(StepStart), Event(Thought, text := s.normalized.value)] else []
  }

  /** The driver's own complete; the finalize's step is added to the steps it reports. */
  function HeldComplete(s: Surroundings): seq<Event> {
    var held := DriverComplete(s);
    if held.None? then []
    else if Normalizes(s) && held.value.metrics.Some? then
      [held.value.(metrics := Some(held.value.metrics.value.(steps := Count(Streamed(s), StepStart) + 1)))]
    else [held.value]
  }

  /** A complete reporting the work the given events show. */
  function Synthesized(success: bool, yielded: seq<Event>): Event {
    Completed(success, Count(yielded, StepStart), Count(yielded, Action))
  }

  /** What the guarded part yields before it ends or throws. */
  function Tried(s: Surroundings): seq<Event> {
    if !PassesCheckpoint(s) then Streamed(s)
    else
      var worked := Streamed(s) + NormalizedAnswer(s);
      if DriverComplete(s).Some? then worked + HeldComplete(s)
      else if s.settlementThrows then worked
      else worked + [Synthesized(true, worked)]
  }

  predicate TryThrows(s: Surroundings) {
    !PassesCheckpoint(s) || s.settlementThrows
  }

  predicate ReportsFailure(s: Surroundings) {
    TryThrows(s) && !s.abortedAtCatch && !s.postMortemThrows
  }

  function AgentRun(s: Surroundings): Stream {
    var tried := Tried(s);
    var caught := if ReportsFailure(s) then [Event(Error), Synthesized(false, tried)] else [];
    Stream(tried + caught, (TryThrows(s) && !ReportsFailure(s)) || s.cleanupThrows)
  }

  lemma DriverSnoc(events: seq<Event>, e: Event)
    ensures NonCompletes(events + [e]) == NonCompletes(events) + if e.kind == Complete then [] else [e]
    ensures FirstComplete(events + [e])
         == if FirstComplete(events).None? && e.kind == Complete then Some(e) else FirstComplete(events)
  {
    assert (events + [e])[..|events|] == events;
  }

  lemma CountSnoc(events: seq<Event>, e: Event, kind: Kind)
    ensures Count(events + [e], kind) == Count(events, kind) + if e.kind == kind then 1 else 0
  {
    assert (events + [e])[..|events|] == events;
  }

  method ReadDriver(driver: Stream) returns (out: seq<Event>, held: Option<Event>, steps: nat, toolCalls: nat)
    ensures out == NonCompletes(driver.events) && held == FirstComplete(driver.events)
    ensures steps == Count(out, StepStart) && toolCalls == Count(out, Action)
  {
    out, held, steps, toolCalls := [], None, 0, 0;
    var events := driver.events;
    assert events[..0] == [];
    NothingCounted();
    hide NonCompletes, FirstComplete, Count;
    for i := 0 to |events|
      invariant out == NonCompletes(events[..i]) && held == FirstComplete(events[..i])
      invariant steps == Count(out, StepStart) && toolCalls == Count(out, Action)
    {
      var event := events[i];
      assert events[..i+1] == events[..i] + [event];
      DriverSnoc(events[..i], event);
      CountSnoc(out, event, StepStart);
      CountSnoc(out, event, Action);
      if event.kind == StepStart {
        steps := steps + 1;
      } else if event.kind == Action {
        toolCalls := toolCalls + 1;
      } else if event.kind == Complete {
        if held.None? { held := Some(event); }
        assert out + [] == out;
        continue;
      }
      out := out + [event];
    }
    assert events[..|events|] == events;
  }

  /** The guarded part: `done` when it ends normally; the counters also serve the catch path. */
  method TryRun(s: Surroundings) returns (out: seq<Event>, done: bool, steps: nat, toolCalls: nat)
    ensures out == Tried(s) && done == !TryThrows(s)
    ensures steps == Count(Streamed(s), StepStart) + (if PassesCheckpoint(s) && Normalizes(s) then 1 else 0)
    ensures toolCalls == Count(Streamed(s), Action)
  {
    hide NonCompletes, FirstComplete, Count;
    out, done, steps, toolCalls := [], false, 0, 0;
    if s.setupThrows {
      NothingCounted();
      return;
    }
    var held;
    out, held, steps, toolCalls := ReadDriver(s.driver);
    if s.driver.throws || s.abortedAfterLoop { return; }
    if s.structured && s.answered && !HasFailed(held) && s.normalized.Some? {
      steps := steps + 1;
      out := out + [Event(StepStart), Event(Thought, text := s.normalized.value)];
      if held.Some? && held.value.metrics.Some? {
        held := Some(held.value.(metrics := Some(held.value.metrics.value.(steps := steps))));
      }
    }
    CountNormalized(s);
    if held.Some? { out := out + [held.value]; }
    if s.settlementThrows { return; }
    if held.None? { out := out + [Completed(true, steps, toolCalls)]; }
    done := true;
  }

  lemma NothingCounted()
    ensures Count([], StepStart) == 0 && Count([], Action) == 0
    ensures NonCompletes([]) == [] && FirstComplete([]) == None
  {}

  lemma CountNormalized(s: Surroundings)
    ensures Count(Streamed(s) + NormalizedAnswer(s), StepStart)
         == Count(Streamed(s), StepStart) + if Normalizes(s) then 1 else 0
    ensures Count(Streamed(s) + NormalizedAnswer(s), Action) == Count(Streamed(s), Action)
    ensures Count(Streamed(s) + NormalizedAnswer(s), Complete) == 0
  {
    hide Streamed;
    CountConcat(Streamed(s), NormalizedAnswer(s), StepStart);
    CountConcat(Streamed(s), NormalizedAnswer(s), Action);
    CountConcat(Streamed(s), NormalizedAnswer(s), Complete);
    if Normalizes(s) {
      CountTwo(Event(StepStart), Event(Thought, text := s.normalized.value), StepStart);
      CountTwo(Event(StepStart), Event(Thought, text := s.normalized.value), Action);
      CountTwo(Event(StepStart), Event(Thought, text := s.normalized.value), Complete);
    }
    StreamedHasNoComplete(s);
  }

  lemma StreamedHasNoComplete(s: Surroundings)
    ensures Count(Streamed(s), Complete) == 0
  {
    NonCompletesHaveNone(s.driver.events);
  }

  method RunAgentExecution(s: Surroundings) returns (out: seq<Event>, throws: bool)
    ensures Stream(out, throws) == AgentRun(s)
  {
    hide Tried, Count;
    var done, steps, toolCalls;
    out, done, steps, toolCalls := TryRun(s);
    throws := false;
    if !done {
      if s.abortedAtCatch || s.postMortemThrows {
        throws := true;
      } else {
        WorkOfTried(s);
        out := out + [Event(Error), Completed(false, steps, toolCalls)];
      }
    }
    if s.cleanupThrows { throws := true; }
  }

  lemma AddComplete(worked: seq<Event>, e: Event)
    requires e.kind == Complete
    ensures Count(worked + [e], StepStart) == Count(worked, StepStart)
    ensures Count(worked + [e], Action) == Count(worked, Action)
    ensures Count(worked + [e], Complete) == Count(worked, Complete) + 1
  {
    assert (worked + [e])[..|worked|] == worked;
  }

  /** The counters are the work visible in the yielded events. */
  lemma WorkOfTried(s: Surroundings)
    ensures Count(Tried(s), StepStart)
         == Count(Streamed(s), StepStart) + if PassesCheckpoint(s) && Normalizes(s) then 1 else 0
    ensures Count(Tried(s), Action) == Count(Streamed(s), Action)
    ensures Count(Tried(s), Complete)
         == if PassesCheckpoint(s) && (DriverComplete(s).Some? || !s.settlementThrows) then 1 else 0
  {
    hide Streamed, Normalizes, Synthesized, NormalizedAnswer, Count, FirstComplete;
    CountNormalized(s);
    StreamedHasNoComplete(s);
    var worked := Streamed(s) + NormalizedAnswer(s);
    if PassesCheckpoint(s) && DriverComplete(s).Some? { AddComplete(worked, HeldComplete(s)[0]); }
    if PassesCheckpoint(s) && DriverComplete(s).None? { AddSynthesized(true, worked); }
  }

  lemma AddSynthesized(success: bool, worked: seq<Event>)
    ensures Count(worked + [Synthesized(success, worked)], StepStart) == Count(worked, StepStart)
    ensures Count(worked + [Synthesized(success, worked)], Action) == Count(worked, Action)
    ensures Count(worked + [Synthesized(success, worked)], Complete) == Count(worked, Complete) + 1
  {
    AddComplete(worked, Synthesized(success, worked));
  }

  // ----- the column worker -----

  /** How far the worker gets before it hands over to the agent execution. */
  datatype Admission = CancelledWhileQueued | BreakerOpen | PreparationThrows | Admitted

  function FailurePair(): seq<Event> {
    [Event(Error), Completed(false, 0, 0)]
  }

  /** Everything one column worker pushes before its sentinel. */
  function Column(admission: Admission, s: Surroundings): seq<Event> {
    match admission
    case CancelledWhileQueued => []
    case BreakerOpen => FailurePair()
    case PreparationThrows => FailurePair()
    case Admitted => AgentRun(s).events + if AgentRun(s).throws then FailurePair() else []
  }

  method SpawnWorker(admission: Admission, s: Surroundings) returns (pushed: seq<Event>)
    ensures pushed == Column(admission, s)
  {
    hide AgentRun;
    pushed := [];
    if admission == CancelledWhileQueued { return; }
    if admission == BreakerOpen || admission == PreparationThrows { return FailurePair(); }
    var out, throws := RunAgentExecution(s);
    pushed := out;
    if throws { pushed := pushed + FailurePair(); }
  }

  // ----- what one run shows, by position -----

  ghost predicate IsFirstComplete(events: seq<Event>, i: nat) {
    i < |events| && events[i].kind == Complete && forall k | 0 <= k < i :: events[k].kind != Complete
  }

  /** `at` lists, in order, exactly the positions of the events that are no completes; `shown` is what they hold. */
  ghost predicate ShowsOthersAt(shown: seq<Event>, events: seq<Event>, at: seq<nat>) {
    && |shown| == |at|
    && (forall j | 0 <= j < |at| :: at[j] < |events| && events[at[j]].kind != Complete && shown[j] == events[at[j]])
    && (forall i, j | 0 <= i < j < |at| :: at[i] < at[j])
    && (forall k: nat | k < |events| && events[k].kind != Complete :: k in at)
  }

  ghost predicate ShowsOthers(shown: seq<Event>, events: seq<Event>) {
    exists at :: ShowsOthersAt(shown, events, at)
  }

  lemma OthersSnoc(shown: seq<Event>, events: seq<Event>, at: seq<nat>, e: Event)
    requires ShowsOthersAt(shown, events, at)
    ensures ShowsOthers(if e.kind == Complete then shown else shown + [e], events + [e])
  {
    var more, end: nat := events + [e], |events|;
    if e.kind == Complete {
      assert ShowsOthersAt(shown, more, at);
    } else {
      var longer := at + [end];
      forall k: nat | k < |more| && more[k].kind != Complete ensures k in longer {
        if k < end { assert k in at; } else { assert longer[|at|] == k; }
      }
      assert ShowsOthersAt(shown + [e], more, longer);
    }
  }

  lemma {:induction false} OthersAreShown(events: seq<Event>)
    ensures ShowsOthers(NonCompletes(events), events)
  {
    if events == [] {
      assert ShowsOthersAt([], events, []);
    } else {
      hide ShowsOthersAt;
      var before, last := events[..|events|-1], events[|events|-1];
      OthersAreShown(before);
      var at :| ShowsOthersAt(NonCompletes(before), before, at);
      assert events == before + [last];
      DriverSnoc(before, last);
      OthersSnoc(NonCompletes(before), before, at, last);
    }
  }

  /** The driver's first complete is the one held. */
  lemma {:induction false} FirstCompleteIsHeld(events: seq<Event>, i: nat)
    requires IsFirstComplete(events, i)
    ensures FirstComplete(events) == Some(events[i])
  {
    var before, last := events[..|events|-1], events[|events|-1];
    if i < |before| {
      FirstCompleteIsHeld(before, i);
    } else {
      NothingIsHeld(before);
    }
  }

  lemma {:induction false} NothingIsHeld(events: seq<Event>)
    requires forall k | 0 <= k < |events| :: events[k].kind != Complete
    ensures FirstComplete(events).None?
  {
    if events != [] { NothingIsHeld(events[..|events|-1]); }
  }

  lemma PositionsSnoc(events: seq<Event>, kind: Kind, n: nat)
    requires |events| == n + 1
    ensures |set k: nat | k < |events| && events[k].kind == kind|
         == |set k: nat | k < |events[..n]| && events[..n][k].kind == kind| + if events[n].kind == kind then 1 else 0
  {
    var here := set k: nat | k < |events| && events[k].kind == kind;
    var earlier := set k: nat | k < |events[..n]| && events[..n][k].kind == kind;
    if events[n].kind == kind {
      assert here == earlier + {n};
    } else {
      assert here == earlier;
    }
  }

  /** Counting is counting positions. */
  lemma {:induction false} CountIsPositions(events: seq<Event>, kind: Kind)
    ensures Count(events, kind) == |set k: nat | k < |events| && events[k].kind == kind|
  {
    if events != [] {
      var n: nat := |events| - 1;
      CountIsPositions(events[..n], kind);
      PositionsSnoc(events, kind, n);
    }
  }

  /** Whether the driver's stream holds a complete, and the first one reports a failure. */
  ghost predicate ReportsOwnFailure(events: seq<Event>) {
    exists i: nat :: IsFirstComplete(events, i) && events[i].metrics.Some? && !events[i].metrics.value.success
  }

  lemma {:induction false} HeldIsSomewhere(events: seq<Event>)
    requires FirstComplete(events).Some?
    ensures exists i: nat :: IsFirstComplete(events, i)
  {
    var before, last := events[..|events|-1], events[|events|-1];
    if FirstComplete(before).Some? {
      HeldIsSomewhere(before);
      var i: nat :| IsFirstComplete(before, i);
      assert IsFirstComplete(events, i);
    } else {
      NoCompleteToHold(before);
      NoneCounted(before);
      assert IsFirstComplete(events, |before|);
    }
  }

  lemma {:induction false} NoneCounted(events: seq<Event>)
    requires Count(events, Complete) == 0
    ensures forall k | 0 <= k < |events| :: events[k].kind != Complete
  {
    if events != [] { NoneCounted(events[..|events|-1]); }
  }

  /** What is held for later, by position. */
  lemma HeldIs(events: seq<Event>)
    ensures forall i: nat | IsFirstComplete(events, i) :: FirstComplete(events) == Some(events[i])
    ensures FirstComplete(events).None? <==> forall k | 0 <= k < |events| :: events[k].kind != Complete
    ensures HasFailed(FirstComplete(events)) <==> ReportsOwnFailure(events)
  {
    hide FirstComplete;
    forall i: nat | IsFirstComplete(events, i) ensures FirstComplete(events) == Some(events[i]) {
      FirstCompleteIsHeld(events, i);
    }
    if FirstComplete(events).Some? {
      HeldIsSomewhere(events);
    } else if i :| 0 <= i < |events| && events[i].kind == Complete {
      NoCompleteToHold(events);
      NoneCounted(events);
    }
  }

  /** What a run shows when its guarded part does not throw: the driver's events other than completes, in order, a
      step and the normalized answer when the structured finalize gets one, and one complete.  That is the driver's
      first own one, whose steps alone change, and only by a finalize; without one it is a success that reports the
      work shown.  The finalize needs an answer, a result and a run that did not report a failure. */
  lemma FinishedRunIs(s: Surroundings) returns (shown: seq<Event>, closing: Event)
    requires !s.setupThrows && !s.driver.throws && !s.abortedAfterLoop && !s.settlementThrows
    ensures ShowsOthers(shown, s.driver.events)
    ensures var finalizes := s.structured && s.answered && s.normalized.Some? && !ReportsOwnFailure(s.driver.events);
            var events := AgentRun(s).events;
            && events == shown + (if finalizes then [Event(StepStart), Event(Thought, text := s.normalized.value)]
                                  else []) + [closing]
            && (forall i: nat | IsFirstComplete(s.driver.events, i) ::
                  closing == var own := s.driver.events[i];
                             if finalizes && own.metrics.Some? then
                               own.(metrics := Some(own.metrics.value.(steps := Count(events, StepStart))))
                             else own)
            && ((forall k | 0 <= k < |s.driver.events| :: s.driver.events[k].kind != Complete) ==>
                  closing == Event(Complete, Some(Metrics(true, Count(events, StepStart), Count(events, Action)))))
    ensures AgentRun(s).throws == s.cleanupThrows
  {
    shown := NonCompletes(s.driver.events);
    OthersAreShown(s.driver.events);
    HeldIs(s.driver.events);
    hide NonCompletes, FirstComplete, ShowsOthers, IsFirstComplete, ReportsOwnFailure, Count;
    CountNormalized(s);
    var worked := shown + NormalizedAnswer(s);
    closing := if DriverComplete(s).Some? then HeldComplete(s)[0] else Synthesized(true, worked);
    AddComplete(worked, closing);
    TriedIs(s);
    hide Tried, HasFailed, PassesCheckpoint;
  }

  lemma TriedIs(s: Surroundings)
    requires PassesCheckpoint(s)
    ensures var worked := NonCompletes(s.driver.events) + NormalizedAnswer(s);
            Tried(s) == if DriverComplete(s).Some? then worked + [HeldComplete(s)[0]]
                        else if s.settlementThrows then worked
                        else worked + [Synthesized(true, worked)]
    ensures Tried(s) + [] == Tried(s)
  {
    hide NonCompletes, FirstComplete, Count, NormalizedAnswer, Synthesized;
  }

  /** What a run shows when its guarded part throws: all it showed until then, and, unless it was cancelled or the
      post-mortem throws as well, an error and a failed complete that reports the work shown. */
  lemma ThrownRunIs(s: Surroundings) returns (shown: seq<Event>, closing: seq<Event>)
    requires s.setupThrows || s.driver.throws || s.abortedAfterLoop || s.settlementThrows
    ensures if s.setupThrows then shown == [] else ShowsOthers(shown, s.driver.events)
    ensures var settles := !s.setupThrows && !s.driver.throws && !s.abortedAfterLoop;
            var finalizes := settles && s.structured && s.answered && s.normalized.Some?
                             && !ReportsOwnFailure(s.driver.events);
            var worked := shown + (if finalizes then [Event(StepStart), Event(Thought, text := s.normalized.value)]
                                   else []);
            var caught := !s.abortedAtCatch && !s.postMortemThrows;
            && AgentRun(s).events
               == worked + closing
                  + (if caught then [Event(Error), Event(Complete, Some(Metrics(false, Count(worked, StepStart),
                                                                                Count(worked, Action))))] else [])
            && (!settles ==> closing == [])
            && (settles ==> forall i: nat | IsFirstComplete(s.driver.events, i) ::
                  var own := s.driver.events[i];
                  closing == [if finalizes && own.metrics.Some? then
                                own.(metrics := Some(own.metrics.value.(steps := Count(worked, StepStart))))
                              else own])
            && ((forall k | 0 <= k < |s.driver.events| :: s.driver.events[k].kind != Complete) ==> closing == [])
            && AgentRun(s).throws == (!caught || s.cleanupThrows)
  {
    shown := Streamed(s);
    OthersAreShown(s.driver.events);
    HeldIs(s.driver.events);
    hide NonCompletes, FirstComplete, ShowsOthers, IsFirstComplete, ReportsOwnFailure, Count;
    CountNormalized(s);
    closing := if PassesCheckpoint(s) then HeldComplete(s) else [];
    var worked := if PassesCheckpoint(s) then shown + NormalizedAnswer(s) else shown;
    if closing != [] { AddComplete(worked, closing[0]); }
    if PassesCheckpoint(s) { TriedIs(s); }
    assert shown + [] == shown && worked + [] == worked;
    hide Tried, HasFailed;
    assert Tried(s) == worked + closing;
  }

  /** What a column shows: nothing if it was cancelled in the queue, the failure pair if it was never run, and
      behind a run that throws. */
  lemma ColumnIs(admission: Admission, s: Surroundings)
    ensures var failure := [Event(Error), Event(Complete, Some(Metrics(false, 0, 0)))];
            Column(admission, s) == if admission == CancelledWhileQueued then []
                                    else if admission != Admitted then failure
                                    else if AgentRun(s).throws then AgentRun(s).events + failure
                                    else AgentRun(s).events
  {
    hide AgentRun;
    assert AgentRun(s).events + [] == AgentRun(s).events;
  }

  // ----- what a judged loop shows, attempt by attempt -----

  /** The run of an attempt, without its completes unless it is the last permitted one; a verdict when the run ended
      and its judge did not throw; and behind a failed one that is not the last a reflection and, for the evolving
      level, an edit, as far as those calls do not throw.  A throw anywhere is the attempt's own. */
  lemma AttemptIs(level: Level, a: Attempt, isLast: bool) returns (shown: seq<Event>)
    requires level != Bare
    ensures if isLast then shown == a.run.events else ShowsOthers(shown, a.run.events)
    ensures var stops := a.run.throws || (a.answered && a.judge.None?);
            var failed := !stops && !(a.answered && a.judge == Some(true)) && !isLast;
            var reflects := failed && level != VerifyOnly && a.insight.Some?;
            var edits := reflects && level == SelfEvolve && a.edit.Some?;
            var here := AttemptStream(level, a, isLast);
            && here.events == shown + (if stops then [] else [Event(Verify)])
                              + (if reflects then [Event(Reflect, text := a.insight.value)] else [])
                              + (if edits then [Event(HarnessEdit, text := a.edit.value)] else [])
            && here.throws == (stops || (failed && level != VerifyOnly && !reflects)
                               || (reflects && level == SelfEvolve && !edits))
            && (!isLast ==> (GoesOn(level, a) <==> failed && !here.throws))
  {
    shown := ForwardedOf(a, isLast);
    OthersAreShown(a.run.events);
    hide NonCompletes, ShowsOthers;
    var verdict := shown + [Event(Verify)];
    assert verdict + [] == verdict && shown + [] == shown;
    if BetweenAttempts(level, a).events != [] {
      var reflect := [Event(Reflect, text := a.insight.value)];
      assert reflect + [] == reflect && verdict + reflect + [] == verdict + reflect;
      if |BetweenAttempts(level, a).events| == 2 {
        var edit := [Event(HarnessEdit, text := a.edit.value)];
        assert verdict + reflect + edit == verdict + (reflect + edit);
      }
    }
  }

  function Joined(parts: seq<Stream>): seq<Event> {
    if parts == [] then [] else parts[0].events + Joined(parts[1..])
  }

  lemma {:induction false} LoopIsItsAttempts(level: Level, maxRetries: int, attempt: nat -> Attempt, n: nat)
    returns (parts: seq<Stream>)
    requires n <= maxRetries
    ensures var last := n + |parts| - 1;
            && n <= last <= maxRetries
            && (forall k: nat | n <= k <= last :: parts[k-n] == AttemptStream(level, attempt(k), k == maxRetries))
            && (forall k: nat | n <= k < last :: GoesOn(level, attempt(k)))
            && (last == maxRetries || !GoesOn(level, attempt(last)))
            && LoopFrom(level, maxRetries, attempt, n) == Stream(Joined(parts), parts[|parts|-1].throws)
    decreases maxRetries - n
  {
    hide AttemptStream, GoesOn;
    var now := AttemptStream(level, attempt(n), n == maxRetries);
    if n == maxRetries || !GoesOn(level, attempt(n)) {
      parts := [now];
      assert now.events + [] == now.events;
    } else {
      var rest := LoopIsItsAttempts(level, maxRetries, attempt, n + 1);
      parts := [now] + rest;
      assert parts[1..] == rest;
      forall k: nat | n <= k < n + |parts|
        ensures parts[k-n] == AttemptStream(level, attempt(k), k == maxRetries)
      {
        if k > n { assert parts[k-n] == rest[k-(n+1)]; }
      }
    }
  }

  /** Without a judge the loop is its one run; with one it is its attempts, one after the other: each failed one that
      does not throw leads to the next, and the loop ends with the last permitted one or the first that does not. */
  lemma LoopShows(level: Level, maxRetries: int, attempt: nat -> Attempt) returns (parts: seq<Stream>)
    ensures level == Bare ==> VerificationLoop(level, maxRetries, attempt) == attempt(1).run
    ensures level != Bare && maxRetries < 1 ==> VerificationLoop(level, maxRetries, attempt) == Stream([], false)
    ensures level != Bare && maxRetries >= 1 ==>
              && 1 <= |parts| <= maxRetries
              && (forall k: nat | 1 <= k <= |parts| :: parts[k-1] == AttemptStream(level, attempt(k), k == maxRetries))
              && (forall k: nat | 1 <= k < |parts| :: GoesOn(level, attempt(k)))
              && (|parts| == maxRetries || !GoesOn(level, attempt(|parts|)))
              && VerificationLoop(level, maxRetries, attempt) == Stream(Joined(parts), parts[|parts|-1].throws)
  {
    parts := [];
    if level != Bare && maxRetries >= 1 { parts := LoopIsItsAttempts(level, maxRetries, attempt, 1); }
    hide AttemptStream, GoesOn, Joined;
  }

  // ----- one terminal event per column -----

  /** The guarded part got as far as yielding a complete. */
  predicate YieldsComplete(s: Surroundings) {
    PassesCheckpoint(s) && (DriverComplete(s).Some? || !s.settlementThrows)
  }

  /** An error arrives after a complete was already yielded. */
  predicate FailsAfterComplete(s: Surroundings) {
    || (PassesCheckpoint(s) && DriverComplete(s).Some? && s.settlementThrows)
    || (s.cleanupThrows && (YieldsComplete(s) || ReportsFailure(s)))
  }

  lemma FailurePairCompletes()
    ensures Count(FailurePair(), Complete) == 1
  {
    CountTwo(Event(Error), Completed(false, 0, 0), Complete);
  }

  lemma CompletesOfAgent(s: Surroundings)
    ensures Count(AgentRun(s).events, Complete)
         == (if YieldsComplete(s) then 1 else 0) + if ReportsFailure(s) then 1 else 0
  {
    hide Tried, Count, FirstComplete, NonCompletes, Synthesized;
    WorkOfTried(s);
    if ReportsFailure(s) {
      var failed := Synthesized(false, Tried(s));
      CountConcat(Tried(s), [Event(Error), failed], Complete);
      SynthesizedKind(false, Tried(s));
      CountTwo(Event(Error), failed, Complete);
    } else {
      assert Tried(s) + [] == Tried(s);
    }
  }

  lemma SynthesizedKind(success: bool, yielded: seq<Event>)
    ensures Synthesized(success, yielded).kind == Complete
  {}

  /** Every started column closes with a complete; it is the only one exactly when nothing fails behind it. */
  lemma OneCompletePerColumn(admission: Admission, s: Surroundings)
    requires admission != CancelledWhileQueued
    ensures var column := Column(admission, s);
            && column != [] && column[|column|-1].kind == Complete
            && (Count(column, Complete) == 1 <==> admission != Admitted || !FailsAfterComplete(s))
  {
    FailurePairCompletes();
    if admission == Admitted {
      CompletesOfAgent(s);
      CountConcat(AgentRun(s).events, FailurePair(), Complete);
      if !AgentRun(s).throws { LastOfAgent(s); }
      hide Tried, Count, FirstComplete;
      assert AgentRun(s).events + [] == AgentRun(s).events;
    }
  }

  /** With settlement and cleanup as shipped nothing does: a started column has one complete, its last event. */
  lemma OneCompleteUnlessCleanupThrows(admission: Admission, s: Surroundings)
    requires !s.settlementThrows && !s.cleanupThrows
    ensures var column := Column(admission, s);
            && Count(column, Complete) == (if admission == CancelledWhileQueued then 0 else 1)
            && (admission != CancelledWhileQueued ==> column != [] && column[|column|-1].kind == Complete)
  {
    hide AgentRun;
    if admission != CancelledWhileQueued { OneCompletePerColumn(admission, s); }
  }

  /** A cleanup that throws after a finished run is such a failure: a second complete.  It takes a transport whose
      kill throws, and a caller that injects it, which the column worker is not. */
  lemma LateCleanupAddsAComplete()
    ensures var s := Surroundings(false, Stream([], false), false, false, false, None, false, false, false, true);
            FailsAfterComplete(s) && Count(Column(Admitted, s), Complete) == 2
  {
    var s := Surroundings(false, Stream([], false), false, false, false, None, false, false, false, true);
    CompletesOfAgent(s);
    FailurePairCompletes();
    CountConcat(AgentRun(s).events, FailurePair(), Complete);
    hide Count, Tried;
  }

  lemma LastOfAgent(s: Surroundings)
    requires !AgentRun(s).throws
    ensures AgentRun(s).events != [] && AgentRun(s).events[|AgentRun(s).events|-1].kind == Complete
  {
    hide Count, Streamed, NormalizedAnswer, FirstComplete;
  }

  // ----- what the terminal event says -----

  /** A failure, however late, leaves an error right before the closing failed complete. */
  lemma FailureClosesTheColumn(admission: Admission, s: Surroundings)
    requires admission != CancelledWhileQueued && (admission == Admitted ==> TryThrows(s) || s.cleanupThrows)
    ensures var column := Column(admission, s);
            && |column| >= 2 && column[|column|-2].kind == Error
            && column[|column|-1].kind == Complete && column[|column|-1].metrics.Some?
            && !column[|column|-1].metrics.value.success
  {
    hide Tried, Count, PassesCheckpoint;
  }

  /** The agent closed its stream with a complete of its own making, or with the driver's after a finalize. */
  predicate AgentReportsWork(s: Surroundings) {
    || ReportsFailure(s)
    || (!TryThrows(s) && (DriverComplete(s).None? || (Normalizes(s) && DriverComplete(s).value.metrics.Some?)))
  }

  /** Such a complete reports exactly the steps and tool calls the stream shows. */
  lemma ReportedWorkIsVisible(s: Surroundings)
    requires AgentReportsWork(s)
    ensures var events := AgentRun(s).events;
            && events != [] && events[|events|-1].metrics.Some?
            && events[|events|-1].metrics.value.steps == Count(events, StepStart)
            && (ReportsFailure(s) || DriverComplete(s).None? ==>
                 events[|events|-1].metrics.value.toolCalls == Count(events, Action))
            && (ReportsFailure(s) <==> TryThrows(s))
            && (ReportsFailure(s) ==> !events[|events|-1].metrics.value.success)
            && (!ReportsFailure(s) ==> events[|events|-1].metrics.value.success)
  {
    var tried := Tried(s);
    WorkOfTried(s);
    if ReportsFailure(s) {
      hide Tried, Count, Streamed, PassesCheckpoint;
      var failed := Synthesized(false, tried);
      CountConcat(tried, [Event(Error), failed], StepStart);
      CountConcat(tried, [Event(Error), failed], Action);
      CountTwo(Event(Error), failed, StepStart);
      CountTwo(Event(Error), failed, Action);
    } else {
      hide Count, Streamed, FirstComplete;
      CountNormalized(s);
      assert tried + [] == tried;
    }
  }

  /** A cancelled column never reports success: what was streamed is closed by the stopped pair. */
  lemma CancellationIsNoSuccess(s: Surroundings)
    requires s.abortedAfterLoop && s.abortedAtCatch
    ensures Column(Admitted, s) == Streamed(s) + FailurePair()
  {
    hide Streamed;
    assert Streamed(s) + [] == Streamed(s);
  }

  /** With judged attempts the column still has one complete; it is the driver's only if the last permitted
      attempt was reached, and otherwise one the agent makes up. */
  lemma JudgedColumnCompletesOnce(level: Level, maxRetries: int, attempt: nat -> Attempt, s: Surroundings)
    requires level != Bare && s.driver == VerificationLoop(level, maxRetries, attempt) && !FailsAfterComplete(s)
    ensures Count(Column(Admitted, s), Complete) == 1
    ensures maxRetries >= 1 && !(forall k: nat | 1 <= k < maxRetries :: GoesOn(level, attempt(k))) ==>
        DriverComplete(s).None?
    ensures maxRetries < 1 ==> s.driver.events == [] && DriverComplete(s).None?
  {
    OneCompletePerColumn(Admitted, s);
    hide Column, AgentRun, FailsAfterComplete;
    if maxRetries >= 1 {
      OnlyTheLastAttemptCompletes(level, maxRetries, attempt, 1);
      NoCompleteToHold(s.driver.events);
    }
  }

  lemma {:induction false} NoCompleteToHold(events: seq<Event>)
    ensures FirstComplete(events).None? <==> Count(events, Complete) == 0
  {
    if events != [] { NoCompleteToHold(events[..|events|-1]); }
  }
}
