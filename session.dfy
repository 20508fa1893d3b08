/** The transcription session as a state machine over values: one step
    function per handler of the transcriber, each giving the new state and
    the outputs it emits, and the environment that drives those handlers. */
module Session {
  import opened Punctuation

  /** What the transcriber emits: the text-update and finished callbacks it
      raises, and the requests it makes of the voice SDK. */
  datatype Event =
    | Update(text: string)  // the running text: accumulated plus partial
    | Finished(text: string)  // the final accumulated text of a session
    | SdkStart  // ask the SDK to start listening
    | SdkStop  // ask the SDK to stop listening
    | SdkRestartNow  // ask the SDK to start listening again at once

  /** The transcriber's state. `subscriptions` is how many times the three
      SDK handlers (final transcript, error, partial transcript) are attached;
      they are always attached and removed together. `finals` records the
      fragments finalised since the session was activated. */
  datatype State = State(
    active: bool,
    full: string,
    partial: string,
    subscriptions: nat,
    finals: seq<string>)

  /** A new state and the events emitted on the way to it, in order. */
  datatype Outcome = Outcome(state: State, events: seq<Event>)

  /** Before the first activation: idle, nothing attached, nothing accumulated. */
  const Initial := State(false, "", "", 0, [])

  /** A listening session always has its handlers attached. */
  predicate Attached(s: State) {
    s.active ==> s.subscriptions > 0
  }

  /** What every reachable state satisfies: the accumulated text is the merge
      of the fragments finalised so far, and the handlers are attached while
      listening. */
  predicate Valid(s: State) {
    s.full == Accumulate(s.finals) && Attached(s)
  }

  /** Start a session: a no-op while one is active. */
  function Activate(s: State): Outcome {
    if s.active then Outcome(s, [])
    else Outcome(State(true, "", "", s.subscriptions + 1, []), [SdkStart])
  }

  /** Stop listening: a no-op while idle; the handlers stay attached. */
  function Deactivate(s: State): Outcome {
    if !s.active then Outcome(s, [])
    else Outcome(s.(active := false), [SdkStop])
  }

  /** A final transcript arrives: while listening the SDK is restarted;
      the fragment is merged onto the accumulated text, the partial text is
      cleared and the running text published; when not listening the session
      ends, detaching the handlers and reporting the final text. */
  function FullTranscript(s: State, fragment: string): Outcome {
    var restart := if s.active then [SdkRestartNow] else [];
    var merged := s.(full := Merge(s.full, fragment), partial := "", finals := s.finals + [fragment]);
    var update := [Update(merged.full + merged.partial)];
    if s.active then Outcome(merged, restart + update)
    else Outcome(merged.(subscriptions := 0), update + [Finished(merged.full)])
  }

  /** A partial transcript arrives: it replaces the partial text and the
      running text is published. */
  function PartialTranscript(s: State, fragment: string): Outcome {
    var replaced := s.(partial := fragment);
    Outcome(replaced, [Update(replaced.full + replaced.partial)])
  }

  /** Stop, then finalise with the pending partial text as the fragment. */
  function StopAndFlush(s: State): Outcome {
    var stopped := Deactivate(s);
    var flushed := FullTranscript(stopped.state, stopped.state.partial);
    Outcome(flushed.state, stopped.events + flushed.events)
  }

  /** The SDK reports an error. */
  function Error(s: State): Outcome {
    StopAndFlush(s)
  }

  /** The application gains or loses focus; losing it while listening
      stops and flushes the session. */
  function ApplicationFocus(s: State, focus: bool): Outcome {
    if s.active && !focus then StopAndFlush(s) else Outcome(s, [])
  }

  /** What can happen to the transcriber: its two public calls, the three SDK
      notifications, and a focus change from the host. */
  datatype Input =
    | ActivateCall
    | DeactivateCall
    | FinalResult(text: string)
    | PartialResult(text: string)
    | SdkFailure
    | FocusChange(focus: bool)

  /** One input. SDK notifications reach the transcriber only while its
      handlers are attached. */
  function Apply(s: State, input: Input): Outcome {
    match input
    case ActivateCall => Activate(s)
    case DeactivateCall => Deactivate(s)
    case FinalResult(text) => if s.subscriptions == 0 then Outcome(s, []) else FullTranscript(s, text)
    case PartialResult(text) => if s.subscriptions == 0 then Outcome(s, []) else PartialTranscript(s, text)
    case SdkFailure => if s.subscriptions == 0 then Outcome(s, []) else Error(s)
    case FocusChange(focus) => ApplicationFocus(s, focus)
  }

  /** A sequence of inputs, one after the other. */
  function Run(s: State, inputs: seq<Input>): Outcome
    decreases |inputs|
  {
    if inputs == [] then Outcome(s, [])
    else
      var first := Apply(s, inputs[0]);
      var rest := Run(first.state, inputs[1..]);
      Outcome(rest.state, first.events + rest.events)
  }

  // ---------------------------------------------------------------------
  // One handler at a time

  /** Activating an active session changes nothing and emits nothing, so a
      second Activate has no effect beyond the first. */
  lemma ActivateWhileActive(s: State)
    requires s.active
    ensures Activate(s) == Outcome(s, [])
    ensures Activate(Activate(s).state) == Outcome(Activate(s).state, [])
  {
  }

  /** Activating from idle empties both buffers, starts listening, attaches
      the handlers once more and asks the SDK to start exactly once. */
  lemma ActivateFromIdle(s: State)
    requires !s.active
    ensures var r := Activate(s);
      r.state.active && r.state.full == "" && r.state.partial == "" &&
      r.state.subscriptions == s.subscriptions + 1 && r.events == [SdkStart] &&
      Valid(r.state)
  {
  }

  /** Deactivating while idle changes nothing; otherwise it only clears the
      active flag and asks the SDK to stop once, keeping both buffers and the
      handlers. */
  lemma DeactivateEffect(s: State)
    ensures !s.active ==> Deactivate(s) == Outcome(s, [])
    ensures s.active ==> Deactivate(s).events == [SdkStop] && Deactivate(s).state == s.(active := false)
  {
  }

  /** A partial transcript replaces the partial text, keeps the accumulated
      text and publishes exactly their concatenation. */
  lemma PartialTranscriptEffect(s: State, fragment: string)
    ensures var r := PartialTranscript(s, fragment);
      r.state == s.(partial := fragment) && r.events == [Update(s.full + fragment)]
  {
  }

  /** While listening, a final transcript restarts the SDK, keeps the
      session listening with its handlers attached, merges the fragment,
      empties the partial text and does not report the session finished. */
  lemma FullTranscriptWhileActive(s: State, fragment: string)
    requires s.active
    ensures var r := FullTranscript(s, fragment);
      r.state.active && r.state.subscriptions == s.subscriptions &&
      r.state.full == Merge(s.full, fragment) && r.state.partial == "" &&
      r.state.finals == s.finals + [fragment] &&
      r.events == [SdkRestartNow, Update(r.state.full)] &&
      forall e | e in r.events :: !e.Finished?
  {
    var full := FullTranscript(s, fragment).state.full;
    assert full + "" == full;
  }

  /** When not listening, a final transcript merges the fragment, detaches
      every handler and reports the session finished exactly once, with the
      final accumulated text, after publishing that text. */
  lemma FullTranscriptWhenIdle(s: State, fragment: string)
    requires !s.active
    ensures var r := FullTranscript(s, fragment);
      !r.state.active && r.state.subscriptions == 0 &&
      r.state.full == Merge(s.full, fragment) && r.state.partial == "" &&
      r.state.finals == s.finals + [fragment] &&
      r.events == [Update(r.state.full), Finished(r.state.full)] &&
      !(SdkRestartNow in r.events)
  {
    var full := FullTranscript(s, fragment).state.full;
    assert full + "" == full;
  }

  /** An error, at any time, stops the SDK if listening and then finalises
      with the pending partial text: the session ends idle and detached, and
      the finished report carries the accumulated text with the partial text
      merged onto it. */
  lemma ErrorFlushesPartial(s: State)
    ensures var r := Error(s);
      !r.state.active && r.state.subscriptions == 0 && r.state.partial == "" &&
      r.state.full == Merge(s.full, s.partial) && r.state.finals == s.finals + [s.partial] &&
      r.events == (if s.active then [SdkStop] else []) +
        [Update(r.state.full), Finished(r.state.full)]
  {
    var full := Error(s).state.full;
    assert full + "" == full;
  }

  /** Losing focus while listening behaves like an error; losing it while
      idle, or gaining focus, changes nothing. */
  lemma FocusEffect(s: State, focus: bool)
    ensures s.active && !focus ==> ApplicationFocus(s, focus) == Error(s)
    ensures !(s.active && !focus) ==> ApplicationFocus(s, focus) == Outcome(s, [])
  {
  }

  /** Every published update shows the state's accumulated text followed by
      its partial text. */
  lemma UpdatesShowRunningText(s: State, input: Input)
    ensures var r := Apply(s, input);
      forall e | e in r.events && e.Update? :: e.text == r.state.full + r.state.partial
  {
    var r := Apply(s, input);
    forall e | e in r.events && e.Update?
      ensures e.text == r.state.full + r.state.partial
    {
      match input
      case SdkFailure =>
        var stopped := Deactivate(s);
        assert e in FullTranscript(stopped.state, stopped.state.partial).events;
      case FocusChange(focus) =>
        if s.active && !focus {
          var stopped := Deactivate(s);
          assert e in FullTranscript(stopped.state, stopped.state.partial).events;
        }
      case _ =>
    }
  }

  /** A finished report is only ever the last word of a session: it carries
      the state's accumulated text, and the session is idle and detached. */
  lemma FinishedEndsSession(s: State, input: Input)
    ensures var r := Apply(s, input);
      forall e | e in r.events && e.Finished? ::
        e == r.events[|r.events| - 1] && e.text == r.state.full &&
        !r.state.active && r.state.subscriptions == 0
  {
    var r := Apply(s, input);
    forall e | e in r.events && e.Finished?
      ensures e == r.events[|r.events| - 1] && e.text == r.state.full
      ensures !r.state.active && r.state.subscriptions == 0
    {
      match input
      case SdkFailure =>
        var stopped := Deactivate(s);
        assert e in FullTranscript(stopped.state, stopped.state.partial).events;
      case FocusChange(focus) =>
        if s.active && !focus {
          var stopped := Deactivate(s);
          assert e in FullTranscript(stopped.state, stopped.state.partial).events;
        }
      case _ =>
    }
  }

  /** Every input keeps the state valid. */
  lemma ApplyPreservesValid(s: State, input: Input)
    requires Valid(s)
    ensures Valid(Apply(s, input).state)
  {
    match input
    case FinalResult(text) =>
      AccumulateAppend(s.finals, text);
    case SdkFailure =>
      var stopped := Deactivate(s).state;
      AccumulateAppend(stopped.finals, stopped.partial);
    case FocusChange(focus) =>
      var stopped := Deactivate(s).state;
      AccumulateAppend(stopped.finals, stopped.partial);
    case _ =>
  }

  // ---------------------------------------------------------------------
  // Whole runs

  /** Any sequence of inputs keeps the state valid. */
  lemma {:induction false} RunPreservesValid(s: State, inputs: seq<Input>)
    requires Valid(s)
    ensures Valid(Run(s, inputs).state)
    decreases |inputs|
  {
    if inputs != [] {
      ApplyPreservesValid(s, inputs[0]);
      RunPreservesValid(Apply(s, inputs[0]).state, inputs[1..]);
    }
  }

  /** Within a session nothing is lost: until the next Activate, the
      accumulated text only grows and the finalised fragments only extend. */
  lemma {:induction false} TextNeverLost(s: State, inputs: seq<Input>)
    requires forall k | 0 <= k < |inputs| :: inputs[k] != ActivateCall
    ensures s.full <= Run(s, inputs).state.full
    ensures s.finals <= Run(s, inputs).state.finals
    decreases |inputs|
  {
    if inputs != [] {
      var next := Apply(s, inputs[0]).state;
      assert s.full <= next.full && s.finals <= next.finals by {
        match inputs[0]
        case FinalResult(text) => MergeKeepsText(s.full, text);
        case _ => MergeKeepsText(s.full, s.partial);
      }
      TextNeverLost(next, inputs[1..]);
    }
  }

  /** Once a session has finished (idle, handlers detached), nothing but a new
      Activate has any effect: late SDK notifications, Deactivate and focus
      changes change no state and emit nothing. */
  lemma {:induction false} QuietAfterFinish(s: State, inputs: seq<Input>)
    requires !s.active && s.subscriptions == 0
    requires forall k | 0 <= k < |inputs| :: inputs[k] != ActivateCall
    ensures Run(s, inputs) == Outcome(s, [])
    decreases |inputs|
  {
    if inputs != [] {
      assert Apply(s, inputs[0]) == Outcome(s, []);
      QuietAfterFinish(s, inputs[1..]);
    }
  }

  /** How many finished reports a sequence of events holds. */
  function FinishedCount(events: seq<Event>): nat {
    if events == [] then 0
    else (if events[0].Finished? then 1 else 0) + FinishedCount(events[1..])
  }

  lemma {:induction false} FinishedCountAppend(a: seq<Event>, b: seq<Event>)
    ensures FinishedCount(a + b) == FinishedCount(a) + FinishedCount(b)
    decreases |a|
  {
    if a == [] {
      assert a + b == b;
    } else {
      assert (a + b)[0] == a[0];
      assert (a + b)[1..] == a[1..] + b;
      FinishedCountAppend(a[1..], b);
    }
  }

  /** The finished reports in a single event. */
  lemma FinishedCountSingle(x: Event)
    ensures FinishedCount([x]) == (if x.Finished? then 1 else 0)
  {
    assert [x][1..] == [];
  }

  /** The finished reports in two events. */
  lemma FinishedCountPair(x: Event, y: Event)
    ensures FinishedCount([x, y]) == FinishedCount([x]) + FinishedCount([y])
  {
    FinishedCountSingle(x);
    FinishedCountSingle(y);
    assert [x, y][1..] == [y];
  }

  /** A final transcript reports a finish exactly when it ends the session. */
  lemma FullTranscriptFinishes(s: State, fragment: string)
    ensures var r := FullTranscript(s, fragment);
      FinishedCount(r.events) == (if s.active then 0 else 1)
  {
    var r := FullTranscript(s, fragment);
    FinishedCountPair(r.events[0], r.events[1]);
    FinishedCountSingle(r.events[0]);
    FinishedCountSingle(r.events[1]);
    assert r.events == [r.events[0], r.events[1]];
  }

  /** One input reports at most one finish, and only when it leaves the
      session idle and detached. */
  lemma ApplyFinishesAtMostOnce(s: State, input: Input)
    ensures var r := Apply(s, input);
      FinishedCount(r.events) <= 1 &&
      (FinishedCount(r.events) == 1 ==> !r.state.active && r.state.subscriptions == 0)
  {
    var r := Apply(s, input);
    if r.events != [] {
      match input
      case ActivateCall =>
        FinishedCountSingle(SdkStart);
      case DeactivateCall =>
        FinishedCountSingle(SdkStop);
      case FinalResult(text) =>
        FullTranscriptFinishes(s, text);
      case PartialResult(text) =>
        FinishedCountSingle(r.events[0]);
      case SdkFailure =>
        var stopped := Deactivate(s);
        FullTranscriptFinishes(stopped.state, stopped.state.partial);
        FinishedCountSingle(SdkStop);
        FinishedCountAppend(stopped.events, FullTranscript(stopped.state, stopped.state.partial).events);
      case FocusChange(focus) =>
        var stopped := Deactivate(s);
        FullTranscriptFinishes(stopped.state, stopped.state.partial);
        FinishedCountSingle(SdkStop);
        FinishedCountAppend(stopped.events, FullTranscript(stopped.state, stopped.state.partial).events);
    }
  }

  /** Within a session the finished report comes at most once: until the
      next Activate, whatever the SDK, the host or the caller do, provided
      the handlers are attached at most once (each SDK notification then
      reaches one copy of each handler). */
  lemma {:induction false} FinishedAtMostOnce(s: State, inputs: seq<Input>)
    requires s.subscriptions <= 1
    requires forall k | 0 <= k < |inputs| :: inputs[k] != ActivateCall
    ensures FinishedCount(Run(s, inputs).events) <= 1
    decreases |inputs|
  {
    if inputs != [] {
      var first := Apply(s, inputs[0]);
      var rest := Run(first.state, inputs[1..]);
      assert first.state.subscriptions <= s.subscriptions;
      ApplyFinishesAtMostOnce(s, inputs[0]);
      FinishedCountAppend(first.events, rest.events);
      if FinishedCount(first.events) == 1 {
        QuietAfterFinish(first.state, inputs[1..]);
      } else {
        FinishedAtMostOnce(first.state, inputs[1..]);
      }
    }
  }

  /** Activate twice in a row has the effect of activating once. */
  lemma ActivateTwiceIsOnce(s: State)
    ensures Run(s, [ActivateCall, ActivateCall]) == Run(s, [ActivateCall])
  {
    assert [ActivateCall, ActivateCall][1..] == [ActivateCall];
    assert Run(Activate(s).state, []) == Outcome(Activate(s).state, []);
  }

  /** Deactivate while idle has no effect. */
  lemma DeactivateWhenIdleIsNoOp(s: State)
    requires !s.active
    ensures Run(s, [DeactivateCall]) == Outcome(s, [])
  {
  }

  // ---------------------------------------------------------------------
  // Scenarios

  /** Running a first input and then the rest. */
  lemma RunFirst(s: State, input: Input, rest: seq<Input>)
    ensures var first := Apply(s, input); var tail := Run(first.state, rest);
      Run(s, [input] + rest) == Outcome(tail.state, first.events + tail.events)
  {
    assert ([input] + rest)[1..] == rest;
  }

  /** Running a single input is applying it. */
  lemma RunSingle(s: State, input: Input)
    ensures Run(s, [input]) == Apply(s, input)
  {
    RunFirst(s, input, []);
    assert Apply(s, input).events + [] == Apply(s, input).events;
  }

  /** Continuous dictation: partial results are published as they come, and
      a final result while listening restarts the SDK, keeps the session
      going and publishes the accumulated text with the partial text cleared. */
  lemma ContinuousDictation()
    ensures Run(Initial, [ActivateCall, PartialResult("he"), PartialResult("hello"), FinalResult("hello")])
      == Outcome(State(true, "hello", "", 1, ["hello"]),
                 [SdkStart, Update("he"), Update("hello"), SdkRestartNow, Update("hello")])
  {
    var listening := State(true, "", "", 1, []);
    var heard := State(true, "hello", "", 1, ["hello"]);
    var finalEvents := [SdkRestartNow, Update("hello")];
    assert Apply(listening.(partial := "hello"), FinalResult("hello")) == Outcome(heard, finalEvents) by {
      FullTranscriptWhileActive(listening.(partial := "hello"), "hello");
      MergeWithBlank("", "hello");
      assert "" + "" + "hello" == "hello";
      assert [] + ["hello"] == ["hello"];
    }
    RunSingle(listening.(partial := "hello"), FinalResult("hello"));
    assert "" + "he" == "he" && "" + "hello" == "hello";
    RunFirst(listening.(partial := "he"), PartialResult("hello"), [FinalResult("hello")]);
    assert Run(listening.(partial := "he"), [PartialResult("hello"), FinalResult("hello")])
      == Outcome(heard, [Update("hello")] + finalEvents);
    RunFirst(listening, PartialResult("he"), [PartialResult("hello"), FinalResult("hello")]);
    assert Run(listening, [PartialResult("he"), PartialResult("hello"), FinalResult("hello")])
      == Outcome(heard, [Update("he")] + ([Update("hello")] + finalEvents));
    RunFirst(Initial, ActivateCall, [PartialResult("he"), PartialResult("hello"), FinalResult("hello")]);
  }

  /** The merges the scenarios below perform: a fragment that starts with
      text, after "hello", becomes a new sentence. */
  lemma MergeAfterHello(fragment: string)
    requires |fragment| > 0 && !IsWhiteSpace(fragment[0])
    ensures Merge("hello", fragment) == "hello. " + fragment
  {
    assert !IsWhiteSpace("hello"[0]);
  }

  /** The first final result of a session is taken as it is. */
  lemma FirstFinalHello()
    ensures Apply(State(true, "", "", 1, []), FinalResult("hello"))
      == Outcome(State(true, "hello", "", 1, ["hello"]), [SdkRestartNow, Update("hello")])
  {
    FullTranscriptWhileActive(State(true, "", "", 1, []), "hello");
    MergeWithBlank("", "hello");
    assert "" + "hello" == "hello";
    assert [] + ["hello"] == ["hello"];
  }

  /** A final result after Deactivate ends the session. */
  lemma TerminalFinalWorld()
    ensures Apply(State(false, "hello", "", 1, ["hello"]), FinalResult("world"))
      == Outcome(State(false, "hello. world", "", 0, ["hello", "world"]),
                 [Update("hello. world"), Finished("hello. world")])
  {
    FullTranscriptWhenIdle(State(false, "hello", "", 1, ["hello"]), "world");
    MergeAfterHello("world");
    assert "hello. " + "world" == "hello. world";
    assert ["hello"] + ["world"] == ["hello", "world"];
  }

  /** An error flushes the pending partial result. */
  lemma ErrorFlushesPar()
    ensures Apply(State(true, "hello", "par", 1, ["hello"]), SdkFailure)
      == Outcome(State(false, "hello. par", "", 0, ["hello", "par"]),
                 [SdkStop, Update("hello. par"), Finished("hello. par")])
  {
    ErrorFlushesPartial(State(true, "hello", "par", 1, ["hello"]));
    MergeAfterHello("par");
    assert "hello. " + "par" == "hello. par";
    assert ["hello"] + ["par"] == ["hello", "par"];
  }

  /** After "hello" has been heard: stop, then the late final result and a
      later partial result. */
  lemma StopFromHello()
    ensures Run(State(true, "hello", "", 1, ["hello"]), [DeactivateCall, FinalResult("world"), PartialResult("late")])
      == Outcome(State(false, "hello. world", "", 0, ["hello", "world"]),
                 [SdkStop, Update("hello. world"), Finished("hello. world")])
  {
    var heard := State(true, "hello", "", 1, ["hello"]);
    var finished := State(false, "hello. world", "", 0, ["hello", "world"]);
    var reports := [Update("hello. world"), Finished("hello. world")];
    TerminalFinalWorld();
    RunSingle(finished, PartialResult("late"));
    RunFirst(heard.(active := false), FinalResult("world"), [PartialResult("late")]);
    assert Run(heard.(active := false), [FinalResult("world"), PartialResult("late")])
      == Outcome(finished, reports + []);
    RunFirst(heard, DeactivateCall, [FinalResult("world"), PartialResult("late")]);
    assert [SdkStop] + (reports + []) == [SdkStop, Update("hello. world"), Finished("hello. world")];
  }

  /** Stopping by hand: the final result that arrives after Deactivate ends
      the session, merged with a full stop, and is reported finished once;
      a later partial result finds no handler attached. */
  lemma StopThenLateFinal()
    ensures Run(Initial, [ActivateCall, FinalResult("hello"), DeactivateCall, FinalResult("world"), PartialResult("late")])
      == Outcome(State(false, "hello. world", "", 0, ["hello", "world"]),
                 [SdkStart, SdkRestartNow, Update("hello"), SdkStop, Update("hello. world"), Finished("hello. world")])
  {
    var rest := [DeactivateCall, FinalResult("world"), PartialResult("late")];
    var stopping := [SdkStop, Update("hello. world"), Finished("hello. world")];
    FirstFinalHello();
    StopFromHello();
    RunFirst(State(true, "", "", 1, []), FinalResult("hello"), rest);
    RunFirst(Initial, ActivateCall, [FinalResult("hello")] + rest);
    assert [ActivateCall, FinalResult("hello"), DeactivateCall, FinalResult("world"), PartialResult("late")]
      == [ActivateCall] + ([FinalResult("hello")] + rest);
    assert [SdkStart] + ([SdkRestartNow, Update("hello")] + stopping)
      == [SdkStart, SdkRestartNow, Update("hello"), SdkStop, Update("hello. world"), Finished("hello. world")];
  }

  /** A partial result while listening shows after the accumulated text. */
  lemma PartialPar()
    ensures Apply(State(true, "hello", "", 1, ["hello"]), PartialResult("par"))
      == Outcome(State(true, "hello", "par", 1, ["hello"]), [Update("hellopar")])
  {
    assert "hello" + "par" == "hellopar";
  }

  /** After "hello" has been heard: a partial result, then the error. */
  lemma ErrorFromHello()
    ensures Run(State(true, "hello", "", 1, ["hello"]), [PartialResult("par"), SdkFailure])
      == Outcome(State(false, "hello. par", "", 0, ["hello", "par"]),
                 [Update("hellopar"), SdkStop, Update("hello. par"), Finished("hello. par")])
  {
    var heard := State(true, "hello", "", 1, ["hello"]);
    ErrorFlushesPar();
    RunSingle(heard.(partial := "par"), SdkFailure);
    PartialPar();
    RunFirst(heard, PartialResult("par"), [SdkFailure]);
  }

  /** An SDK error while listening stops the SDK and flushes the pending
      partial text as the last fragment. */
  lemma ErrorScenario()
    ensures Run(Initial, [ActivateCall, FinalResult("hello"), PartialResult("par"), SdkFailure])
      == Outcome(State(false, "hello. par", "", 0, ["hello", "par"]),
                 [SdkStart, SdkRestartNow, Update("hello"), Update("hellopar"), SdkStop,
                  Update("hello. par"), Finished("hello. par")])
  {
    var rest := [PartialResult("par"), SdkFailure];
    var flushing := [Update("hellopar"), SdkStop, Update("hello. par"), Finished("hello. par")];
    FirstFinalHello();
    ErrorFromHello();
    RunFirst(State(true, "", "", 1, []), FinalResult("hello"), rest);
    RunFirst(Initial, ActivateCall, [FinalResult("hello")] + rest);
    assert [ActivateCall, FinalResult("hello"), PartialResult("par"), SdkFailure]
      == [ActivateCall] + ([FinalResult("hello")] + rest);
    assert [SdkStart] + ([SdkRestartNow, Update("hello")] + flushing)
      == [SdkStart, SdkRestartNow, Update("hello"), Update("hellopar"), SdkStop,
          Update("hello. par"), Finished("hello. par")];
  }

  /** Losing focus while listening behaves exactly like the error. */
  lemma FocusLossScenario()
    ensures Run(Initial, [ActivateCall, FinalResult("hello"), PartialResult("par"), FocusChange(false)])
      == Run(Initial, [ActivateCall, FinalResult("hello"), PartialResult("par"), SdkFailure])
  {
    var listening := State(true, "", "", 1, []);
    var pending := Apply(Apply(listening, FinalResult("hello")).state, PartialResult("par")).state;
    assert pending.active;
    RunFirst(pending, SdkFailure, []);
    RunFirst(pending, FocusChange(false), []);
    var heard := Apply(listening, FinalResult("hello")).state;
    RunFirst(heard, PartialResult("par"), [SdkFailure]);
    RunFirst(heard, PartialResult("par"), [FocusChange(false)]);
    RunFirst(listening, FinalResult("hello"), [PartialResult("par"), SdkFailure]);
    RunFirst(listening, FinalResult("hello"), [PartialResult("par"), FocusChange(false)]);
    RunFirst(Initial, ActivateCall, [FinalResult("hello"), PartialResult("par"), SdkFailure]);
    RunFirst(Initial, ActivateCall, [FinalResult("hello"), PartialResult("par"), FocusChange(false)]);
  }

  /** Deactivate does not detach the handlers, so activating again before the
      terminal final result arrives attaches a second set of them. */
  lemma ReactivateBeforeFinishSubscribesTwice()
    ensures Run(Initial, [ActivateCall, DeactivateCall, ActivateCall]).state.subscriptions == 2
  {
    var listening := State(true, "", "", 1, []);
    RunFirst(listening.(active := false), ActivateCall, []);
    RunFirst(listening, DeactivateCall, [ActivateCall]);
    RunFirst(Initial, ActivateCall, [DeactivateCall, ActivateCall]);
  }
}
