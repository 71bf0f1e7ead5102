/** What a desktop tick promises: at most one input-field call, chosen by a
    fixed priority list, no audio cue, and a backspace repeat that fires only
    after more than INERTIA milliseconds have passed since the last one. */
module DesktopProps {
  import opened Options
  import opened Dispatch

  /** One row of the priority list: whether its condition holds this tick,
      and the call it makes. */
  datatype Rule = Rule(holds: bool, call: Call)

  /** The desktop conditions in priority order, given the backspace timer
      after this tick's time was added. */
  function Rules(input: TickInput, elapsed: nat): seq<Rule>
  {
    [ Rule(input.returnDown, OnEnterPressed),
      Rule(input.tabDown, OnTabPressed),
      Rule(input.spaceDown, OnSpacePressed),
      Rule(input.backspaceHeld && elapsed > INERTIA, OnBackSpacePressed),
      Rule(input.inputString != "", OnKeyPressed(input.inputString)),
      Rule(input.rightMouseDown, OnKeyPressed(input.clipboard)) ]
  }

  /** The call of the first rule that holds: none exactly when no rule holds,
      otherwise that of a holding rule with no holding rule before it. */
  function FirstMatch(rules: seq<Rule>): (r: Option<Call>)
    ensures r.None? <==> forall k :: 0 <= k < |rules| ==> !rules[k].holds
    ensures r.Some? ==> exists k :: && 0 <= k < |rules| && rules[k].holds && rules[k].call == r.value
                                    && forall j :: 0 <= j < k ==> !rules[j].holds
  {
    if rules == [] then None
    else if rules[0].holds then Some(rules[0].call)
    else
      var r := FirstMatch(rules[1..]);
      assert forall k :: 1 <= k < |rules| ==> rules[k] == rules[1..][k - 1];
      r
  }

  /** The desktop branch is a first-match over the priority list, entered
      only while some key is down. */
  lemma DesktopChoiceIsFirstMatch(input: TickInput, elapsed: nat)
    ensures DesktopChoice(input, elapsed)
            == if input.anyKey then FirstMatch(Rules(input, elapsed)) else None
  {
    var r0 := Rules(input, elapsed);
    var r1 := r0[1..];
    var r2 := r1[1..];
    var r3 := r2[1..];
    var r4 := r3[1..];
    var r5 := r4[1..];
    assert r5[1..] == [];
    assert FirstMatch(r5) == if input.rightMouseDown then Some(OnKeyPressed(input.clipboard)) else None;
    assert FirstMatch(r4) == if input.inputString != "" then Some(OnKeyPressed(input.inputString)) else FirstMatch(r5);
    assert FirstMatch(r3) == if input.backspaceHeld && elapsed > INERTIA then Some(OnBackSpacePressed) else FirstMatch(r4);
    assert FirstMatch(r2) == if input.spaceDown then Some(OnSpacePressed) else FirstMatch(r3);
    assert FirstMatch(r1) == if input.tabDown then Some(OnTabPressed) else FirstMatch(r2);
  }

  /** A desktop tick makes at most one call, plays no audio cue and, with no
      key down, only advances the timer. */
  lemma AtMostOneCall(inertia: nat, target: Option<InputField>, input: TickInput)
    ensures var e := DesktopTick(inertia, target, input);
            && |e.events| <= 1
            && (forall ev :: ev in e.events ==> ev.Called? && Some(ev.field) == target)
            && KeyStroke !in e.events
            && (!input.anyKey ==> e.events == [] && e.inertia == inertia + input.delta)
  {
  }

  /** Return pressed together with anything else: only the enter call fires. */
  lemma ReturnWins(inertia: nat, f: InputField, input: TickInput)
    requires input.anyKey && input.returnDown
    ensures DesktopTick(inertia, Some(f), input).events == [Called(f, OnEnterPressed)]
  {
  }

  /** The timer grows by the tick's time, except that a backspace dispatch,
      which needs it strictly past INERTIA, restarts it at zero. */
  lemma TimerRule(inertia: nat, target: Option<InputField>, input: TickInput)
    ensures var e := DesktopTick(inertia, target, input);
            var backspace := DesktopChoice(input, inertia + input.delta) == Some(OnBackSpacePressed);
            && (backspace ==> e.inertia == 0 && inertia + input.delta > INERTIA && input.backspaceHeld)
            && (!backspace ==> e.inertia == inertia + input.delta)
  {
  }

  /** A run of desktop ticks, the timer carried from one to the next. */
  function DesktopRun(inertia: nat, target: Option<InputField>, inputs: seq<TickInput>): DesktopEffect
    decreases |inputs|
  {
    if inputs == [] then DesktopEffect(inertia, [])
    else
      var first := DesktopTick(inertia, target, inputs[0]);
      var rest := DesktopRun(first.inertia, target, inputs[1..]);
      DesktopEffect(rest.inertia, first.events + rest.events)
  }

  /** The time a run of ticks covers. */
  function TotalTime(inputs: seq<TickInput>): nat
    decreases |inputs|
  {
    if inputs == [] then 0 else inputs[0].delta + TotalTime(inputs[1..])
  }

  /** Backspace repeats are rate-limited: each one uses up more than INERTIA
      milliseconds of the run's time, so over a run of T milliseconds
      starting from timer t there are at most (t + T) / (INERTIA + 1). */
  lemma {:induction false} BackspaceRepeatRate(inertia: nat, f: InputField, inputs: seq<TickInput>)
    ensures var r := DesktopRun(inertia, Some(f), inputs);
            multiset(r.events)[Called(f, OnBackSpacePressed)] * (INERTIA + 1) + r.inertia
            <= inertia + TotalTime(inputs)
    decreases |inputs|
  {
    if inputs != [] {
      var first := DesktopTick(inertia, Some(f), inputs[0]);
      var rest := DesktopRun(first.inertia, Some(f), inputs[1..]);
      BackspaceRepeatRate(first.inertia, f, inputs[1..]);
      TimerRule(inertia, Some(f), inputs[0]);
      AtMostOneCall(inertia, Some(f), inputs[0]);
      assert multiset(first.events + rest.events) == multiset(first.events) + multiset(rest.events);
      if first.inertia == 0 && DesktopChoice(inputs[0], inertia + inputs[0].delta) == Some(OnBackSpacePressed) {
        assert first.events == [Called(f, OnBackSpacePressed)];
      } else {
        assert multiset(first.events)[Called(f, OnBackSpacePressed)] == 0;
      }
    }
  }

  /** Backspace held alone, with frames of 50 milliseconds. */
  const HeldBackspace: TickInput := TickInput(true, false, false, false, true, "", false, "", 50)

  /** Holding backspace for 250 milliseconds in 50-millisecond frames from a
      fresh timer deletes once: the timer reaches 100 at the second frame,
      which is not past INERTIA, and fires at 150. */
  lemma HeldBackspaceFor250(f: InputField)
    ensures DesktopRun(0, Some(f), [HeldBackspace, HeldBackspace, HeldBackspace, HeldBackspace, HeldBackspace]).events
            == [Called(f, OnBackSpacePressed)]
  {
    var h := HeldBackspace;
    assert [h, h][1..] == [h] && [h, h, h][1..] == [h, h] && [h, h, h, h][1..] == [h, h, h];
    assert [h, h, h, h, h][1..] == [h, h, h, h];
    assert DesktopRun(50, Some(f), [h]).events == [];
    assert DesktopRun(0, Some(f), [h, h]).events == [];
    assert DesktopRun(100, Some(f), [h, h, h]).events == [Called(f, OnBackSpacePressed)];
    assert DesktopRun(50, Some(f), [h, h, h, h]).events == [Called(f, OnBackSpacePressed)];
  }
}
