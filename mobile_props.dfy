/** What a mobile tick promises: the input field receives one call per
    buffered entry that stands for one, specials first, each buffer in the
    order its entries were pressed; every entry plays one audio cue; SHIFT
    and SYMBOL toggle the pad in pairs and keep romaji and symbol exclusive. */
module MobileProps {
  import opened Options
  import opened SKeyCodes
  import opened Dispatch

  /** The input-field calls among `events`, in order. */
  function Calls(events: seq<Event>): seq<Event>
  {
    if events == [] then []
    else (if events[0].Called? then [events[0]] else []) + Calls(events[1..])
  }

  /** The dispatch table of the special keys: the call each code stands for;
      the arrow keys stand for none. */
  function TableCall(code: SKeyCode): Option<Call>
  {
    match code
    case BACKSPACE => Some(OnBackSpacePressed)
    case RETURN => Some(OnEnterPressed)
    case SHIFT => Some(OnShiftPressed)
    case SPACE => Some(OnSpacePressed)
    case TAB => Some(OnTabPressed)
    case SYMBOL => Some(OnSymbolPressed)
    case UP | DOWN | LEFT | RIGHT => None
  }

  /** The calls on field `f` that a run of special codes stands for, in order. */
  function TableCalls(f: InputField, codes: seq<SKeyCode>): seq<Event>
  {
    if codes == [] then []
    else
      (match TableCall(codes[0]) case None => [] case Some(c) => [Called(f, c)])
      + TableCalls(f, codes[1..])
  }

  /** The calls on field `f` that typing `keys` stands for, in order. */
  function TypedCalls(f: InputField, keys: seq<string>): seq<Event>
  {
    seq(|keys|, i requires 0 <= i < |keys| => Called(f, OnKeyPressed(keys[i])))
  }

  lemma {:induction false} CallsAppend(a: seq<Event>, b: seq<Event>)
    ensures Calls(a + b) == Calls(a) + Calls(b)
  {
    if a == [] {
      assert a + b == b;
    } else {
      assert (a + b)[1..] == a[1..] + b;
      CallsAppend(a[1..], b);
    }
  }

  lemma {:induction false} CallsNone(s: seq<Event>)
    requires forall e :: e in s ==> !e.Called?
    ensures Calls(s) == []
  {
    if s != [] {
      assert forall e :: e in s[1..] ==> e in s;
      CallsNone(s[1..]);
    }
  }

  lemma {:induction false} TableCallsSnoc(f: InputField, codes: seq<SKeyCode>, c: SKeyCode)
    ensures TableCalls(f, codes + [c]) == TableCalls(f, codes) + TableCalls(f, [c])
  {
    if codes != [] {
      assert (codes + [c])[1..] == codes[1..] + [c];
      TableCallsSnoc(f, codes[1..], c);
    }
  }

  /** One special code makes exactly the call the table gives for it. */
  lemma StepCalls(p: Pad, f: InputField, keyCount: nat, code: SKeyCode)
    ensures Calls(SpecialStep(p, Some(f), keyCount, code).events) == TableCalls(f, [code])
  {
    assert [code][1..] == [];
    var tail := [KeyStroke];
    CallsNone(tail);
    CallsNone(Broadcast(keyCount));
    match code {
      case SHIFT =>
        CallsAppend(Broadcast(keyCount) + [Called(f, OnShiftPressed)], tail);
        CallsAppend(Broadcast(keyCount), [Called(f, OnShiftPressed)]);
      case UP =>
      case DOWN =>
      case LEFT =>
      case RIGHT =>
      case _ =>
        CallsAppend(Notify(Some(f), TableCall(code).value), tail);
    }
  }

  /** The special buffer makes the table's calls, in buffer order. */
  lemma {:induction false} SpecialCallsInOrder(p: Pad, f: InputField, keyCount: nat, codes: seq<SKeyCode>)
    ensures Calls(DrainSpecials(p, Some(f), keyCount, codes).events) == TableCalls(f, codes)
    decreases |codes|
  {
    if codes != [] {
      var init, last := codes[..|codes| - 1], codes[|codes| - 1];
      assert codes == init + [last];
      var before := DrainSpecials(p, Some(f), keyCount, init);
      SpecialCallsInOrder(p, f, keyCount, init);
      CallsAppend(before.events, SpecialStep(before.pad, Some(f), keyCount, last).events);
      StepCalls(before.pad, f, keyCount, last);
      TableCallsSnoc(f, init, last);
    }
  }

  /** The character buffer is typed into the field, in buffer order. */
  lemma {:induction false} KeyCallsInOrder(f: InputField, keys: seq<string>)
    ensures Calls(DrainKeys(Some(f), keys)) == TypedCalls(f, keys)
    decreases |keys|
  {
    if keys != [] {
      var init, last := keys[..|keys| - 1], keys[|keys| - 1];
      KeyCallsInOrder(f, init);
      CallsAppend(DrainKeys(Some(f), init) + [Called(f, OnKeyPressed(last))], [KeyStroke]);
      CallsAppend(DrainKeys(Some(f), init), [Called(f, OnKeyPressed(last))]);
      CallsNone([KeyStroke]);
      assert TypedCalls(f, keys) == TypedCalls(f, init) + [Called(f, OnKeyPressed(last))];
    }
  }

  /** With a field attached, a mobile tick calls it once per buffered entry
      that stands for a call: all specials first, then all characters, each
      in the order pressed. */
  lemma MobileCallsInOrder(p: Pad, f: InputField, keyCount: nat, codes: seq<SKeyCode>, keys: seq<string>)
    ensures Calls(MobileTick(p, Some(f), keyCount, codes, keys).events)
            == TableCalls(f, codes) + TypedCalls(f, keys)
  {
    var specials := DrainSpecials(p, Some(f), keyCount, codes);
    CallsAppend(specials.events, DrainKeys(Some(f), keys));
    SpecialCallsInOrder(p, f, keyCount, codes);
    KeyCallsInOrder(f, keys);
  }

  /** Presses 'a', 'b', SHIFT, 'C' within one frame: the shift reaches the
      field before any character, since the special buffer drains first. */
  lemma SameFrameShiftComesFirst(p: Pad, f: InputField, keyCount: nat)
    ensures Calls(MobileTick(p, Some(f), keyCount, [SHIFT], ["a", "b", "C"]).events)
            == [Called(f, OnShiftPressed), Called(f, OnKeyPressed("a")),
                Called(f, OnKeyPressed("b")), Called(f, OnKeyPressed("C"))]
  {
    MobileCallsInOrder(p, f, keyCount, [SHIFT], ["a", "b", "C"]);
    assert TableCalls(f, [SHIFT]) == [Called(f, OnShiftPressed)];
  }

  /** Without a field, a mobile tick calls nothing. */
  lemma {:induction false} NoFieldNoCalls(p: Pad, keyCount: nat, codes: seq<SKeyCode>, keys: seq<string>)
    ensures Calls(MobileTick(p, None, keyCount, codes, keys).events) == []
  {
    var e := MobileTick(p, None, keyCount, codes, keys);
    SpecialsCallNothing(p, keyCount, codes);
    KeysCallNothing(keys);
    CallsNone(e.events);
  }

  lemma {:induction false} SpecialsCallNothing(p: Pad, keyCount: nat, codes: seq<SKeyCode>)
    ensures forall e :: e in DrainSpecials(p, None, keyCount, codes).events ==> !e.Called?
    decreases |codes|
  {
    if codes != [] {
      SpecialsCallNothing(p, keyCount, codes[..|codes| - 1]);
    }
  }

  lemma {:induction false} KeysCallNothing(keys: seq<string>)
    ensures forall e :: e in DrainKeys(None, keys) ==> !e.Called?
    decreases |keys|
  {
    if keys != [] {
      KeysCallNothing(keys[..|keys| - 1]);
    }
  }

  /** Every buffered entry plays exactly one audio cue, the arrow keys
      included, although they reach no call. */
  lemma {:induction false} OneCuePerEntry(p: Pad, target: Option<InputField>, keyCount: nat,
                                          codes: seq<SKeyCode>, keys: seq<string>)
    ensures multiset(MobileTick(p, target, keyCount, codes, keys).events)[KeyStroke] == |codes| + |keys|
  {
    SpecialCues(p, target, keyCount, codes);
    KeyCues(target, keys);
  }

  lemma {:induction false} SpecialCues(p: Pad, target: Option<InputField>, keyCount: nat, codes: seq<SKeyCode>)
    ensures multiset(DrainSpecials(p, target, keyCount, codes).events)[KeyStroke] == |codes|
    decreases |codes|
  {
    if codes != [] {
      var init := codes[..|codes| - 1];
      var before := DrainSpecials(p, target, keyCount, init);
      var step := SpecialStep(before.pad, target, keyCount, codes[|codes| - 1]);
      SpecialCues(p, target, keyCount, init);
      StepCue(before.pad, target, keyCount, codes[|codes| - 1]);
      assert multiset(before.events + step.events) == multiset(before.events) + multiset(step.events);
    }
  }

  lemma StepCue(p: Pad, target: Option<InputField>, keyCount: nat, code: SKeyCode)
    ensures multiset(SpecialStep(p, target, keyCount, code).events)[KeyStroke] == 1
  {
  }

  lemma {:induction false} KeyCues(target: Option<InputField>, keys: seq<string>)
    ensures multiset(DrainKeys(target, keys))[KeyStroke] == |keys|
    decreases |keys|
  {
    if keys != [] {
      KeyCues(target, keys[..|keys| - 1]);
      assert KeyStroke !in Notify(target, OnKeyPressed(keys[|keys| - 1]));
    }
  }

  /** The pad after the special buffer: shift flipped once per SHIFT, romaji
      flipped once per SYMBOL, and romaji and symbol exclusive if they were
      before or if any SYMBOL was pressed. */
  lemma {:induction false} PadAfterSpecials(p: Pad, target: Option<InputField>, keyCount: nat, codes: seq<SKeyCode>)
    ensures var q := DrainSpecials(p, target, keyCount, codes).pad;
            && q.shift == (p.shift != (multiset(codes)[SHIFT] % 2 == 1))
            && q.romaji == (p.romaji != (multiset(codes)[SYMBOL] % 2 == 1))
            && (p.romaji != p.symbol || SYMBOL in codes ==> q.romaji != q.symbol)
    decreases |codes|
  {
    if codes != [] {
      var init, last := codes[..|codes| - 1], codes[|codes| - 1];
      assert codes == init + [last];
      assert multiset(codes) == multiset(init) + multiset{last};
      PadAfterSpecials(p, target, keyCount, init);
    }
  }

  /** Two more SHIFT presses leave the pad as it would be without them. */
  lemma ShiftTwiceRestores(p: Pad, target: Option<InputField>, keyCount: nat, codes: seq<SKeyCode>)
    ensures DrainSpecials(p, target, keyCount, codes + [SHIFT, SHIFT]).pad
            == DrainSpecials(p, target, keyCount, codes).pad
  {
    var twice := codes + [SHIFT, SHIFT];
    assert twice[..|twice| - 1] == codes + [SHIFT];
    assert (codes + [SHIFT])[..|codes|] == codes;
  }

  /** Every key under the key box receives OnShift once per SHIFT press. */
  lemma {:induction false} EveryKeyShifted(p: Pad, target: Option<InputField>, keyCount: nat,
                                           codes: seq<SKeyCode>, j: nat)
    requires j < keyCount
    ensures multiset(DrainSpecials(p, target, keyCount, codes).events)[KeyShifted(j)]
            == multiset(codes)[SHIFT]
    decreases |codes|
  {
    if codes != [] {
      var init, last := codes[..|codes| - 1], codes[|codes| - 1];
      assert codes == init + [last];
      assert multiset(codes) == multiset(init) + multiset{last};
      var before := DrainSpecials(p, target, keyCount, init);
      var step := SpecialStep(before.pad, target, keyCount, last);
      EveryKeyShifted(p, target, keyCount, init, j);
      StepShifts(before.pad, target, keyCount, last, j);
      assert multiset(before.events + step.events) == multiset(before.events) + multiset(step.events);
    }
  }

  lemma StepShifts(p: Pad, target: Option<InputField>, keyCount: nat, code: SKeyCode, j: nat)
    requires j < keyCount
    ensures multiset(SpecialStep(p, target, keyCount, code).events)[KeyShifted(j)]
            == if code == SHIFT then 1 else 0
  {
    match code {
      case SHIFT =>
        BroadcastOnce(keyCount, j);
        assert KeyShifted(j) !in Notify(target, OnShiftPressed) + [KeyStroke];
      case UP =>
      case DOWN =>
      case LEFT =>
      case RIGHT =>
      case _ =>
        assert KeyShifted(j) !in Notify(target, TableCall(code).value) + [KeyStroke];
    }
  }

  lemma {:induction false} BroadcastOnce(keyCount: nat, j: nat)
    requires j < keyCount
    ensures multiset(Broadcast(keyCount))[KeyShifted(j)] == 1
    decreases keyCount
  {
    assert Broadcast(keyCount) == Broadcast(keyCount - 1) + [KeyShifted(keyCount - 1)];
    if j < keyCount - 1 {
      BroadcastOnce(keyCount - 1, j);
    } else {
      assert KeyShifted(j) !in Broadcast(keyCount - 1);
    }
  }
}
