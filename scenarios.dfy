/**
 * End-to-end runs of a small machine on one tape: two states, the
 * alphabet {*, 0, 1}, the single transition (q0, [0]) -> (q1, [move
 * right]) and q1 final.
 */
module Scenarios {
  import opened Defs
  import opened Tapes
  import opened Alphabets
  import opened Machines
  import opened ComputationModel

  /** `Alphabet::new('*')` followed by `add_symbol('0')` and `add_symbol('1')`. */
  function ExampleAlphabet(): AlphabetValue {
    AddSymbolTo(AddSymbolTo(NewAlphabet('*'), '0').1, '1').1
  }

  /** Two states, three symbols, one transition, q1 final. */
  function ExampleMachine(): Machine {
    var m := NewMachine(1, 2, 3).value;
    var m1 := m.AddTransition(0, [1], [m.Dx()], 1).1;
    m1.AddFinalState(1).1
  }

  /** A blank tape with its head on cell 0 and room for the input and one more cell. */
  predicate FreshBlank(t: TapeValue) {
    && t.head == 0 && |t.content| >= 2
    && forall i | 0 <= i < |t.content| :: t.content[i] == BLANK
  }

  /** The tables the construction above ends with. */
  const EXAMPLE_ALPHABET := AlphabetValue('*', map[0 := '*', 1 := '0', 2 := '1'], map['*' := 0, '0' := 1, '1' := 2])
  const EXAMPLE_MACHINE := Machine(1, 1, 2, {1}, map[(0, [1]) := (1, [3])])

  /** A fresh computation with that alphabet and machine, the one tape t and input w. */
  function Example(w: string, t: TapeValue): Config {
    Config(1, Some(EXAMPLE_ALPHABET), Some([t]), Some(EXAMPLE_MACHINE), 0, 0, w, false, false, false)
  }

  /** The construction registers '*', '0', '1' as codes 0, 1, 2 and q1 as the only final state. */
  lemma ExampleParts()
    ensures ExampleAlphabet() == EXAMPLE_ALPHABET
    ensures ExampleMachine() == EXAMPLE_MACHINE
  {
    var a0 := NewAlphabet('*');
    assert a0.rToL == map['*' := 0] && |a0.lToR| == 1;
    var a1 := AddSymbolTo(a0, '0').1;
    assert a1.rToL == map['*' := 0, '0' := 1] && |a1.lToR| == 2;
    var m := NewMachine(1, 2, 3).value;
    assert m == Machine(1, 1, 2, {}, map[]);
    assert m.InRange([1]) && m.InRange([3]);
  }

  lemma ExampleMachineValid()
    ensures EXAMPLE_MACHINE.Valid()
  {
    assert EXAMPLE_MACHINE.Entry((0, [1]), (1, [3]));
  }

  /** Writing a one-symbol input known to the alphabet puts its code in cell 0 and the head on cell 1. */
  lemma LoadOneSymbol(ch: char, x: LSymbol, t: TapeValue)
    requires EXAMPLE_ALPHABET.GetLSymbol(ch) == Some(x) && FreshBlank(t)
    ensures Typed(Example([ch], t)) && InputFits(Example([ch], t))
    ensures WriteInput(Example([ch], t)) == (Ok(()), Example([ch], t).(tapes := Some([Written(t, x).(head := 1)])))
  {
    ExampleMachineValid();
    var a := EXAMPLE_ALPHABET;
    assert KnownFrom(a, [ch], 0) == 1;
    assert Rewound([t]) == [t];
    var col := WrittenColumn([t], x);
    assert col == [Written(t, x)];
    var t1 := Written(t, x).(head := 1);
    assert MovedRight(col[0]) == Some(t1);
    assert col[0 := t1] == [t1];
    assert MovedAllRightFrom([t1], 1) == ([t1], None);
    assert LoadFrom(a, [t1], [ch], 1) == (Ok(()), [t1]);
  }

  /**
   * Input "0" on a blank tape: the machine moves right once, then finds no
   * transition for the blank in q1 and halts, having counted one
   * transition and standing on the final state q1.
   */
  lemma AcceptsZero(t: TapeValue)
    requires FreshBlank(t)
    ensures Typed(Example("0", t)) && InputFits(Example("0", t))
    ensures var (r, c) := Start(Example("0", t), 3);
      && r == Ok(Halted) && c.terminated
      && c.transitionCount == 1 && c.current == 1 && IsOnFinalState(c)
  {
    ExampleMachineValid();
    LoadOneSymbol('0', 1, t);
    var c2 := Example("0", t).(tapes := Some([Written(t, 1)]));
    var r := Rewound([Written(t, 1).(head := 1)]);
    assert r == [Written(t, 1)] by { assert |r| == 1 && r[0] == Written(t, 1); }
    assert ReadAll([Written(t, 1)]) == [1];
    var t3 := Written(t, 1).(head := 1);
    var c3 := c2.(tapes := Some([t3]), current := 1, transitionCount := 1);
    assert EXAMPLE_MACHINE.GetTransition(0, [1]) == Ok((1, [3]));
    assert ApplyAction(Written(t, 1), 3, EXAMPLE_MACHINE) == Some(t3);
    assert [Written(t, 1)][0 := t3] == [t3];
    assert ApplyFrom([t3], [3], EXAMPLE_MACHINE, 1) == ([t3], None);
    assert Step(c2) == (Ok(CanContinue), c2.(tapes := Some([t3]), current := 1));
    assert Iteration(c2) == (None, c3);
    assert ReadAll([t3]) == [0];
    assert EXAMPLE_MACHINE.GetTransition(1, [0]) == Err(TransitionDidNotExist);
    assert Iteration(c3) == (Some(Halted), c3.(terminated := true));
  }

  /**
   * Input "1" on a blank tape: there is no transition for `1` in q0, so the
   * machine halts without a single transition and is not on a final state.
   */
  lemma RejectsOne(t: TapeValue)
    requires FreshBlank(t)
    ensures Typed(Example("1", t)) && InputFits(Example("1", t))
    ensures var (r, c) := Start(Example("1", t), 3);
      && r == Ok(Halted) && c.terminated
      && c.transitionCount == 0 && c.current == 0 && !IsOnFinalState(c)
  {
    ExampleMachineValid();
    LoadOneSymbol('1', 2, t);
    var c2 := Example("1", t).(tapes := Some([Written(t, 2)]));
    var r := Rewound([Written(t, 2).(head := 1)]);
    assert r == [Written(t, 2)] by { assert |r| == 1 && r[0] == Written(t, 2); }
    assert ReadAll([Written(t, 2)]) == [2];
    assert EXAMPLE_MACHINE.GetTransition(0, [2]) == Err(TransitionDidNotExist);
    assert Iteration(c2) == (Some(Halted), c2.(terminated := true));
  }

  /** The default tape of `Tape::new` qualifies. */
  lemma DefaultTapeIsFreshBlank(extendOnEnd: bool)
    ensures FreshBlank(DefaultTape(extendOnEnd))
  {
  }
}
