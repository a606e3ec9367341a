/**
 * `Computation<K>` as the source keeps it (src/turing/computation.rs): the
 * attached alphabet, tapes and machine, the current state, the transition
 * count, the input string and the three control flags are fields updated
 * in place. Each method is proved to do what the function of the same
 * name in `ComputationModel` says. The alphabet, tapes and machine are
 * owned by the computation, so they are held as values.
 */
module Computations {
  import opened Defs
  import opened Tapes
  import opened Alphabets
  import opened Machines
  import opened ComputationModel

  class Computation {
    const k: nat
    var alphabet: Option<AlphabetValue>
    var tapes: Option<seq<TapeValue>>
    var m: Option<Machine>
    var current: State
    var transitionCount: nat
    var w: string
    var paused: bool
    var stopped: bool
    var terminated: bool

    function View(): Config
      reads this
    {
      Config(k, alphabet, tapes, m, current, transitionCount, w, paused, stopped, terminated)
    }

    constructor (k: nat)
      ensures View() == NewConfig(k)
    {
      this.k := k;
      alphabet := None;
      tapes := None;
      m := None;
      current := 0;
      transitionCount := 0;
      w := "";
      paused := false;
      stopped := false;
      terminated := false;
    }

    method UseAlphabet(a: AlphabetValue)
      modifies this`alphabet
      ensures View() == old(View()).(alphabet := Some(a))
    {
      alphabet := Some(a);
    }

    method UseMachine(machine: Machine)
      requires machine.k == k
      modifies this`m
      ensures View() == old(View()).(m := Some(machine))
    {
      m := Some(machine);
    }

    /** `use_tape`: replaces one tape, and does nothing while no tapes are attached. */
    method UseTape(t: TapeValue, idx: nat)
      requires idx < k && Typed(View())
      modifies this`tapes
      ensures old(tapes).None? ==> View() == old(View())
      ensures old(tapes).Some? ==> View() == old(View()).(tapes := Some(old(tapes).value[idx := t]))
    {
      if tapes.Some? {
        tapes := Some(tapes.value[idx := t]);
      }
    }

    method UseTapes(ts: seq<TapeValue>)
      requires |ts| == k
      modifies this`tapes
      ensures View() == old(View()).(tapes := Some(ts))
    {
      tapes := Some(ts);
    }

    /** `shift_head`: `move_sx` until it fails, then `position` times `move_dx`, failures ignored. */
    method ShiftHead(position: nat, tape: nat)
      requires tape < k && Typed(View())
      modifies this`tapes
      ensures View() == ComputationModel.ShiftHead(old(View()), position, tape)
    {
      if tapes.Some? {
        var t := tapes.value[tape];
        var moved := MovedLeft(t);
        while moved.Some?
          invariant t == tapes.value[tape].(head := t.head)
          invariant moved == MovedLeft(t)
          decreases t.head
        {
          t := moved.value;
          moved := MovedLeft(t);
        }
        for n := 0 to position
          invariant RightIgnoringFailures(t, position - n) == ShiftedHead(tapes.value[tape], position)
        {
          t := MovedRight(t).GetOr(t);
        }
        tapes := Some(tapes.value[tape := t]);
      }
    }

    /** `shift_head(0, i)` for every tape i. */
    method RewindAll()
      requires Typed(View())
      modifies this`tapes
      ensures View() == ComputationModel.RewindAll(old(View()))
    {
      ghost var c0 := View();
      for i := 0 to k
        invariant tapes.Some? <==> c0.tapes.Some?
        invariant tapes.Some? ==> |tapes.value| == k && forall l | 0 <= l < k ::
                    tapes.value[l] == if l < i then c0.tapes.value[l].(head := 0) else c0.tapes.value[l]
      {
        ShiftHead(0, i);
      }
      if tapes.Some? {
        assert tapes.value == Rewound(c0.tapes.value);
      }
    }

    method SetInputString(w: string) returns (r: Result<(), Failure>)
      modifies this`w
      ensures (r, View()) == ComputationModel.SetInputString(old(View()), w)
    {
      if alphabet.None? {
        r := Err(AlphabetNeeded);
      } else {
        this.w := w;
        r := Ok(());
      }
    }

    /** `write_input_on_tape`. */
    method WriteInputOnTape() returns (r: Result<(), Failure>)
      requires Typed(View()) && InputFits(View())
      modifies this`tapes
      ensures (r, View()) == WriteInput(old(View()))
    {
      RewindAll();
      if alphabet.None? {
        return Err(AlphabetNeeded);
      }
      if tapes.None? {
        return Err(TapesNeeded);
      }
      r := LoadInput(alphabet.value);
    }

    /** Lines 114-120 of `write_input_on_tape`: the symbols of w in order. */
    method LoadInput(a: AlphabetValue) returns (r: Result<(), Failure>)
      requires tapes.Some? && |tapes.value| == k && Loadable(a, tapes.value, w, 0)
      modifies this`tapes
      ensures var (res, ts) := LoadFrom(a, old(tapes.value), old(w), 0);
        r == res && View() == old(View()).(tapes := Some(ts))
    {
      ghost var c0 := View();
      for j := 0 to |w|
        invariant tapes.Some? && |tapes.value| == k
        invariant Loadable(a, tapes.value, w, j)
        invariant LoadFrom(a, tapes.value, w, j) == LoadFrom(a, c0.tapes.value, w, 0)
      {
        var x := a.GetLSymbol(w[j]);
        if x.None? {
          return Err(NotInAlphabet(w[j]));
        }
        LoadStep(a, tapes.value, w, j);
        WriteColumn(x.value);
      }
      r := Ok(());
    }

    /**
     * The body of the loop of `write_input_on_tape` for one symbol code x:
     * x on tape 0, a blank on every other tape, then `move_dx` on every
     * tape. The heads are on cells, so no move fails.
     */
    method WriteColumn(x: LSymbol)
      requires tapes.Some? && |tapes.value| == k && k > 0 && AllReadable(tapes.value)
      modifies this`tapes
      ensures MovedAllRightFrom(WrittenColumn(old(tapes.value), x), 0).1.None?
      ensures View() == old(View()).(tapes := Some(MovedAllRightFrom(WrittenColumn(old(tapes.value), x), 0).0))
    {
      ghost var before := tapes.value;
      var ts := tapes.value;
      ts := ts[0 := Written(ts[0], x)];
      for i := 1 to k
        invariant |ts| == k
        invariant forall l | 0 <= l < k :: ts[l] == if l < i then Written(before[l], if l == 0 then x else BLANK) else before[l]
      {
        ts := ts[i := Written(ts[i], BLANK)];
      }
      assert ts == WrittenColumn(before, x);
      for i := 0 to k
        invariant |ts| == k
        invariant forall l | i <= l < k :: ts[l].CanRead()
        invariant MovedAllRightFrom(ts, i) == MovedAllRightFrom(WrittenColumn(before, x), 0)
      {
        var moved := MovedRight(ts[i]);
        if moved.None? {
          assert false;
        }
        ts := ts[i := moved.value];
      }
      tapes := Some(ts);
    }

    /** `output(idx)`: builds the text cell by cell. Nothing changes. */
    method Output(idx: nat) returns (r: Result<string, Failure>)
      requires Typed(View()) && (idx < k ==> alphabet.Some?)
      ensures r == ComputationModel.Output(View(), idx)
    {
      if idx >= k {
        return Err(IndexOutOfBounds);
      }
      var a := alphabet.value;
      if tapes.None? {
        return Err(NoTape);
      }
      var t := tapes.value[idx];
      var text := "";
      for j := 0 to |t.content|
        invariant text == Render(a, t.content)[..j]
      {
        text := text + [a.GetRSymbol(t.content[j]).GetOr(a.blank)];
      }
      text := text + "...\n";
      for j := 0 to t.head
        invariant text == Render(a, t.content) + "...\n" + Spaces(j)
      {
        text := text + " ";
      }
      text := text + "^";
      r := Ok(text);
    }

    /** `output_all`: tapes from K-1 down to 0, one per line. Nothing changes. */
    method OutputAll() returns (r: Result<string, Failure>)
      requires Typed(View()) && (tapes.Some? ==> k > 0 && alphabet.Some?)
      ensures r == ComputationModel.OutputAll(View())
    {
      if tapes.None? {
        return Err(NoTapes);
      }
      ghost var c := View();
      var text := "";
      var i: nat := k;
      while i > 0
        invariant i <= k && View() == c
        invariant text + OutputLines(c, i) == OutputLines(c, k)
      {
        var line := Output(i - 1);
        var rest := OutputLines(c, i - 1);
        assert OutputLines(c, i) == line.value + "\n" + rest;
        assert text + OutputLines(c, i) == (text + line.value + "\n") + rest;
        text := text + line.value + "\n";
        i := i - 1;
      }
      assert text == OutputLines(c, k);
      r := Ok(text[..|text| - 1]);
    }

    method Reset()
      modifies this`transitionCount, this`current, this`paused, this`stopped, this`terminated
      ensures View() == ComputationModel.Reset(old(View()))
    {
      transitionCount := 0;
      current := 0;
      paused := false;
      stopped := false;
      terminated := false;
    }

    method Pause()
      modifies this`paused
      ensures View() == ComputationModel.Pause(old(View()))
    {
      if terminated || stopped {
        return;
      }
      paused := true;
    }

    method Resume()
      modifies this`paused
      ensures View() == ComputationModel.Resume(old(View()))
    {
      if !paused || stopped || terminated {
        return;
      }
      paused := false;
    }

    method Stop()
      modifies this`stopped
      ensures View() == ComputationModel.Stop(old(View()))
    {
      stopped := true;
    }

    function IsOnFinalState(): bool
      reads this
    {
      ComputationModel.IsOnFinalState(View())
    }

    /** `step`. */
    method Step() returns (r: Result<Feedback, Failure>)
      requires Typed(View()) && CanStep(View())
      modifies this`tapes, this`current
      ensures (r, View()) == ComputationModel.Step(old(View()))
    {
      if m.None? {
        return Err(NoMachine);
      }
      if tapes.None? {
        return Err(NoTapes);
      }
      var machine := m.value;
      var ts := tapes.value;
      var x := new LSymbol[k](_ => 0);
      for i := 0 to k
        modifies x
        invariant forall l | 0 <= l < i :: x[l] == ReadCell(ts[l])
      {
        x[i] := ReadCell(ts[i]);
      }
      assert x[..] == ReadAll(ts);
      var found := machine.GetTransition(current, x[..]);
      if found.Err? {
        return Ok(NeedToStop);
      }
      var out := found.value;
      FoundTransitionFits(machine, current, x[..]);
      ghost var c0 := View();
      for i := 0 to k
        invariant |ts| == k && View() == c0.(tapes := Some(ts))
        invariant forall l | i <= l < k :: ts[l].CanRead()
        invariant ApplyFrom(ts, out.1, machine, i) == ApplyFrom(c0.tapes.value, out.1, machine, 0)
      {
        if out.1[i] == machine.Dx() {
          var moved := MovedRight(ts[i]);
          if moved.None? {
            return Err(CouldNotMoveRight);
          }
          ts := ts[i := moved.value];
        } else if out.1[i] == machine.Sx() {
          var moved := MovedLeft(ts[i]);
          if moved.None? {
            return Err(CouldNotMoveLeft);
          }
          ts := ts[i := moved.value];
        } else {
          ts := ts[i := Written(ts[i], out.1[i])];
        }
        tapes := Some(ts);
      }
      current := out.0;
      r := Ok(CanContinue);
    }

    /** The body of the run loop of `start`, at most `fuel` iterations. */
    method RunLoop(fuel: nat) returns (exit: Exit)
      requires Typed(View())
      modifies this`tapes, this`current, this`transitionCount, this`terminated
      ensures (exit, View()) == Run(old(View()), fuel)
    {
      var n := fuel;
      while n > 0
        invariant Typed(View())
        decreases n
        invariant Run(View(), n) == Run(old(View()), fuel)
      {
        if paused && !stopped && !terminated {
          return Parked;
        }
        if stopped || terminated {
          return Stopped;
        }
        if !CanStep(View()) {
          return Crashed;
        }
        StepEffect(View());
        var how := Step();
        match how {
          case Ok(CanContinue) =>
            transitionCount := transitionCount + 1;
          case Ok(NeedToStop) =>
            terminated := true;
            return Halted;
          case Err(f) =>
            terminated := true;
            return Faulted(f);
        }
        n := n - 1;
      }
      exit := OutOfFuel;
    }

    /** `start`, with the spawned thread's work done in line. */
    method Start(fuel: nat) returns (r: Result<Exit, Failure>)
      requires Typed(View()) && (|w| > 0 ==> InputFits(View()))
      modifies this`tapes, this`current, this`transitionCount, this`terminated
      ensures (r, View()) == ComputationModel.Start(old(View()), fuel)
    {
      if |w| > 0 {
        var loaded := WriteInputOnTape();
        if loaded.Err? {
          return Err(loaded.error);
        }
      }
      RewindAll();
      var exit := RunLoop(fuel);
      r := Ok(exit);
    }
  }
}
