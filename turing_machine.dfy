/**
 * The program of the engine (src/turing/turing_machine.rs): a bounds-checked
 * partial transition map keyed by (state, K codes read) and a set of final
 * states. The value `Machine` and its member functions say what each
 * operation does; the class `TuringMachine` performs them in place.
 */
module Machines {
  import opened Defs

  datatype Error =
    | StateTooSmall
    | StateTooBig
    | SymbolTooSmall
    | SymbolTooBig
    | TransitionExists
    | TransitionDidNotExist
    | AlreadyFinal
    | WasNotFinal

  /** A transition's key: the current state and the K codes read, one per tape. */
  type Key = (State, seq<LSymbol>)

  /** A transition's value: the next state and the K actions, one per tape. */
  type Out = (State, seq<LSymbol>)

  /**
   * A machine over K tapes (`TuringMachine<K>`). Codes up to
   * `biggestSymbolIndex` are symbols; `biggestSymbolIndex + 1` means "move
   * right" and `biggestSymbolIndex + 2` "move left".
   */
  datatype Machine = Machine(
    k: nat,
    biggestStateIndex: State,
    biggestSymbolIndex: LSymbol,
    finalStates: set<State>,
    transitions: map<Key, Out>)
  {
    /** Every code of x passes the source's bound `biggest_symbol_index + 2`. */
    predicate InRange(x: seq<LSymbol>) {
      forall i | 0 <= i < |x| :: x[i] <= biggestSymbolIndex + 2
    }

    /** An entry the validated insertion can produce. */
    predicate Entry(key: Key, out: Out) {
      && |key.1| == k && |out.1| == k
      && key.0 <= biggestStateIndex && out.0 <= biggestStateIndex
      && InRange(key.1) && InRange(out.1)
    }

    /** What `new` establishes and every operation keeps. */
    predicate Valid() {
      && biggestSymbolIndex <= 0xFD
      && (forall q | q in finalStates :: q <= biggestStateIndex)
      && (forall key | key in transitions :: Entry(key, transitions[key]))
    }

    /** `dx`: the "move right" code. */
    function Dx(): LSymbol
      requires biggestSymbolIndex <= 0xFD
    {
      biggestSymbolIndex + 1
    }

    /** `sx`: the "move left" code. */
    function Sx(): LSymbol
      requires biggestSymbolIndex <= 0xFD
    {
      biggestSymbolIndex + 2
    }

    /** `state_count`: computed in `u8`, so it needs fewer than 256 states to be exact. */
    function StateCount(): State
      requires biggestStateIndex < 255
    {
      biggestStateIndex + 1
    }

    /**
     * `add_transition`: states are checked before symbols, symbols before
     * the duplicate test; an existing key is never overwritten.
     */
    function AddTransition(q: State, x: seq<LSymbol>, a: seq<LSymbol>, t: State): (r: (Result<(), Error>, Machine))
      requires |x| == k && |a| == k
    {
      if q > biggestStateIndex || t > biggestStateIndex then (Err(StateTooBig), this)
      else if !InRange(x) || !InRange(a) then (Err(SymbolTooBig), this)
      else if (q, x) in transitions then (Err(TransitionExists), this)
      else (Ok(()), this.(transitions := transitions[(q, x) := (t, a)]))
    }

    /**
     * `get_transition`: validation (`StateTooBig`, then `SymbolTooBig`)
     * before lookup; an unmapped key is `TransitionDidNotExist`.
     */
    function GetTransition(q: State, x: seq<LSymbol>): (r: Result<Out, Error>)
      requires |x| == k
    {
      if q > biggestStateIndex then Err(StateTooBig)
      else if !InRange(x) then Err(SymbolTooBig)
      else if (q, x) in transitions then Ok(transitions[(q, x)])
      else Err(TransitionDidNotExist)
    }

    /** `remove_transition`: no bounds checks at all. */
    function RemoveTransition(q: State, x: seq<LSymbol>): (r: (Result<(), Error>, Machine))
      requires |x| == k
    {
      if (q, x) in transitions then (Ok(()), this.(transitions := transitions - {(q, x)}))
      else (Err(TransitionDidNotExist), this)
    }

    /** `add_final_state`. */
    function AddFinalState(q: State): (r: (Result<(), Error>, Machine)) {
      if q > biggestStateIndex then (Err(StateTooBig), this)
      else if q in finalStates then (Err(AlreadyFinal), this)
      else (Ok(()), this.(finalStates := finalStates + {q}))
    }

    /** `remove_final_state`. */
    function RemoveFinalState(q: State): (r: (Result<(), Error>, Machine)) {
      if q > biggestStateIndex then (Err(StateTooBig), this)
      else if q !in finalStates then (Err(WasNotFinal), this)
      else (Ok(()), this.(finalStates := finalStates - {q}))
    }

    /** `is_final_state`. */
    function IsFinalState(q: State): (r: Result<bool, Error>) {
      if q > biggestStateIndex then Err(StateTooBig) else Ok(q in finalStates)
    }
  }

  /**
   * `TuringMachine::new`: 1..=256 states and 1..=254 symbols are accepted.
   * Too many symbols is reported as `StateTooBig`, not `SymbolTooBig`.
   */
  function NewMachine(k: nat, stateCount: nat, symbolCount: nat): (r: Result<Machine, Error>)
    ensures stateCount == 0 ==> r == Err(StateTooSmall)
    ensures stateCount > 256 ==> r == Err(StateTooBig)
    ensures 1 <= stateCount <= 256 && symbolCount == 0 ==> r == Err(SymbolTooSmall)
    ensures 1 <= stateCount <= 256 && symbolCount > 254 ==> r == Err(StateTooBig)
    ensures r.Ok? <==> 1 <= stateCount <= 256 && 1 <= symbolCount <= 254
    ensures r.Ok? ==> && r.value.Valid() && r.value.k == k
                      && r.value.biggestStateIndex + 1 == stateCount
                      && r.value.biggestSymbolIndex + 1 == symbolCount
                      && r.value.finalStates == {} && r.value.transitions == map[]
  {
    if stateCount == 0 then Err(StateTooSmall)
    else if stateCount > 0x100 then Err(StateTooBig)
    else if symbolCount == 0 then Err(SymbolTooSmall)
    else if symbolCount > 0xFE then Err(StateTooBig)
    else Ok(Machine(k, stateCount - 1, symbolCount - 1, {}, map[]))
  }

  /**
   * The move codes of a valid machine are distinct, above every symbol
   * code, fit in a byte and pass the symbol bound of transitions.
   */
  lemma MoveCodesAreReserved(m: Machine)
    requires m.Valid()
    ensures m.Dx() != m.Sx()
    ensures m.biggestSymbolIndex < m.Dx() && m.biggestSymbolIndex < m.Sx()
    ensures m.InRange([m.Dx(), m.Sx()])
  {
  }

  /**
   * `add_transition` keeps a machine valid. A state out of range is
   * `StateTooBig`; otherwise a code out of range is `SymbolTooBig`;
   * otherwise a mapped key is `TransitionExists`. A refused insertion
   * leaves the machine unchanged, and a successful one changes only the new
   * key, which `get_transition` then returns.
   */
  lemma AddTransitionThenGet(m: Machine, q: State, x: seq<LSymbol>, a: seq<LSymbol>, t: State)
    requires m.Valid() && |x| == m.k && |a| == m.k
    ensures var (res, m') := m.AddTransition(q, x, a, t);
      && m'.Valid()
      && (res.Err? ==> m' == m)
      && (q > m.biggestStateIndex || t > m.biggestStateIndex ==> res == Err(StateTooBig))
      && (q <= m.biggestStateIndex && t <= m.biggestStateIndex && !(m.InRange(x) && m.InRange(a)) ==>
            res == Err(SymbolTooBig))
      && ((q <= m.biggestStateIndex && t <= m.biggestStateIndex && m.InRange(x) && m.InRange(a)
           && (q, x) in m.transitions) ==> res == Err(TransitionExists))
      && (res.Ok? <==> q <= m.biggestStateIndex && t <= m.biggestStateIndex
                       && m.InRange(x) && m.InRange(a) && (q, x) !in m.transitions)
      && (res.Ok? ==> m'.GetTransition(q, x) == Ok((t, a)))
      && (res.Ok? ==> forall y | |y| == m.k && y != x :: m'.GetTransition(q, y) == m.GetTransition(q, y))
      && (res.Ok? ==> forall p: State, y | |y| == m.k && p != q :: m'.GetTransition(p, y) == m.GetTransition(p, y))
  {
  }

  /**
   * `get_transition` checks the state, then the codes read, and only then
   * looks the key up; on a valid machine whatever it finds is an entry
   * within bounds with one action per tape.
   */
  lemma GetTransitionOutcome(m: Machine, q: State, x: seq<LSymbol>)
    requires |x| == m.k
    ensures q > m.biggestStateIndex ==> m.GetTransition(q, x) == Err(StateTooBig)
    ensures q <= m.biggestStateIndex && !m.InRange(x) ==> m.GetTransition(q, x) == Err(SymbolTooBig)
    ensures q <= m.biggestStateIndex && m.InRange(x) ==>
              && (m.GetTransition(q, x).Ok? <==> (q, x) in m.transitions)
              && ((q, x) in m.transitions ==> m.GetTransition(q, x) == Ok(m.transitions[(q, x)]))
              && ((q, x) !in m.transitions ==> m.GetTransition(q, x) == Err(TransitionDidNotExist))
    ensures m.Valid() && m.GetTransition(q, x).Ok? ==>
              m.Entry((q, x), m.GetTransition(q, x).value) && |m.GetTransition(q, x).value.1| == m.k
  {
  }

  /**
   * Adding a key that is already mapped fails with `TransitionExists` and
   * keeps the first rule: the same lookup as before.
   */
  lemma AddTransitionTwice(m: Machine, q: State, x: seq<LSymbol>, a: seq<LSymbol>, t: State, a2: seq<LSymbol>, t2: State)
    requires |x| == m.k && |a| == m.k && |a2| == m.k
    requires m.AddTransition(q, x, a, t).0.Ok?
    requires t2 <= m.biggestStateIndex && m.InRange(a2)
    ensures var m' := m.AddTransition(q, x, a, t).1;
      && m'.AddTransition(q, x, a2, t2) == (Err(TransitionExists), m')
      && m'.GetTransition(q, x) == Ok((t, a))
  {
  }

  /**
   * `remove_transition` removes exactly its key when mapped (whatever its
   * bounds) and otherwise reports `TransitionDidNotExist` with nothing
   * changed; removing what was just added restores the machine.
   */
  lemma RemoveTransitionOutcome(m: Machine, q: State, x: seq<LSymbol>)
    requires |x| == m.k
    ensures var (res, m') := m.RemoveTransition(q, x);
      && (res.Ok? <==> (q, x) in m.transitions)
      && (q, x) !in m'.transitions
      && (forall key | key != (q, x) :: (key in m'.transitions <==> key in m.transitions))
      && (forall key | key != (q, x) && key in m.transitions :: m'.transitions[key] == m.transitions[key])
      && m'.finalStates == m.finalStates
      && (m.Valid() ==> m'.Valid())
  {
  }

  /** Removing a transition right after adding it gives back the machine. */
  lemma AddThenRemoveTransition(m: Machine, q: State, x: seq<LSymbol>, a: seq<LSymbol>, t: State)
    requires |x| == m.k && |a| == m.k
    requires m.AddTransition(q, x, a, t).0.Ok?
    ensures m.AddTransition(q, x, a, t).1.RemoveTransition(q, x) == (Ok(()), m)
  {
    var m' := m.AddTransition(q, x, a, t).1;
    assert m'.transitions - {(q, x)} == m.transitions;
  }

  /**
   * Final states: out of range is `StateTooBig` for all three operations;
   * otherwise adding reports `AlreadyFinal` on a member, removing reports
   * `WasNotFinal` on a non-member, and `is_final_state` reports the
   * membership left by the last change.
   */
  lemma FinalStateOperations(m: Machine, q: State)
    requires m.Valid()
    ensures q > m.biggestStateIndex ==>
              && m.AddFinalState(q) == (Err(StateTooBig), m)
              && m.RemoveFinalState(q) == (Err(StateTooBig), m)
              && m.IsFinalState(q) == Err(StateTooBig)
    ensures q <= m.biggestStateIndex ==>
              && m.IsFinalState(q) == Ok(q in m.finalStates)
              && (m.AddFinalState(q).0 == Err(AlreadyFinal) <==> q in m.finalStates)
              && (m.RemoveFinalState(q).0 == Err(WasNotFinal) <==> q !in m.finalStates)
              && m.AddFinalState(q).1.IsFinalState(q) == Ok(true)
              && m.RemoveFinalState(q).1.IsFinalState(q) == Ok(false)
              && m.AddFinalState(q).1.Valid() && m.RemoveFinalState(q).1.Valid()
    ensures forall p | p != q :: m.AddFinalState(q).1.IsFinalState(p) == m.IsFinalState(p)
                                 && m.RemoveFinalState(q).1.IsFinalState(p) == m.IsFinalState(p)
  {
  }

  /**
   * The machine as the source keeps it: the final-state set and the
   * transition map are updated in place; the bounds are fixed by `new`.
   */
  class TuringMachine {
    const k: nat
    const biggestStateIndex: State
    const biggestSymbolIndex: LSymbol
    var finalStates: set<State>
    var transitions: map<Key, Out>

    function View(): Machine
      reads this
    {
      Machine(k, biggestStateIndex, biggestSymbolIndex, finalStates, transitions)
    }

    /** The struct literal that `new` returns once the counts are validated. */
    constructor FromValue(m: Machine)
      ensures View() == m
    {
      k := m.k;
      biggestStateIndex := m.biggestStateIndex;
      biggestSymbolIndex := m.biggestSymbolIndex;
      finalStates := m.finalStates;
      transitions := m.transitions;
    }

    static method New(k: nat, stateCount: nat, symbolCount: nat) returns (r: Result<TuringMachine, Error>)
      ensures r.Err? <==> NewMachine(k, stateCount, symbolCount).Err?
      ensures r.Err? ==> r.error == NewMachine(k, stateCount, symbolCount).error
      ensures r.Ok? ==> fresh(r.value) && r.value.View() == NewMachine(k, stateCount, symbolCount).value
    {
      var biggestState: State;
      if stateCount == 0 {
        return Err(StateTooSmall);
      } else if stateCount <= 0x100 {
        biggestState := stateCount - 1;
      } else {
        return Err(StateTooBig);
      }
      var biggestSymbol: LSymbol;
      if symbolCount == 0 {
        return Err(SymbolTooSmall);
      } else if symbolCount <= 0xFE {
        biggestSymbol := symbolCount - 1;
      } else {
        return Err(StateTooBig);
      }
      var m := new TuringMachine.FromValue(Machine(k, biggestState, biggestSymbol, {}, map[]));
      r := Ok(m);
    }

    method AddTransition(q: State, x: seq<LSymbol>, a: seq<LSymbol>, t: State) returns (r: Result<(), Error>)
      requires |x| == k && |a| == k
      modifies this
      ensures (r, View()) == old(View()).AddTransition(q, x, a, t)
    {
      if q > biggestStateIndex || t > biggestStateIndex {
        return Err(StateTooBig);
      }
      if !View().InRange(x) || !View().InRange(a) {
        return Err(SymbolTooBig);
      }
      if (q, x) in transitions {
        return Err(TransitionExists);
      }
      transitions := transitions[(q, x) := (t, a)];
      r := Ok(());
    }

    function GetTransition(q: State, x: seq<LSymbol>): Result<Out, Error>
      requires |x| == k
      reads this
    {
      View().GetTransition(q, x)
    }

    method RemoveTransition(q: State, x: seq<LSymbol>) returns (r: Result<(), Error>)
      requires |x| == k
      modifies this
      ensures (r, View()) == old(View()).RemoveTransition(q, x)
    {
      if (q, x) in transitions {
        transitions := transitions - {(q, x)};
        r := Ok(());
      } else {
        r := Err(TransitionDidNotExist);
      }
    }

    function StateCount(): State
      requires biggestStateIndex < 255
      reads this
    {
      View().StateCount()
    }

    function Sx(): LSymbol
      requires biggestSymbolIndex <= 0xFD
      reads this
    {
      View().Sx()
    }

    function Dx(): LSymbol
      requires biggestSymbolIndex <= 0xFD
      reads this
    {
      View().Dx()
    }

    method AddFinalState(q: State) returns (r: Result<(), Error>)
      modifies this
      ensures (r, View()) == old(View()).AddFinalState(q)
    {
      if q > biggestStateIndex {
        return Err(StateTooBig);
      }
      if q !in finalStates {
        finalStates := finalStates + {q};
        r := Ok(());
      } else {
        r := Err(AlreadyFinal);
      }
    }

    method RemoveFinalState(q: State) returns (r: Result<(), Error>)
      modifies this
      ensures (r, View()) == old(View()).RemoveFinalState(q)
    {
      if q > biggestStateIndex {
        return Err(StateTooBig);
      }
      if q in finalStates {
        finalStates := finalStates - {q};
        r := Ok(());
      } else {
        r := Err(WasNotFinal);
      }
    }

    function IsFinalState(q: State): Result<bool, Error>
      reads this
    {
      View().IsFinalState(q)
    }
  }
}
