/**
 * The sequential semantics of a computation (src/turing/computation.rs):
 * the state a `Computation<K>` holds, one `step`, the body of the run loop
 * of `start` driven by fuel, head rewinding, loading the input string onto
 * the tapes, rendering a tape as text, and the control flags. The class in
 * module `Computations` performs the same operations in place.
 */
module ComputationModel {
  import opened Defs
  import opened Tapes
  import opened Alphabets
  import opened Machines

  /** The error strings of the source, one variant per message. */
  datatype Failure =
    | AlphabetNeeded          // "An alphabet is needed" (with a final '!' in write_input_on_tape)
    | TapesNeeded             // "Tapes are needed"
    | NotInAlphabet(symbol: char)  // "An error occurred between alphabet and input string, {c} is not in the alphabet"
    | CantMoveRight(tape: nat)     // "Can't move right on tape {i}"
    | IndexOutOfBounds        // "Index out of bounds"
    | NoTape                  // "No tape"
    | NoTapes                 // "No tapes"
    | NoMachine               // "No machine"
    | CouldNotMoveRight       // "Could not move right"
    | CouldNotMoveLeft        // "Could not move left"

  /** `StepFeedback`. */
  datatype Feedback = CanContinue | NeedToStop

  /**
   * How the run loop ended. `Halted` and `Faulted` are the two ways the
   * source sets `terminated`; `Stopped` is the exit on `stopped ||
   * terminated`; `Parked` is the wait on `paused` that only another thread
   * can end; `Crashed` is a `read` past the end of a tape, which panics in
   * the source; `OutOfFuel` exists only in the model.
   */
  datatype Exit = Halted | Faulted(failure: Failure) | Stopped | Parked | Crashed | OutOfFuel

  /** The fields of `Computation<K>` without the synchronisation handles. */
  datatype Config = Config(
    k: nat,
    alphabet: Option<AlphabetValue>,
    tapes: Option<seq<TapeValue>>,
    m: Option<Machine>,
    current: State,
    transitionCount: nat,
    w: string,
    paused: bool,
    stopped: bool,
    terminated: bool)

  /**
   * What the Rust types guarantee: K tapes (`[Tape; K]`) each keeping its
   * head within bounds, and a machine over the same K built by `new`.
   */
  ghost predicate Typed(c: Config) {
    && (c.tapes.Some? ==> |c.tapes.value| == c.k && forall i | 0 <= i < |c.tapes.value| :: c.tapes.value[i].Valid())
    && (c.m.Some? ==> c.m.value.k == c.k && c.m.value.Valid())
  }

  /** `Computation::new`: nothing attached, counters and flags cleared. */
  function NewConfig(k: nat): (c: Config)
    ensures Typed(c)
    ensures c.alphabet.None? && c.tapes.None? && c.m.None? && c.w == ""
    ensures c.current == 0 && c.transitionCount == 0 && !c.paused && !c.stopped && !c.terminated
  {
    Config(k, None, None, None, 0, 0, "", false, false, false)
  }

  // ---------------------------------------------------------------------
  // Head shifting

  /** `n` calls of `move_dx` whose failures are ignored. */
  function RightIgnoringFailures(t: TapeValue, n: nat): TapeValue
    decreases n
  {
    if n == 0 then t else RightIgnoringFailures(MovedRight(t).GetOr(t), n - 1)
  }

  /** `n` blank cells. */
  function Blanks(n: nat): (r: seq<LSymbol>)
    ensures |r| == n && forall j | 0 <= j < n :: r[j] == BLANK
  {
    seq(n, _ => BLANK)
  }

  /** How far an extending tape grows when its head moves from h to h + n. */
  function Growth(t: TapeValue, n: nat): nat {
    if t.head + n > |t.content| then t.head + n - |t.content| else 0
  }

  /**
   * Ignoring failures, n right moves on a tape that does not extend stop
   * at the end; on an extending tape they always advance the head and grow
   * the tape by blanks just enough to reach it.
   */
  lemma {:induction false} RightIgnoringFailuresEffect(t: TapeValue, n: nat)
    requires t.Valid()
    ensures !t.extendOnEnd ==>
              (RightIgnoringFailures(t, n) == t.(head := if t.head + n <= |t.content| then t.head + n else |t.content|))
    ensures t.extendOnEnd ==>
              (RightIgnoringFailures(t, n) == TapeValue(t.content + Blanks(Growth(t, n)), t.head + n, true))
    decreases n
  {
    if n > 0 {
      var t' := MovedRight(t).GetOr(t);
      RightIgnoringFailuresEffect(t', n - 1);
      if t.extendOnEnd && t.head == |t.content| {
        assert t'.content + Blanks(Growth(t', n - 1)) == t.content + Blanks(Growth(t, n));
      }
    }
  }

  /** `shift_head` on one tape: rewind with `move_sx` to cell 0, then move right. */
  function ShiftedHead(t: TapeValue, position: nat): TapeValue {
    RightIgnoringFailures(t.(head := 0), position)
  }

  /**
   * `shift_head(p, _)` leaves the head at `min(p, size)` on a tape that
   * does not extend, and at p on an extending tape, which grows with blanks
   * to `max(size, p)` cells; the existing cells are kept either way.
   */
  lemma ShiftHeadEffect(t: TapeValue, position: nat)
    requires t.Valid()
    ensures !t.extendOnEnd ==>
              (ShiftedHead(t, position) == t.(head := if position <= |t.content| then position else |t.content|))
    ensures t.extendOnEnd ==> ShiftedHead(t, position).head == position
    ensures t.extendOnEnd ==>
              (ShiftedHead(t, position).content == t.content + Blanks(if position > |t.content| then position - |t.content| else 0))
    ensures ShiftedHead(t, position).Valid()
  {
    RightIgnoringFailuresEffect(t.(head := 0), position);
  }

  /** `shift_head(position, tape)` on a computation; a no-op without tapes. */
  function ShiftHead(c: Config, position: nat, tape: nat): Config
    requires tape < c.k && Typed(c)
  {
    if c.tapes.None? then c
    else c.(tapes := Some(c.tapes.value[tape := ShiftedHead(c.tapes.value[tape], position)]))
  }

  /** Every head back at cell 0: what `shift_head(0, i)` for each i does. */
  function Rewound(ts: seq<TapeValue>): (r: seq<TapeValue>)
    ensures |r| == |ts|
    ensures forall i | 0 <= i < |ts| :: r[i] == ts[i].(head := 0) == ShiftedHead(ts[i], 0)
  {
    seq(|ts|, i requires 0 <= i < |ts| => ts[i].(head := 0))
  }

  function RewindAll(c: Config): (r: Config)
    requires Typed(c)
    ensures Typed(r)
  {
    if c.tapes.None? then c else c.(tapes := Some(Rewound(c.tapes.value)))
  }

  // ---------------------------------------------------------------------
  // Input

  /** `set_input_string`: needs an alphabet, but does not check w against it. */
  function SetInputString(c: Config, w: string): (r: (Result<(), Failure>, Config))
    ensures r.0.Ok? <==> c.alphabet.Some?
    ensures r.0.Err? ==> r == (Err(AlphabetNeeded), c)
    ensures r.0.Ok? ==> r.1 == c.(w := w)
  {
    if c.alphabet.None? then (Err(AlphabetNeeded), c) else (Ok(()), c.(w := w))
  }

  /**
   * How many symbols of w from index j on are in the alphabet before the
   * first one that is not (or the end).
   */
  function KnownFrom(a: AlphabetValue, w: string, j: nat): (n: nat)
    requires j <= |w|
    ensures j + n <= |w|
    ensures forall d | j <= d < j + n :: a.GetLSymbol(w[d]).Some?
    ensures j + n < |w| ==> a.GetLSymbol(w[j + n]).None?
    decreases |w| - j
  {
    if j == |w| || a.GetLSymbol(w[j]).None? then 0 else 1 + KnownFrom(a, w, j + 1)
  }

  /** The codes of a string all of whose symbols are in the alphabet. */
  function Encoded(a: AlphabetValue, w: string): (r: seq<LSymbol>)
    requires forall j | 0 <= j < |w| :: a.GetLSymbol(w[j]).Some?
    ensures |r| == |w|
  {
    seq(|w|, j requires 0 <= j < |w| => a.GetLSymbol(w[j]).value)
  }

  /**
   * Loading `rest` cannot index past a tape: the first symbol that is not
   * in the alphabet stops the load before anything is written for it, and
   * each symbol before it is written under every head (tape 0 must exist).
   */
  ghost predicate Loadable(a: AlphabetValue, ts: seq<TapeValue>, w: string, j: nat)
    requires j <= |w|
  {
    && (KnownFrom(a, w, j) > 0 ==> |ts| > 0)
    && forall i | 0 <= i < |ts| :: ts[i].Valid() && ts[i].head + KnownFrom(a, w, j) <= |ts[i].content|
  }

  /** Lines 116-117 of one input symbol: its code on tape 0, a blank on the others. */
  function WrittenColumn(ts: seq<TapeValue>, x: LSymbol): (r: seq<TapeValue>)
    requires |ts| > 0 && forall i | 0 <= i < |ts| :: ts[i].CanRead()
    ensures |r| == |ts|
    ensures forall i | 0 <= i < |ts| :: r[i] == Written(ts[i], if i == 0 then x else BLANK)
  {
    seq(|ts|, i requires 0 <= i < |ts| => Written(ts[i], if i == 0 then x else BLANK))
  }

  /** Line 118: `move_dx` on tapes i.. in order, stopping at the first failure. */
  function MovedAllRightFrom(ts: seq<TapeValue>, i: nat): (r: (seq<TapeValue>, Option<nat>))
    requires i <= |ts|
    ensures |r.0| == |ts| && forall j | 0 <= j < i :: r.0[j] == ts[j]
    ensures (forall j | i <= j < |ts| :: ts[j].CanRead()) ==>
              r.1.None? && forall j | i <= j < |ts| :: r.0[j] == ts[j].(head := ts[j].head + 1)
    decreases |ts| - i
  {
    if i == |ts| then (ts, None)
    else match MovedRight(ts[i])
      case None => (ts, Some(i))
      case Some(t) => MovedAllRightFrom(ts[i := t], i + 1)
  }

  /** Lines 114-119 from symbol j of w on. */
  function LoadFrom(a: AlphabetValue, ts: seq<TapeValue>, w: string, j: nat): (r: (Result<(), Failure>, seq<TapeValue>))
    requires j <= |w| && Loadable(a, ts, w, j)
    ensures |r.1| == |ts| && forall i | 0 <= i < |ts| :: r.1[i].Valid() && |r.1[i].content| == |ts[i].content|
    decreases |w| - j
  {
    if j == |w| then (Ok(()), ts)
    else match a.GetLSymbol(w[j])
      case None => (Err(NotInAlphabet(w[j])), ts)
      case Some(x) =>
        var (moved, failed) := MovedAllRightFrom(WrittenColumn(ts, x), 0);
        match failed
          case Some(i) => (Err(CantMoveRight(i)), moved)
          case None => LoadFrom(a, moved, w, j + 1)
  }

  /** After the rewind, the known prefix of w fits on every tape (and tape 0 exists). */
  ghost predicate InputFits(c: Config) {
    c.alphabet.Some? && c.tapes.Some? ==>
      var n := KnownFrom(c.alphabet.value, c.w, 0);
      && (n > 0 ==> c.k > 0)
      && forall i | 0 <= i < |c.tapes.value| :: n <= |c.tapes.value[i].content|
  }

  /**
   * `write_input_on_tape`: rewind every head, then require an alphabet and
   * tapes, then write w symbol by symbol.
   */
  function WriteInput(c: Config): (r: (Result<(), Failure>, Config))
    requires Typed(c) && InputFits(c)
    ensures Typed(r.1)
    ensures r.1 == c.(tapes := r.1.tapes)
    ensures c.tapes.Some? <==> r.1.tapes.Some?
    ensures c.tapes.Some? ==> forall i | 0 <= i < c.k :: |r.1.tapes.value[i].content| == |c.tapes.value[i].content|
  {
    var c0 := RewindAll(c);
    if c0.alphabet.None? then (Err(AlphabetNeeded), c0)
    else if c0.tapes.None? then (Err(TapesNeeded), c0)
    else
      var (res, ts) := LoadFrom(c0.alphabet.value, c0.tapes.value, c0.w, 0);
      (res, c0.(tapes := Some(ts)))
  }

  /** Tape t with the cells from its head on replaced by col and the head moved past them. */
  function Overwritten(t: TapeValue, col: seq<LSymbol>): TapeValue
    requires t.head + |col| <= |t.content|
  {
    t.(content := t.content[..t.head] + col + t.content[t.head + |col|..], head := t.head + |col|)
  }

  lemma OverwrittenStep(t: TapeValue, x: LSymbol, col: seq<LSymbol>)
    requires t.head + 1 + |col| <= |t.content|
    ensures Overwritten(t.(content := t.content[t.head := x], head := t.head + 1), col) == Overwritten(t, [x] + col)
  {
    var t' := t.(content := t.content[t.head := x], head := t.head + 1);
    assert t'.content[..t'.head] == t.content[..t.head] + [x];
    assert t'.content[t'.head + |col|..] == t.content[t.head + |[x] + col|..];
  }

  /** What the load does to tape i: the column of the next n symbols at its head. */
  function Column(a: AlphabetValue, w: string, j: nat, n: nat, i: nat): (col: seq<LSymbol>)
    requires j + n <= |w| && forall d | j <= d < j + n :: a.GetLSymbol(w[d]).Some?
    ensures |col| == n
  {
    if i == 0 then Encoded(a, w[j..j + n]) else Blanks(n)
  }

  lemma ColumnStep(a: AlphabetValue, w: string, j: nat, n: nat, i: nat)
    requires n > 0 && j + n <= |w| && forall d | j <= d < j + n :: a.GetLSymbol(w[d]).Some?
    ensures Column(a, w, j, n, i) ==
              [if i == 0 then a.GetLSymbol(w[j]).value else BLANK] + Column(a, w, j + 1, n - 1, i)
  {
    if i == 0 {
      assert Encoded(a, w[j..j + n]) == [a.GetLSymbol(w[j]).value] + Encoded(a, w[j + 1..j + n]);
    } else {
      assert Blanks(n) == [BLANK] + Blanks(n - 1);
    }
  }

  /** One input symbol moves every head one cell on and shortens the known prefix by one. */
  lemma LoadStep(a: AlphabetValue, ts: seq<TapeValue>, w: string, j: nat)
    requires j < |w| && Loadable(a, ts, w, j) && a.GetLSymbol(w[j]).Some?
    ensures KnownFrom(a, w, j) > 0 && |ts| > 0 && AllReadable(ts)
    ensures KnownFrom(a, w, j + 1) == KnownFrom(a, w, j) - 1
    ensures var moved := MovedAllRightFrom(WrittenColumn(ts, a.GetLSymbol(w[j]).value), 0);
      moved.1.None? && Loadable(a, moved.0, w, j + 1)
  {
  }

  /** What one input symbol does to the result of the load and to tape i. */
  lemma LoadTapeStep(a: AlphabetValue, ts: seq<TapeValue>, w: string, j: nat, i: nat)
    requires j < |w| && Loadable(a, ts, w, j) && a.GetLSymbol(w[j]).Some? && i < |ts|
    ensures KnownFrom(a, w, j) > 0 && KnownFrom(a, w, j + 1) == KnownFrom(a, w, j) - 1
    ensures var x := a.GetLSymbol(w[j]).value;
      var moved := MovedAllRightFrom(WrittenColumn(ts, x), 0).0;
      && Loadable(a, moved, w, j + 1)
      && LoadFrom(a, ts, w, j).1 == LoadFrom(a, moved, w, j + 1).1
      && moved[i] == ts[i].(content := ts[i].content[ts[i].head := if i == 0 then x else BLANK], head := ts[i].head + 1)
      && var col := Column(a, w, j + 1, KnownFrom(a, w, j + 1), i);
      && ts[i].head + 1 + |col| <= |ts[i].content|
      && Column(a, w, j, KnownFrom(a, w, j), i) == [if i == 0 then x else BLANK] + col
  {
    LoadStep(a, ts, w, j);
    ColumnStep(a, w, j, KnownFrom(a, w, j), i);
  }

  /** A load that stops at once leaves every tape as it was. */
  lemma LoadStops(a: AlphabetValue, ts: seq<TapeValue>, w: string, j: nat, i: nat)
    requires j <= |w| && Loadable(a, ts, w, j) && i < |ts|
    requires j == |w| || a.GetLSymbol(w[j]).None?
    ensures KnownFrom(a, w, j) == 0
    ensures LoadFrom(a, ts, w, j).1[i] == Overwritten(ts[i], Column(a, w, j, 0, i))
  {
    assert ts[i].content[..ts[i].head] + [] + ts[i].content[ts[i].head..] == ts[i].content;
  }

  /** A symbol in the alphabet is written and the load goes on with the next one. */
  lemma LoadGoesOn(a: AlphabetValue, ts: seq<TapeValue>, w: string, j: nat)
    requires j < |w| && Loadable(a, ts, w, j) && a.GetLSymbol(w[j]).Some?
    ensures KnownFrom(a, w, j) == KnownFrom(a, w, j + 1) + 1
    ensures var moved := MovedAllRightFrom(WrittenColumn(ts, a.GetLSymbol(w[j]).value), 0).0;
      Loadable(a, moved, w, j + 1) && LoadFrom(a, ts, w, j) == LoadFrom(a, moved, w, j + 1)
  {
    LoadStep(a, ts, w, j);
  }

  /**
   * Loading w[j..] succeeds exactly when all its symbols are in the
   * alphabet, and otherwise reports the first one that is not;
   * `CantMoveRight` never happens.
   */
  lemma {:induction false} LoadFromOutcome(a: AlphabetValue, ts: seq<TapeValue>, w: string, j: nat)
    requires j <= |w| && Loadable(a, ts, w, j)
    ensures var n := KnownFrom(a, w, j);
      var res := LoadFrom(a, ts, w, j).0;
      && (res.Ok? <==> n == |w| - j)
      && (res.Err? ==> res.error == NotInAlphabet(w[j + n]))
    decreases |w| - j
  {
    if j == |w| {
    } else if a.GetLSymbol(w[j]).None? {
      assert KnownFrom(a, w, j) == 0;
      assert LoadFrom(a, ts, w, j).0 == Err(NotInAlphabet(w[j]));
    } else {
      LoadGoesOn(a, ts, w, j);
      var moved := MovedAllRightFrom(WrittenColumn(ts, a.GetLSymbol(w[j]).value), 0).0;
      LoadFromOutcome(a, moved, w, j + 1);
      var n := KnownFrom(a, w, j + 1);
      assert j + KnownFrom(a, w, j) == (j + 1) + n;
      var res := LoadFrom(a, moved, w, j + 1).0;
      assert LoadFrom(a, ts, w, j).0 == res;
      assert res.Err? ==> res.error == NotInAlphabet(w[(j + 1) + n]);
    }
  }

  /**
   * Loading w[j..] writes the codes of its known prefix under the head of
   * tape 0 and as many blanks under the head of every other tape i,
   * moving the head past them.
   */
  lemma {:induction false} LoadFromTape(a: AlphabetValue, ts: seq<TapeValue>, w: string, j: nat, i: nat)
    requires j <= |w| && Loadable(a, ts, w, j) && i < |ts|
    ensures LoadFrom(a, ts, w, j).1[i] == Overwritten(ts[i], Column(a, w, j, KnownFrom(a, w, j), i))
    decreases |w| - j
  {
    if j == |w| || a.GetLSymbol(w[j]).None? {
      LoadStops(a, ts, w, j, i);
    } else {
      var x := a.GetLSymbol(w[j]).value;
      LoadTapeStep(a, ts, w, j, i);
      var moved := MovedAllRightFrom(WrittenColumn(ts, x), 0).0;
      LoadFromTape(a, moved, w, j + 1, i);
      OverwrittenStep(ts[i], if i == 0 then x else BLANK, Column(a, w, j + 1, KnownFrom(a, w, j + 1), i));
    }
  }

  /** The cells of a tape overwritten from cell 0. */
  lemma OverwrittenCells(t: TapeValue, col: seq<LSymbol>)
    requires t.head == 0 && |col| <= |t.content|
    ensures Overwritten(t, col).head == |col|
    ensures |Overwritten(t, col).content| == |t.content|
    ensures forall d | 0 <= d < |col| :: Overwritten(t, col).content[d] == col[d]
    ensures forall d | |col| <= d < |t.content| :: Overwritten(t, col).content[d] == t.content[d]
  {
  }

  /**
   * `write_input_on_tape` with an alphabet and tapes fails exactly when w
   * has a symbol outside the alphabet, and then names the first one.
   */
  lemma WriteInputOutcome(c: Config)
    requires Typed(c) && InputFits(c) && c.alphabet.Some? && c.tapes.Some?
    ensures var n := KnownFrom(c.alphabet.value, c.w, 0);
      var res := WriteInput(c).0;
      && (res.Ok? <==> n == |c.w|)
      && (res.Err? ==> res.error == NotInAlphabet(c.w[n]))
  {
    LoadFromOutcome(c.alphabet.value, Rewound(c.tapes.value), c.w, 0);
  }

  /**
   * What `write_input_on_tape` leaves on the tapes when the alphabet is
   * coherent: every head at the end of the known prefix of w, reading
   * tape 0 back through `get_r_symbol` gives that prefix, the other tapes
   * hold blanks there, and the cells past it are untouched.
   */
  lemma WriteInputRoundTrip(c: Config)
    requires Typed(c) && InputFits(c)
    requires c.alphabet.Some? && c.tapes.Some? && Coherent(c.alphabet.value)
    ensures var a := c.alphabet.value; var n := KnownFrom(a, c.w, 0);
      var c' := WriteInput(c).1;
      && (n > 0 ==> forall d | 0 <= d < n :: a.GetRSymbol(c'.tapes.value[0].content[d]) == Some(c.w[d]))
      && forall i | 0 <= i < c.k ::
           && c'.tapes.value[i].head == n
           && |c'.tapes.value[i].content| == |c.tapes.value[i].content|
           && (i > 0 ==> forall d | 0 <= d < n :: c'.tapes.value[i].content[d] == BLANK)
           && (forall d | n <= d < |c.tapes.value[i].content| :: c'.tapes.value[i].content[d] == c.tapes.value[i].content[d])
  {
    var a := c.alphabet.value;
    var ts0 := Rewound(c.tapes.value);
    var n := KnownFrom(a, c.w, 0);
    var ts := WriteInput(c).1.tapes.value;
    forall i | 0 <= i < c.k
      ensures ts[i] == Overwritten(ts0[i], Column(a, c.w, 0, n, i))
      ensures ts[i].head == n && |ts[i].content| == |c.tapes.value[i].content|
      ensures forall d | 0 <= d < n :: ts[i].content[d] == Column(a, c.w, 0, n, i)[d]
      ensures forall d | n <= d < |c.tapes.value[i].content| :: ts[i].content[d] == c.tapes.value[i].content[d]
    {
      LoadFromTape(a, ts0, c.w, 0, i);
      OverwrittenCells(ts0[i], Column(a, c.w, 0, n, i));
    }
    if n > 0 {
      LookupsAreInverse(a);
      forall d | 0 <= d < n ensures a.GetRSymbol(ts[0].content[d]) == Some(c.w[d]) {
        assert ts[0].content[d] == Encoded(a, c.w[0..n])[d] == a.GetLSymbol(c.w[d]).value;
      }
    }
  }

  // ---------------------------------------------------------------------
  // Step

  /** Every head is on a cell, so `read` does not index past a tape. */
  predicate AllReadable(ts: seq<TapeValue>) {
    forall i | 0 <= i < |ts| :: ts[i].CanRead()
  }

  /** `step` reaches the reads only with a machine and tapes; then they must succeed. */
  predicate CanStep(c: Config) {
    c.m.None? || c.tapes.None? || AllReadable(c.tapes.value)
  }

  /** Lines 288-290: the K cells under the heads. */
  function ReadAll(ts: seq<TapeValue>): seq<LSymbol>
    requires AllReadable(ts)
  {
    seq(|ts|, i requires 0 <= i < |ts| => ReadCell(ts[i]))
  }

  /** Lines 295-303: `dx` moves right, `sx` moves left, anything else is written. */
  function ApplyAction(t: TapeValue, act: LSymbol, m: Machine): Option<TapeValue>
    requires t.CanRead() && m.biggestSymbolIndex <= 0xFD
  {
    if act == m.Dx() then MovedRight(t)
    else if act == m.Sx() then MovedLeft(t)
    else Some(Written(t, act))
  }

  /** The message of a failed action. */
  function MoveFailure(act: LSymbol, m: Machine): Failure
    requires m.biggestSymbolIndex <= 0xFD
  {
    if act == m.Dx() then CouldNotMoveRight else CouldNotMoveLeft
  }

  /** Lines 294-304 from tape i on: the tapes after the loop and the tape that failed, if any. */
  function ApplyFrom(ts: seq<TapeValue>, acts: seq<LSymbol>, m: Machine, i: nat): (seq<TapeValue>, Option<nat>)
    requires |acts| == |ts| && i <= |ts| && m.biggestSymbolIndex <= 0xFD
    requires forall j | i <= j < |ts| :: ts[j].CanRead()
    decreases |ts| - i
  {
    if i == |ts| then (ts, None)
    else match ApplyAction(ts[i], acts[i], m)
      case None => (ts, Some(i))
      case Some(t) => ApplyFrom(ts[i := t], acts, m, i + 1)
  }

  /**
   * The actions are applied tape by tape: without a failure every tape j
   * gets its own action; when the action of tape f fails, the tapes below
   * f have already been changed and f and the tapes above it have not.
   * Tapes stay within bounds.
   */
  lemma {:induction false} ApplyFromEffect(ts: seq<TapeValue>, acts: seq<LSymbol>, m: Machine, i: nat)
    requires |acts| == |ts| && i <= |ts| && m.biggestSymbolIndex <= 0xFD
    requires forall j | i <= j < |ts| :: ts[j].CanRead()
    ensures var (ts', failed) := ApplyFrom(ts, acts, m, i);
      && |ts'| == |ts|
      && (forall j | 0 <= j < i :: ts'[j] == ts[j])
      && (failed.None? ==> forall j | i <= j < |ts| :: ApplyAction(ts[j], acts[j], m) == Some(ts'[j]))
      && (failed.Some? ==>
            && i <= failed.value < |ts|
            && ApplyAction(ts[failed.value], acts[failed.value], m).None?
            && (forall j | i <= j < failed.value :: ApplyAction(ts[j], acts[j], m) == Some(ts'[j]))
            && (forall j | failed.value <= j < |ts| :: ts'[j] == ts[j]))
      && ((forall j | 0 <= j < |ts| :: ts[j].Valid()) ==> forall j | 0 <= j < |ts| :: ts'[j].Valid())
    decreases |ts| - i
  {
    if i < |ts| {
      match ApplyAction(ts[i], acts[i], m)
      case None =>
      case Some(t) =>
        ApplyFromEffect(ts[i := t], acts, m, i + 1);
    }
  }

  /** A transition found by `get_transition` has one action per tape. */
  lemma FoundTransitionFits(m: Machine, q: State, x: seq<LSymbol>)
    requires m.Valid() && |x| == m.k && m.GetTransition(q, x).Ok?
    ensures |m.GetTransition(q, x).value.1| == m.k
  {
    assert m.Entry((q, x), m.transitions[(q, x)]);
  }

  /**
   * `step`: read the K cells, look the transition up, apply its actions in
   * tape order, then move to its next state. A failed lookup of any kind
   * is `NeedToStop`; a failed move is an error that leaves the earlier
   * tapes changed and the state unchanged.
   */
  function Step(c: Config): (r: (Result<Feedback, Failure>, Config))
    requires Typed(c) && CanStep(c)
    ensures Typed(r.1)
  {
    if c.m.None? then (Err(NoMachine), c)
    else if c.tapes.None? then (Err(NoTapes), c)
    else
      var m := c.m.value;
      var ts := c.tapes.value;
      var x := ReadAll(ts);
      match m.GetTransition(c.current, x)
      case Err(_) => (Ok(NeedToStop), c)
      case Ok(out) =>
        FoundTransitionFits(m, c.current, x);
        ApplyFromEffect(ts, out.1, m, 0);
        var (ts', failed) := ApplyFrom(ts, out.1, m, 0);
        match failed
        case Some(f) => (Err(MoveFailure(out.1[f], m)), c.(tapes := Some(ts')))
        case None => (Ok(CanContinue), c.(tapes := Some(ts'), current := out.0))
  }

  /**
   * What one step does, stated per tape: without machine or tapes it is an
   * error that changes nothing; a missing transition stops with nothing
   * changed; otherwise every tape gets the action of the transition for
   * the cells read and the state becomes its next state, unless a move
   * fails, in which case exactly the tapes below the failing one were
   * changed. Only tapes and state change, and bounds are kept.
   */
  lemma StepEffect(c: Config)
    requires Typed(c) && CanStep(c)
    ensures var (res, c') := Step(c);
      && Typed(c')
      && c' == c.(tapes := c'.tapes, current := c'.current)
      && (c.m.None? ==> res == Err(NoMachine) && c' == c)
      && (c.m.Some? && c.tapes.None? ==> res == Err(NoTapes) && c' == c)
      && (c.m.Some? && c.tapes.Some? ==>
            var m := c.m.value; var ts := c.tapes.value; var ts' := c'.tapes.value;
            var found := m.GetTransition(c.current, ReadAll(ts));
            && (found.Err? <==> res == Ok(NeedToStop))
            && (found.Err? ==> c' == c)
            && (found.Ok? ==> |found.value.1| == c.k && |ts'| == c.k)
            && (res == Ok(CanContinue) ==>
                  && c'.current == found.value.0
                  && forall i | 0 <= i < c.k :: ApplyAction(ts[i], found.value.1[i], m) == Some(ts'[i]))
            && (res.Err? ==>
                  && found.Ok? && c'.current == c.current
                  && exists f | 0 <= f < c.k ::
                       && ApplyAction(ts[f], found.value.1[f], m).None?
                       && res.error == MoveFailure(found.value.1[f], m)
                       && (forall i | 0 <= i < f :: ApplyAction(ts[i], found.value.1[i], m) == Some(ts'[i]))
                       && (forall i | f <= i < c.k :: ts'[i] == ts[i])))
  {
    if c.m.Some? && c.tapes.Some? {
      var m := c.m.value;
      var ts := c.tapes.value;
      var found := m.GetTransition(c.current, ReadAll(ts));
      if found.Ok? {
        FoundTransitionFits(m, c.current, ReadAll(ts));
        ApplyFromEffect(ts, found.value.1, m, 0);
        var (ts', failed) := ApplyFrom(ts, found.value.1, m, 0);
        if failed.Some? {
          var f := failed.value;
          assert ApplyAction(ts[f], found.value.1[f], m).None?;
        }
      }
    }
  }

  // ---------------------------------------------------------------------
  // Run loop

  /**
   * One iteration of lines 199-233 of `start`, with the flags as they
   * stand: parked while paused, leave on stopped or terminated, otherwise
   * step; a completed transition adds one to the count (None: go on), a
   * halt or an error sets `terminated` and leaves.
   */
  function Iteration(c: Config): (r: (Option<Exit>, Config))
    requires Typed(c)
    ensures Typed(r.1)
  {
    if c.paused && !c.stopped && !c.terminated then (Some(Parked), c)
    else if c.stopped || c.terminated then (Some(Stopped), c)
    else if !CanStep(c) then (Some(Crashed), c)
    else
      var (res, c') := Step(c);
      match res
      case Ok(CanContinue) => (None, c'.(transitionCount := c'.transitionCount + 1))
      case Ok(NeedToStop) => (Some(Halted), c'.(terminated := true))
      case Err(f) => (Some(Faulted(f)), c'.(terminated := true))
  }

  /** The run loop of `start`, at most `fuel` iterations. */
  function Run(c: Config, fuel: nat): (r: (Exit, Config))
    requires Typed(c)
    ensures Typed(r.1)
    decreases fuel
  {
    if fuel == 0 then (OutOfFuel, c)
    else
      var (exit, c') := Iteration(c);
      if exit.Some? then (exit.value, c') else Run(c', fuel - 1)
  }

  /**
   * One iteration changes only tapes, state, count and `terminated`; it
   * adds one to the count exactly when it goes on; it sets `terminated`
   * exactly when it halts or faults; and it parks, stops or crashes
   * without any change.
   */
  lemma IterationEffect(c: Config)
    requires Typed(c)
    ensures var (exit, c') := Iteration(c);
      && c' == c.(tapes := c'.tapes, current := c'.current, transitionCount := c'.transitionCount, terminated := c'.terminated)
      && c'.transitionCount == c.transitionCount + (if exit.None? then 1 else 0)
      && (exit == Some(Halted) || (exit.Some? && exit.value.Faulted?) <==> !c.terminated && c'.terminated)
      && (exit.None? ==> !c'.paused && !c'.stopped && !c'.terminated)
      && (exit == Some(Parked) ==> c' == c && c.paused && !c.stopped && !c.terminated)
      && (exit == Some(Stopped) ==> c' == c && (c.stopped || c.terminated))
      && (exit == Some(Crashed) ==> c' == c && !CanStep(c))
      && exit != Some(OutOfFuel)
  {
    if !(c.paused && !c.stopped && !c.terminated) && !(c.stopped || c.terminated) && CanStep(c) {
      StepEffect(c);
    }
  }

  /**
   * What a run keeps and changes: only tapes, state, count and
   * `terminated` change; the count grows by at most the fuel; it ends by
   * setting `terminated` exactly when it halts or faults; and it parks or
   * stops without a single step, since no flag that decides those changes
   * during a run.
   */
  lemma {:induction false} RunEffect(c: Config, fuel: nat)
    requires Typed(c)
    ensures var (exit, c') := Run(c, fuel);
      && c' == c.(tapes := c'.tapes, current := c'.current, transitionCount := c'.transitionCount, terminated := c'.terminated)
      && c.transitionCount <= c'.transitionCount <= c.transitionCount + fuel
      && (exit.Halted? || exit.Faulted? <==> !c.terminated && c'.terminated)
      && (exit == Parked ==> c' == c && c.paused && !c.stopped && !c.terminated)
      && (exit == Stopped ==> c' == c && (c.stopped || c.terminated))
      && (exit == Crashed ==> !CanStep(c'))
    decreases fuel
  {
    if fuel > 0 {
      IterationEffect(c);
      var (exit, c') := Iteration(c);
      if exit.None? {
        RunEffect(c', fuel - 1);
      }
    }
  }

  /**
   * Fuel only bounds the model: a run that ends for its own reasons ends
   * the same with more fuel, and a run cut short resumes where it stopped.
   */
  lemma {:induction false} RunSplits(c: Config, fuel1: nat, fuel2: nat)
    requires Typed(c)
    ensures Run(c, fuel1 + fuel2) ==
              if Run(c, fuel1).0 == OutOfFuel then Run(Run(c, fuel1).1, fuel2) else Run(c, fuel1)
    decreases fuel1
  {
    if fuel1 > 0 {
      IterationEffect(c);
      var (exit, c') := Iteration(c);
      if exit.None? {
        RunSplits(c', fuel1 - 1, fuel2);
      }
    }
  }

  /**
   * `start`: load the input if w is not empty (its error is returned),
   * then the thread rewinds every head and runs the loop.
   */
  function Start(c: Config, fuel: nat): (r: (Result<Exit, Failure>, Config))
    requires Typed(c) && (|c.w| > 0 ==> InputFits(c))
  {
    var (loaded, c1) := if |c.w| > 0 then WriteInput(c) else (Ok(()), c);
    if loaded.Err? then (Err(loaded.error), c1)
    else
      var (exit, c2) := Run(RewindAll(c1), fuel);
      (Ok(exit), c2)
  }

  // ---------------------------------------------------------------------
  // Control flags and final state

  /** `pause`: ignored once stopped or terminated. */
  function Pause(c: Config): Config {
    if c.terminated || c.stopped then c else c.(paused := true)
  }

  /** `resume`: only a paused, live computation is resumed. */
  function Resume(c: Config): Config {
    if !c.paused || c.stopped || c.terminated then c else c.(paused := false)
  }

  /** `stop`: unconditional. */
  function Stop(c: Config): Config {
    c.(stopped := true)
  }

  /** `reset`: count and state to 0, all flags cleared; tapes, machine, alphabet and w stay. */
  function Reset(c: Config): Config {
    c.(transitionCount := 0, current := 0, paused := false, stopped := false, terminated := false)
  }

  /**
   * The flags as a small state machine: stopping is final for `pause`
   * and `resume`; resuming undoes a pause of a live computation; pausing
   * twice or resuming twice is the same as once; none of them touches
   * tapes, machine, alphabet, w, state or count.
   */
  lemma ControlFlags(c: Config)
    ensures Pause(Stop(c)) == Stop(c) && Resume(Stop(c)) == Stop(c) && Stop(Stop(c)) == Stop(c)
    ensures !c.paused && !c.stopped && !c.terminated ==> Resume(Pause(c)) == c && Pause(c).paused
    ensures Pause(Pause(c)) == Pause(c) && Resume(Resume(c)) == Resume(c)
    ensures Pause(c) == c.(paused := Pause(c).paused)
    ensures Resume(c) == c.(paused := Resume(c).paused)
    ensures Stop(c).stopped && Stop(c) == c.(stopped := true)
  {
  }

  /**
   * A paused computation parks the run loop without a step; stopping it
   * while paused lets the loop leave instead of waiting forever; resuming
   * it lets the loop step again.
   */
  lemma PauseThenStop(c: Config, fuel: nat)
    requires Typed(c) && fuel > 0 && !c.stopped && !c.terminated
    ensures Run(Pause(c), fuel) == (Parked, Pause(c))
    ensures Run(Stop(Pause(c)), fuel) == (Stopped, Stop(Pause(c)))
    ensures Run(Resume(Pause(c)), fuel).0 != Parked && Run(Resume(Pause(c)), fuel).0 != Stopped
  {
    RunEffect(Resume(Pause(c)), fuel);
  }

  /**
   * `reset` after a run: count, state and flags are cleared, the tapes are
   * those the run left, and the next run is neither parked nor stopped.
   */
  lemma ResetAfterRun(c: Config, fuel: nat, fuel2: nat)
    requires Typed(c)
    ensures var c' := Reset(Run(c, fuel).1);
      && c'.transitionCount == 0 && c'.current == 0
      && !c'.paused && !c'.stopped && !c'.terminated
      && c'.tapes == Run(c, fuel).1.tapes
      && c'.m == c.m && c'.alphabet == c.alphabet && c'.w == c.w
      && Run(c', fuel2).0 != Parked && Run(c', fuel2).0 != Stopped
  {
    RunEffect(c, fuel);
    RunEffect(Reset(Run(c, fuel).1), fuel2);
  }

  /** `is_on_final_state`: an error from `is_final_state` counts as false. */
  function IsOnFinalState(c: Config): bool {
    match c.m
    case None => false
    case Some(m) =>
      match m.IsFinalState(c.current)
      case Ok(b) => b
      case Err(_) => false
  }

  /** On a valid machine, the computation is on a final state exactly when its state is in the set. */
  lemma IsOnFinalStateMeans(c: Config)
    requires Typed(c)
    ensures IsOnFinalState(c) <==> c.m.Some? && c.current in c.m.value.finalStates
  {
  }

  // ---------------------------------------------------------------------
  // Rendering

  /** The surface symbol of a cell, or the blank when the code is not registered. */
  function Render(a: AlphabetValue, cells: seq<LSymbol>): (s: string)
    ensures |s| == |cells|
  {
    seq(|cells|, j requires 0 <= j < |cells| => a.GetRSymbol(cells[j]).GetOr(a.blank))
  }

  /** `head` spaces. */
  function Spaces(n: nat): (s: string)
    ensures |s| == n && forall j | 0 <= j < n :: s[j] == ' '
  {
    seq(n, _ => ' ')
  }

  /**
   * `output(idx)`: the tape's cells, then "...\n", then a caret under the
   * head. The alphabet is unwrapped, so it must be there for idx < K.
   */
  function Output(c: Config, idx: nat): (r: Result<string, Failure>)
    requires Typed(c) && (idx < c.k ==> c.alphabet.Some?)
  {
    if idx >= c.k then Err(IndexOutOfBounds)
    else if c.tapes.None? then Err(NoTape)
    else
      var t := c.tapes.value[idx];
      Ok(Render(c.alphabet.value, t.content) + "...\n" + Spaces(t.head) + "^")
  }

  /**
   * Reading `output(idx)` back: it is an error exactly for idx >= K or
   * without tapes; otherwise the first line decodes, through
   * `get_l_symbol`, to the tape's cells (unregistered codes coming back as
   * the blank), and the caret of the second line stands in the head's
   * column.
   */
  lemma OutputReadsBack(c: Config, idx: nat)
    requires Typed(c) && (idx < c.k ==> c.alphabet.Some?)
    ensures Output(c, idx).Err? <==> idx >= c.k || c.tapes.None?
    ensures idx >= c.k ==> Output(c, idx) == Err(IndexOutOfBounds)
    ensures Output(c, idx).Ok? ==>
      var a := c.alphabet.value; var t := c.tapes.value[idx]; var s := Output(c, idx).value;
      && |s| == |t.content| + 4 + t.head + 1
      && s[|t.content|..|t.content| + 4] == "...\n"
      && s[|s| - 1] == '^' && |s| - 1 - (|t.content| + 4) == t.head
      && (forall j | |t.content| + 4 <= j < |s| - 1 :: s[j] == ' ')
      && (Coherent(a) && a.GetLSymbol(a.blank) == Some(BLANK) ==>
            forall j | 0 <= j < |t.content| ::
              a.GetLSymbol(s[j]) == Some(if t.content[j] < a.Len() then t.content[j] else BLANK))
  {
    if Output(c, idx).Ok? {
      var a := c.alphabet.value;
      var t := c.tapes.value[idx];
      var s := Output(c, idx).value;
      assert s == Render(a, t.content) + "...\n" + Spaces(t.head) + "^";
      if Coherent(a) && a.GetLSymbol(a.blank) == Some(BLANK) {
        LookupsAreInverse(a);
        forall j | 0 <= j < |t.content|
          ensures a.GetLSymbol(s[j]) == Some(if t.content[j] < a.Len() then t.content[j] else BLANK)
        {
          assert s[j] == Render(a, t.content)[j];
        }
      }
    }
  }

  /** `output(i)` followed by a newline for i = n-1 down to 0. */
  function OutputLines(c: Config, n: nat): string
    requires Typed(c) && n <= c.k && c.alphabet.Some? && c.tapes.Some?
  {
    if n == 0 then "" else Output(c, n - 1).value + "\n" + OutputLines(c, n - 1)
  }

  /**
   * `output_all`: every tape from K-1 down to 0, each followed by a
   * newline, and the last newline removed. The final `truncate(len - 1)`
   * underflows for K = 0, and each `output` unwraps the alphabet.
   */
  function OutputAll(c: Config): (r: Result<string, Failure>)
    requires Typed(c) && (c.tapes.Some? ==> c.k > 0 && c.alphabet.Some?)
  {
    if c.tapes.None? then Err(NoTapes)
    else
      var s := OutputLines(c, c.k);
      Ok(s[..|s| - 1])
  }

  /** The lines for n tapes end with a newline and with the rendering of tape 0 before it. */
  lemma {:induction false} OutputLinesEnd(c: Config, n: nat)
    requires Typed(c) && 0 < n <= c.k && c.alphabet.Some? && c.tapes.Some?
    ensures var s := OutputLines(c, n); var last := Output(c, 0).value;
      |s| > |last| && s[|s| - 1] == '\n' && s[|s| - 1 - |last|..|s| - 1] == last
    decreases n
  {
    if n > 1 {
      OutputLinesEnd(c, n - 1);
      var rest := OutputLines(c, n - 1);
      var s := OutputLines(c, n);
      var last := Output(c, 0).value;
      assert s == Output(c, n - 1).value + "\n" + rest;
      assert s[|s| - 1 - |last|..|s| - 1] == rest[|rest| - 1 - |last|..|rest| - 1];
    }
  }

  /**
   * `output_all` puts the last tape on top and tape 0 at the bottom: the
   * text starts with `output(K-1)` followed by a newline (or is exactly it
   * for one tape) and ends with `output(0)`, with no final newline.
   */
  lemma OutputAllOrder(c: Config)
    requires Typed(c) && c.tapes.Some? && c.k > 0 && c.alphabet.Some?
    ensures var s := OutputAll(c).value; var top := Output(c, c.k - 1).value; var bottom := Output(c, 0).value;
      && |s| >= |top| && s[..|top|] == top
      && (c.k > 1 ==> |s| > |top| && s[|top|] == '\n')
      && (c.k == 1 ==> s == top)
      && |s| >= |bottom| && s[|s| - |bottom|..] == bottom
  {
    OutputLinesEnd(c, c.k);
    var lines := OutputLines(c, c.k);
    var s := OutputAll(c).value;
    var top := Output(c, c.k - 1).value;
    assert lines == top + "\n" + OutputLines(c, c.k - 1);
    assert s == lines[..|lines| - 1];
    assert s[..|top|] == lines[..|top|];
  }
}
