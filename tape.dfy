/**
 * The tape of the engine (src/turing/tape.rs): a growable vector of symbol
 * codes with a head cursor. The value `TapeValue` and the functions over it
 * say what each operation does; the class `Tape` performs the operations in
 * place and is proved to agree with them.
 */
module Tapes {
  import opened Defs

  /** Number of cells of a tape made by `Tape::new`. */
  const INITIAL_SIZE_GUESS: nat := 500

  datatype TapeValue = TapeValue(content: seq<LSymbol>, head: nat, extendOnEnd: bool) {
    /**
     * What every operation preserves. `move_dx` only fails when the head is
     * already at `size`, so the head can stand one past the last cell.
     */
    predicate Valid() { head <= |content| }

    /** The cell under the head exists; only then can it be read or written. */
    predicate CanRead() { head < |content| }
  }

  /** `Tape::with_content`: the given cells, head at 0. */
  function TapeWithContent(content: seq<LSymbol>, extendOnEnd: bool): (t: TapeValue)
    ensures t.Valid() && t.head == 0 && t.content == content && t.extendOnEnd == extendOnEnd
  {
    TapeValue(content, 0, extendOnEnd)
  }

  /** `Tape::with_size`: `size` blank cells, head at 0. */
  function BlankTape(size: nat, extendOnEnd: bool): (t: TapeValue)
    ensures t.Valid() && |t.content| == size && t.head == 0 && t.extendOnEnd == extendOnEnd
    ensures forall i | 0 <= i < size :: t.content[i] == BLANK
  {
    TapeWithContent(seq(size, _ => BLANK), extendOnEnd)
  }

  /** `Tape::new`: a blank tape of the default size. */
  function DefaultTape(extendOnEnd: bool): (t: TapeValue)
    ensures |t.content| == 500 && t.head == 0 && t.extendOnEnd == extendOnEnd
    ensures forall i | 0 <= i < |t.content| :: t.content[i] == BLANK
  {
    BlankTape(INITIAL_SIZE_GUESS, extendOnEnd)
  }

  /** `read`: the cell under the head (the source indexes, so the cell must exist). */
  function ReadCell(t: TapeValue): LSymbol
    requires t.CanRead()
  {
    t.content[t.head]
  }

  /** `write`: overwrite the cell under the head. */
  function Written(t: TapeValue, x: LSymbol): (r: TapeValue)
    requires t.CanRead()
    ensures r.head == t.head && r.extendOnEnd == t.extendOnEnd && |r.content| == |t.content|
    ensures r.content[t.head] == x
    ensures forall i | 0 <= i < |t.content| && i != t.head :: r.content[i] == t.content[i]
  {
    t.(content := t.content[t.head := x])
  }

  /** `move_sx`: None stands for `Err(())`, in which case nothing changes. */
  function MovedLeft(t: TapeValue): (r: Option<TapeValue>)
    ensures r.None? <==> t.head == 0
    ensures r.Some? ==> r.value.head + 1 == t.head && r.value.content == t.content
                        && r.value.extendOnEnd == t.extendOnEnd
    ensures t.Valid() && r.Some? ==> r.value.Valid()
  {
    if t.head == 0 then None else Some(t.(head := t.head - 1))
  }

  /**
   * `move_dx`: None stands for `Err(())`. It fails only when the head is at
   * `size` on a tape that does not extend; at `size` on an extending tape
   * it first appends one blank cell.
   */
  function MovedRight(t: TapeValue): (r: Option<TapeValue>)
    ensures r.None? <==> t.head == |t.content| && !t.extendOnEnd
    ensures r.Some? ==> r.value.head == t.head + 1 && r.value.extendOnEnd == t.extendOnEnd
    ensures r.Some? && t.head != |t.content| ==> r.value.content == t.content
    ensures r.Some? && t.head == |t.content| ==> r.value.content == t.content + [BLANK]
    ensures t.Valid() && r.Some? ==> r.value.Valid()
  {
    if t.head == |t.content| then
      if t.extendOnEnd then Some(TapeValue(t.content + [BLANK], t.head + 1, t.extendOnEnd)) else None
    else
      Some(t.(head := t.head + 1))
  }

  /** `n` consecutive `move_dx` calls; None if one of them fails. */
  function MovedRightTimes(t: TapeValue, n: nat): Option<TapeValue>
    decreases n
  {
    if n == 0 then Some(t)
    else match MovedRight(t)
      case None => None
      case Some(t') => MovedRightTimes(t', n - 1)
  }

  /**
   * On a tape that does not extend, from head h exactly `size - h`
   * consecutive `move_dx` calls succeed (leaving the head at `size`) and
   * one more fails; content is untouched.
   */
  lemma {:induction false} RightMovesUntilEnd(t: TapeValue, n: nat)
    requires t.Valid() && !t.extendOnEnd
    ensures n <= |t.content| - t.head ==>
              MovedRightTimes(t, n) == Some(t.(head := t.head + n))
    ensures n > |t.content| - t.head ==> MovedRightTimes(t, n).None?
    decreases n
  {
    if n > 0 {
      if t.head < |t.content| {
        RightMovesUntilEnd(t.(head := t.head + 1), n - 1);
      }
    }
  }

  /**
   * Consequence for a fresh tape of n cells that does not extend: exactly n
   * `move_dx` calls succeed, ending with the head at n (one past the last
   * cell), and the (n+1)-th fails.
   */
  lemma ExactlySizeRightMoves(size: nat)
    ensures MovedRightTimes(BlankTape(size, false), size).Some?
    ensures MovedRightTimes(BlankTape(size, false), size).value.head == size
    ensures MovedRightTimes(BlankTape(size, false), size + 1).None?
  {
    RightMovesUntilEnd(BlankTape(size, false), size);
    RightMovesUntilEnd(BlankTape(size, false), size + 1);
  }

  /**
   * On an extending tape whose head has reached `size`, every further
   * `move_dx` appends a blank and the head stays at `size`: the cell under
   * the head never exists again, so `read` cannot be called there.
   */
  lemma {:induction false} ExtendingTapeStaysPastEnd(t: TapeValue, n: nat)
    requires t.extendOnEnd && t.head == |t.content|
    ensures MovedRightTimes(t, n).Some?
    ensures MovedRightTimes(t, n).value.head == |MovedRightTimes(t, n).value.content| == t.head + n
    ensures !MovedRightTimes(t, n).value.CanRead()
    ensures MovedRightTimes(t, n).value.content[..|t.content|] == t.content
    decreases n
  {
    if n > 0 {
      var t' := MovedRight(t).value;
      ExtendingTapeStaysPastEnd(t', n - 1);
      assert t'.content[..|t.content|] == t.content;
      var r := MovedRightTimes(t', n - 1).value;
      assert r.content[..|t.content|] == r.content[..|t'.content|][..|t.content|];
    }
  }

  /**
   * The tape as the source keeps it: `content` is reassigned in place by
   * `write` and grown by `move_dx`; `extendOnEnd` is fixed at construction.
   */
  class Tape {
    var content: seq<LSymbol>
    var head: nat
    const extendOnEnd: bool

    function View(): TapeValue
      reads this
    {
      TapeValue(content, head, extendOnEnd)
    }

    constructor WithContent(content0: seq<LSymbol>, extend: bool)
      ensures View() == TapeWithContent(content0, extend)
    {
      content := content0;
      head := 0;
      extendOnEnd := extend;
    }

    constructor WithSize(size: nat, extend: bool)
      ensures View() == BlankTape(size, extend)
    {
      content := seq(size, _ => BLANK);
      head := 0;
      extendOnEnd := extend;
    }

    constructor New(extend: bool)
      ensures View() == DefaultTape(extend)
    {
      content := seq(INITIAL_SIZE_GUESS, _ => BLANK);
      head := 0;
      extendOnEnd := extend;
    }

    method Read() returns (x: LSymbol)
      requires View().CanRead()
      ensures x == ReadCell(View())
    {
      x := content[head];
    }

    method Write(x: LSymbol)
      requires View().CanRead()
      modifies this`content
      ensures View() == Written(old(View()), x)
    {
      content := content[head := x];
    }

    method MoveSx() returns (ok: bool)
      modifies this`head
      ensures ok == MovedLeft(old(View())).Some?
      ensures View() == MovedLeft(old(View())).GetOr(old(View()))
    {
      if head <= 0 {
        return false;
      }
      head := head - 1;
      ok := true;
    }

    method MoveDx() returns (ok: bool)
      modifies this`content, this`head
      ensures ok == MovedRight(old(View())).Some?
      ensures View() == MovedRight(old(View())).GetOr(old(View()))
    {
      if head == |content| {
        if !extendOnEnd {
          return false;
        } else {
          content := content + [BLANK];
        }
      }
      head := head + 1;
      ok := true;
    }

    function HeadPosition(): nat
      reads this
    {
      head
    }

    function Size(): nat
      reads this
    {
      |content|
    }

    function Content(): seq<LSymbol>
      reads this
    {
      content
    }

    function DoesExtendOnEnd(): bool
      reads this
    {
      extendOnEnd
    }
  }
}
