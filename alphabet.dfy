/**
 * The symbol table of the engine (src/turing/alphabet.rs): a two-way map
 * between surface characters and dense byte codes. The blank surface symbol
 * is registered first and so gets code 0.
 */
module Alphabets {
  import opened Defs

  /** The blank surface symbol used when none is given. */
  const DEFAULT_BLANK: char := '*'

  datatype AlphabetValue = AlphabetValue(blank: char, lToR: map<LSymbol, char>, rToL: map<char, LSymbol>) {

    /** `len`: the number of registered symbols. */
    function Len(): nat { |lToR| }

    /** `get_l_symbol`: the code of a surface symbol. */
    function GetLSymbol(s: char): Option<LSymbol> {
      if s in rToL then Some(rToL[s]) else None
    }

    /** `get_r_symbol`: the surface symbol of a code. */
    function GetRSymbol(c: LSymbol): Option<char> {
      if c in lToR then Some(lToR[c]) else None
    }
  }

  /**
   * The invariant the source keeps: the codes in use are exactly
   * `[0, len())` and the two maps are mutual inverses.
   */
  ghost predicate Coherent(a: AlphabetValue) {
    && (forall c: LSymbol :: c in a.lToR <==> c < |a.lToR|)
    && (forall c | c in a.lToR :: a.lToR[c] in a.rToL && a.rToL[a.lToR[c]] == c)
    && (forall s | s in a.rToL :: a.rToL[s] in a.lToR && a.lToR[a.rToL[s]] == s)
  }

  /**
   * `add_symbol`: the first component is true for `Ok(())`, false for
   * `Err(())`. A fresh symbol gets the code `len() as u8`; the cast
   * truncates, so once 256 codes are in use a fresh symbol takes code 0.
   */
  function AddSymbolTo(a: AlphabetValue, s: char): (r: (bool, AlphabetValue))
    ensures r.1.blank == a.blank
    ensures |r.1.lToR| <= |a.lToR| + 1
  {
    if s in a.rToL then (false, a)
    else
      var code: LSymbol := |a.lToR| % 256;
      (true, a.(lToR := a.lToR[code := s], rToL := a.rToL[s := code]))
  }

  /** `Alphabet::new(b)`: an empty table into which b is registered. */
  function NewAlphabet(blank: char): (a: AlphabetValue)
    ensures Coherent(a)
    ensures a.blank == blank && a.Len() == 1
    ensures a.GetLSymbol(blank) == Some(0) && a.GetRSymbol(0) == Some(blank)
  {
    var a := AddSymbolTo(AlphabetValue(blank, map[], map[]), blank).1;
    assert a.lToR == map[0 := blank];
    a
  }

  /**
   * `add_symbol` on a coherent table: a duplicate is refused with nothing
   * changed; a fresh symbol gets code `len()`, `len()` grows by exactly one,
   * and the table stays coherent.
   */
  lemma AddSymbolKeepsCoherent(a: AlphabetValue, s: char)
    requires Coherent(a)
    requires s in a.rToL || a.Len() < 256
    ensures var (ok, a') := AddSymbolTo(a, s);
      && Coherent(a')
      && (ok <==> s !in a.rToL)
      && (!ok ==> a' == a)
      && (ok ==> a'.Len() == a.Len() + 1 && a'.GetLSymbol(s) == Some(a.Len() as LSymbol)
                 && a'.GetRSymbol(a.Len() as LSymbol) == Some(s))
      && (ok ==> forall t | t != s :: a'.GetLSymbol(t) == a.GetLSymbol(t))
  {
    if s !in a.rToL {
      var code: LSymbol := |a.lToR|;
      assert code == |a.lToR| % 256;
      var a' := AddSymbolTo(a, s).1;
      assert code !in a.lToR;
      assert |a'.lToR| == |a.lToR| + 1;
      forall c: LSymbol ensures c in a'.lToR <==> c < |a'.lToR| { }
      forall t | t in a'.rToL ensures a'.rToL[t] in a'.lToR && a'.lToR[a'.rToL[t]] == t {
        if t != s {
          assert a.rToL[t] in a.lToR && a.lToR[a.rToL[t]] == t;
        }
      }
    }
  }

  /** The part of `AddSymbolKeepsCoherent` that a batch of additions needs. */
  lemma AddSymbolStep(a: AlphabetValue, s: char)
    requires Coherent(a)
    requires s in a.rToL || a.Len() < 256
    ensures Coherent(AddSymbolTo(a, s).1)
    ensures AddSymbolTo(a, s).0 <==> s !in a.rToL
    ensures AddSymbolTo(a, s).1.rToL.Keys == a.rToL.Keys + {s}
    ensures AddSymbolTo(a, s).1.Len() == a.Len() + (if AddSymbolTo(a, s).0 then 1 else 0)
  {
    AddSymbolKeepsCoherent(a, s);
  }

  /**
   * With all 256 codes in use, a fresh symbol is still accepted: it takes
   * code 0 from the symbol that held it, which keeps code 0 in the other
   * map, so the two maps stop being inverses.
   */
  lemma FullTableReusesCodeZero(a: AlphabetValue, s: char)
    requires Coherent(a) && a.Len() == 256 && s !in a.rToL
    ensures var (ok, a') := AddSymbolTo(a, s);
      && ok && a'.Len() == 256
      && a'.GetRSymbol(0) == Some(s) && a'.GetLSymbol(s) == Some(0)
      && a.GetRSymbol(0).Some? && a.GetRSymbol(0).value != s
      && a'.GetLSymbol(a.GetRSymbol(0).value) == Some(0)
      && !Coherent(a')
  {
    assert 0 in a.lToR;
    var t := a.lToR[0];
    assert t in a.rToL;
    var a' := AddSymbolTo(a, s).1;
    assert a'.rToL[t] == 0 && a'.lToR[0] == s;
  }

  /**
   * On a coherent table the maps are mutual inverses: every registered
   * symbol comes back from its code and every code below `len()` comes back
   * from its symbol.
   */
  lemma LookupsAreInverse(a: AlphabetValue)
    requires Coherent(a)
    ensures forall s | a.GetLSymbol(s).Some? :: a.GetRSymbol(a.GetLSymbol(s).value) == Some(s)
    ensures forall c: LSymbol | c < a.Len() :: a.GetRSymbol(c).Some? && a.GetLSymbol(a.GetRSymbol(c).value) == Some(c)
    ensures forall c: LSymbol :: a.GetRSymbol(c).Some? <==> c < a.Len()
  {
  }

  /** The symbols occurring in a batch. */
  function Elems(symbols: seq<char>): set<char> {
    set x | x in symbols
  }

  /** What `add_symbols` returns together with the table it leaves. */
  datatype Batch = Batch(inserted: nat, rejected: nat, alphabet: AlphabetValue)

  /**
   * Room for a batch: the table has a code below 256 for every symbol of
   * the batch it does not hold yet, so no insertion wraps; repeats and
   * registered symbols need none.
   */
  ghost predicate Room(a: AlphabetValue, symbols: seq<char>) {
    a.Len() + |Elems(symbols) - a.rToL.Keys| <= 256
  }

  /**
   * `add_symbols`: the symbols are added in order, counting accepted and
   * refused ones.
   */
  function AddSymbolsTo(a: AlphabetValue, symbols: seq<char>): (r: Batch)
    ensures r.inserted + r.rejected == |symbols|
    ensures r.alphabet.blank == a.blank
    decreases |symbols|
  {
    if symbols == [] then Batch(0, 0, a)
    else
      var (ok, a') := AddSymbolTo(a, symbols[0]);
      var rest := AddSymbolsTo(a', symbols[1..]);
      if ok then Batch(rest.inserted + 1, rest.rejected, rest.alphabet)
      else Batch(rest.inserted, rest.rejected + 1, rest.alphabet)
  }

  /**
   * Room for a batch is room for its first symbol without wrapping and,
   * after that symbol is added, room for the rest.
   */
  lemma RoomForRest(a: AlphabetValue, symbols: seq<char>)
    requires symbols != [] && Room(a, symbols)
    ensures symbols[0] in a.rToL || a.Len() < 256
    ensures Room(AddSymbolTo(a, symbols[0]).1, symbols[1..])
  {
    var s := symbols[0];
    ElemsCons(symbols);
    NewSymbolsStep(a.rToL.Keys, Elems(symbols[1..]), s);
    if s !in a.rToL {
      assert s in Elems(symbols) - a.rToL.Keys;
    }
    AddSymbolKeys(a, s);
  }

  /** The symbols of a batch are its first one and those of the rest. */
  lemma ElemsCons(symbols: seq<char>)
    requires symbols != []
    ensures Elems(symbols) == {symbols[0]} + Elems(symbols[1..])
  {
    assert symbols == [symbols[0]] + symbols[1..];
  }

  /** `add_symbol` registers its symbol, whether or not it was already registered. */
  lemma AddSymbolKeys(a: AlphabetValue, s: char)
    ensures AddSymbolTo(a, s).1.rToL.Keys == a.rToL.Keys + {s}
  {
  }

  /** After `add_symbols` the registered symbols are the old ones plus the batch. */
  lemma {:induction false} AddSymbolsRegistersAll(a: AlphabetValue, symbols: seq<char>)
    ensures AddSymbolsTo(a, symbols).alphabet.rToL.Keys == a.rToL.Keys + Elems(symbols)
    decreases |symbols|
  {
    if symbols != [] {
      var a' := AddSymbolTo(a, symbols[0]).1;
      AddSymbolsRegistersAll(a', symbols[1..]);
      AddSymbolKeys(a, symbols[0]);
      ElemsCons(symbols);
    }
  }

  /** `add_symbols` keeps a coherent table coherent. */
  lemma {:induction false} AddSymbolsKeepsCoherent(a: AlphabetValue, symbols: seq<char>)
    requires Coherent(a)
    requires Room(a, symbols)
    ensures Coherent(AddSymbolsTo(a, symbols).alphabet)
    decreases |symbols|
  {
    if symbols != [] {
      RoomForRest(a, symbols);
      AddSymbolStep(a, symbols[0]);
      AddSymbolsKeepsCoherent(AddSymbolTo(a, symbols[0]).1, symbols[1..]);
    }
  }

  /** On a coherent table, `add_symbols` grows `len()` by exactly the number of symbols it reports inserted. */
  lemma {:induction false} AddSymbolsGrowsByInserted(a: AlphabetValue, symbols: seq<char>)
    requires Coherent(a)
    requires Room(a, symbols)
    ensures AddSymbolsTo(a, symbols).alphabet.Len() == a.Len() + AddSymbolsTo(a, symbols).inserted
    decreases |symbols|
  {
    if symbols != [] {
      RoomForRest(a, symbols);
      AddSymbolStep(a, symbols[0]);
      AddSymbolsGrowsByInserted(AddSymbolTo(a, symbols[0]).1, symbols[1..]);
    }
  }

  /**
   * `add_symbols` inserts exactly the symbols of the batch that were not
   * registered before, each once: a repeat within the batch is counted as
   * rejected.
   */
  lemma {:induction false} AddSymbolsInsertsNewOnes(a: AlphabetValue, symbols: seq<char>)
    ensures AddSymbolsTo(a, symbols).inserted == |Elems(symbols) - a.rToL.Keys|
    ensures AddSymbolsTo(a, symbols).rejected == |symbols| - |Elems(symbols) - a.rToL.Keys|
    decreases |symbols|
  {
    if symbols != [] {
      var s := symbols[0];
      var a' := AddSymbolTo(a, s).1;
      AddSymbolKeys(a, s);
      AddSymbolsInsertsNewOnes(a', symbols[1..]);
      ElemsCons(symbols);
      NewSymbolsStep(a.rToL.Keys, Elems(symbols[1..]), s);
    }
  }

  /** Counting the batch from its first symbol: s is new exactly when it is neither registered nor in the rest. */
  lemma NewSymbolsStep(keys: set<char>, rest: set<char>, s: char)
    ensures s in keys ==> |({s} + rest) - keys| == |rest - keys|
    ensures s !in keys ==> |({s} + rest) - keys| == |rest - (keys + {s})| + 1
  {
    if s in keys {
      assert ({s} + rest) - keys == rest - keys;
    } else {
      assert ({s} + rest) - keys == (rest - (keys + {s})) + {s};
    }
  }

  /**
   * The symbol table as the source keeps it: two maps that `add_symbol`
   * updates in place.
   */
  class Alphabet {
    const blankRSymbol: char
    var lToR: map<LSymbol, char>
    var rToL: map<char, LSymbol>

    function View(): AlphabetValue
      reads this
    {
      AlphabetValue(blankRSymbol, lToR, rToL)
    }

    constructor (blank: char)
      ensures View() == NewAlphabet(blank)
    {
      blankRSymbol := blank;
      lToR := map[];
      rToL := map[];
      new;
      var _ := AddSymbol(blank);
    }

    method AddSymbol(symbol: char) returns (ok: bool)
      modifies this
      ensures (ok, View()) == AddSymbolTo(old(View()), symbol)
    {
      if symbol in rToL {
        return false;
      }
      var currentCount: LSymbol := |lToR| % 256;
      lToR := lToR[currentCount := symbol];
      rToL := rToL[symbol := currentCount];
      ok := true;
    }

    /**
     * The two counters are `u8`s, so the batch must insert fewer than 256
     * symbols and refuse fewer than 256; counting never decreases, so
     * bounding the totals bounds every intermediate count.
     */
    method AddSymbols(symbols: seq<char>) returns (inserted: Byte, rejected: Byte)
      requires AddSymbolsTo(View(), symbols).inserted < 256 && AddSymbolsTo(View(), symbols).rejected < 256
      modifies this
      ensures Batch(inserted, rejected, View()) == AddSymbolsTo(old(View()), symbols)
    {
      ghost var total := AddSymbolsTo(View(), symbols);
      assert symbols[0..] == symbols;
      var ins: nat, rej: nat := 0, 0;
      for i := 0 to |symbols|
        invariant var rest := AddSymbolsTo(View(), symbols[i..]);
          total == Batch(ins + rest.inserted, rej + rest.rejected, rest.alphabet)
      {
        assert symbols[i..][0] == symbols[i] && symbols[i..][1..] == symbols[i + 1..];
        var ok := AddSymbol(symbols[i]);
        if ok {
          ins := ins + 1;
        } else {
          rej := rej + 1;
        }
      }
      assert symbols[|symbols|..] == [];
      inserted, rejected := ins, rej;
    }

    function GetLSymbol(s: char): Option<LSymbol>
      reads this
    {
      View().GetLSymbol(s)
    }

    function GetRSymbol(c: LSymbol): Option<char>
      reads this
    {
      View().GetRSymbol(c)
    }

    function Len(): nat
      reads this
    {
      |lToR|
    }
  }
}
