/**
 * The arrow of the graphical editor (src/gui_editor/arrow.rs) without its
 * geometry: identity, source and target node ids and the label list, with
 * the label operations and the decoding of the target-node and label
 * fields of `deserialize`. A line is handled as the pieces that splitting
 * it at ", " gives.
 */
module Arrows {
  import opened Defs

  datatype ArrowValue = ArrowValue(id: nat, from: nat, to: Option<nat>, labels: seq<string>)

  /** `Arrow::new`: no labels yet. */
  function NewArrow(id: nat, from: nat, to: Option<nat>): (a: ArrowValue)
    ensures a.labels == [] && a.id == id && a.from == from && a.to == to
  {
    ArrowValue(id, from, to, [])
  }

  /** `add_label`: appended at the end. */
  function WithLabel(a: ArrowValue, text: string): ArrowValue {
    a.(labels := a.labels + [text])
  }

  /** `remove_label_by_index`: nothing happens out of range. */
  function WithoutLabel(a: ArrowValue, index: nat): ArrowValue {
    if index >= |a.labels| then a else a.(labels := a.labels[..index] + a.labels[index + 1..])
  }

  /**
   * Adding a label appends it and keeps the earlier ones; removing an index
   * in range deletes exactly that label and keeps the others in order;
   * removing out of range changes nothing. Nothing but the labels changes.
   */
  lemma LabelOperations(a: ArrowValue, text: string, index: nat)
    ensures var b := WithLabel(a, text);
      && b == a.(labels := b.labels)
      && |b.labels| == |a.labels| + 1 && b.labels[|a.labels|] == text
      && forall i | 0 <= i < |a.labels| :: b.labels[i] == a.labels[i]
    ensures var b := WithoutLabel(a, index);
      && b == a.(labels := b.labels)
      && (index >= |a.labels| ==> b == a)
      && (index < |a.labels| ==>
            && |b.labels| == |a.labels| - 1
            && (forall i | 0 <= i < index :: b.labels[i] == a.labels[i])
            && (forall i | index <= i < |b.labels| :: b.labels[i] == a.labels[i + 1]))
  {
  }

  /** Removing the label just added gives the arrow back. */
  lemma RemoveAddedLabel(a: ArrowValue, text: string)
    ensures WithoutLabel(WithLabel(a, text), |a.labels|) == a
  {
    assert (a.labels + [text])[..|a.labels|] == a.labels;
  }

  /** The arrow with its label list updated in place. */
  class Arrow {
    const id: nat
    const from: nat
    const to: Option<nat>
    var labels: seq<string>

    function View(): ArrowValue
      reads this
    {
      ArrowValue(id, from, to, labels)
    }

    constructor (id: nat, from: nat, to: Option<nat>)
      ensures View() == NewArrow(id, from, to)
    {
      this.id := id;
      this.from := from;
      this.to := to;
      labels := [];
    }

    method AddLabel(text: string)
      modifies this
      ensures View() == WithLabel(old(View()), text)
    {
      labels := labels + [text];
    }

    method RemoveLabelByIndex(index: nat)
      modifies this
      ensures View() == WithoutLabel(old(View()), index)
    {
      if index >= |labels| {
        return;
      }
      labels := labels[..index] + labels[index + 1..];
    }
  }

  // ---------------------------------------------------------------------
  // Decoding

  predicate IsBracket(c: char) {
    c == '[' || c == ']'
  }

  /** Leading brackets removed. */
  function TrimStart(s: string): (r: string)
    ensures |r| <= |s| && r == s[|s| - |r|..]
    ensures forall i | 0 <= i < |s| - |r| :: IsBracket(s[i])
    ensures r == [] || !IsBracket(r[0])
  {
    if |s| > 0 && IsBracket(s[0]) then TrimStart(s[1..]) else s
  }

  /** Trailing brackets removed. */
  function TrimEnd(s: string): (r: string)
    ensures |r| <= |s| && r == s[..|r|]
    ensures forall i | |r| <= i < |s| :: IsBracket(s[i])
    ensures r == [] || !IsBracket(r[|r| - 1])
  {
    if |s| > 0 && IsBracket(s[|s| - 1]) then TrimEnd(s[..|s| - 1]) else s
  }

  /** `trim_matches(|c| c == '[' || c == ']')`. */
  function TrimBrackets(s: string): (r: string)
    ensures r == [] || (!IsBracket(r[0]) && !IsBracket(r[|r| - 1]))
  {
    TrimEnd(TrimStart(s))
  }

  /** Neither end is a bracket (the empty string qualifies). */
  predicate Unbracketed(s: string) {
    s == [] || (!IsBracket(s[0]) && !IsBracket(s[|s| - 1]))
  }

  /** Only brackets. */
  predicate AllBrackets(s: string) {
    forall i | 0 <= i < |s| :: IsBracket(s[i])
  }

  lemma TrimStartOf(p: string, s: string)
    requires AllBrackets(p) && (s == [] || !IsBracket(s[0]))
    ensures TrimStart(p + s) == s
    decreases |p|
  {
    if p != [] {
      assert (p + s)[1..] == p[1..] + s;
      TrimStartOf(p[1..], s);
    } else {
      assert p + s == s;
    }
  }

  lemma TrimEndOf(s: string, q: string)
    requires AllBrackets(q) && (s == [] || !IsBracket(s[|s| - 1]))
    ensures TrimEnd(s + q) == s
    decreases |q|
  {
    if q != [] {
      assert (s + q)[..|s + q| - 1] == s + q[..|q| - 1];
      TrimEndOf(s, q[..|q| - 1]);
    } else {
      assert s + q == s;
    }
  }

  /**
   * Trimming removes exactly the brackets around a string whose ends are
   * not brackets; in particular it leaves such a string unchanged.
   */
  lemma TrimBracketsOf(p: string, s: string, q: string)
    requires AllBrackets(p) && AllBrackets(q) && Unbracketed(s)
    ensures TrimBrackets(p + s + q) == s
  {
    if s == [] {
      assert AllBrackets(p + q);
      assert p + s + q == p + q;
      TrimStartOf(p + q, []);
      assert (p + q) + [] == p + q;
    } else {
      assert p + s + q == p + (s + q);
      TrimStartOf(p, s + q);
      TrimEndOf(s, q);
    }
  }

  /** The largest `usize` (the editor is built for 64-bit targets). */
  const USIZE_MAX: nat := 0xFFFF_FFFF_FFFF_FFFF

  predicate IsDigit(c: char) {
    '0' <= c <= '9'
  }

  predicate AllDigits(s: string) {
    forall i | 0 <= i < |s| :: IsDigit(s[i])
  }

  /** The number a string of decimal digits spells. */
  function DigitsValue(s: string): nat
    requires AllDigits(s)
  {
    if s == [] then 0
    else
      var last := s[|s| - 1];
      assert IsDigit(last);
      10 * DigitsValue(s[..|s| - 1]) + (last as int - '0' as int)
  }

  /** At least one digit and no overflow. */
  function ParseDigits(s: string): Option<nat> {
    if s != [] && AllDigits(s) && DigitsValue(s) <= USIZE_MAX then Some(DigitsValue(s)) else None
  }

  /** `str::parse::<usize>`: an optional '+', then the digits. */
  function ParseUsize(s: string): Option<nat> {
    if |s| > 0 && s[0] == '+' then ParseDigits(s[1..]) else ParseDigits(s)
  }

  /** `format!("{}", n)` for a `usize`: decimal, no sign, no leading zero. */
  function Decimal(n: nat): (s: string)
    ensures s != [] && s[0] != '+'
    ensures AllDigits(s)
  {
    if n < 10 then ['0' + n as char] else Decimal(n / 10) + ['0' + (n % 10) as char]
  }

  lemma {:induction false} DecimalValue(n: nat)
    ensures DigitsValue(Decimal(n)) == n
  {
    if n >= 10 {
      var s := Decimal(n);
      assert s[..|s| - 1] == Decimal(n / 10);
      DecimalValue(n / 10);
    }
  }

  /** Parsing what `format!` printed gives the number back. */
  lemma ParseDecimal(n: nat)
    requires n <= USIZE_MAX
    ensures ParseUsize(Decimal(n)) == Some(n)
  {
    DecimalValue(n);
  }

  /**
   * The target-node field (piece 4) of `deserialize`: "none" is no target,
   * anything else must parse as a `usize`.
   */
  function DecodeTo(pieces: seq<string>): Result<Option<nat>, string> {
    if |pieces| <= 4 then Err("No id to")
    else if pieces[4] == "none" then Ok(None)
    else match ParseUsize(pieces[4])
      case None => Err("Could not parse to id")
      case Some(n) => Ok(Some(n))
  }

  /**
   * The decoding fails when the field is missing and when it is neither
   * "none" nor a number: empty, signed negative, or beyond `usize`.
   */
  lemma DecodeToErrors(pieces: seq<string>)
    ensures |pieces| <= 4 ==> DecodeTo(pieces) == Err("No id to")
    ensures |pieces| > 4 && (pieces[4] == "" || pieces[4] == "+" || (pieces[4] != [] && pieces[4][0] == '-')) ==>
              DecodeTo(pieces) == Err("Could not parse to id")
    ensures |pieces| > 4 && pieces[4] == Decimal(USIZE_MAX + 1) ==> DecodeTo(pieces) == Err("Could not parse to id")
  {
    if |pieces| > 4 {
      var d := pieces[4];
      if d == "" {
        assert ParseUsize(d).None?;
      } else if d == "+" {
        assert d[0] == '+' && d[1..] == [];
      } else if d[0] == '-' {
        assert d != "none" && !IsDigit(d[0]);
        assert !AllDigits(d);
      }
      if d == Decimal(USIZE_MAX + 1) {
        DecimalValue(USIZE_MAX + 1);
        assert d != "none" by { assert IsDigit(d[0]); }
        assert d[0] != '+' && DigitsValue(d) > USIZE_MAX;
        assert ParseUsize(d).None?;
      }
    }
  }

  /** How `serialize` writes the target node. */
  function EncodeTo(to: Option<nat>): string {
    match to
    case None => "none"
    case Some(n) => Decimal(n)
  }

  /** The target node written by `serialize` is read back by `deserialize`. */
  lemma ToRoundTrip(pieces: seq<string>, to: Option<nat>)
    requires |pieces| > 4 && pieces[4] == EncodeTo(to)
    requires to.Some? ==> to.value <= USIZE_MAX
    ensures DecodeTo(pieces) == Ok(to)
  {
    if to.Some? {
      ParseDecimal(to.value);
      assert pieces[4][0] != 'n';
    }
  }

  /** Every piece with its brackets trimmed. */
  function Trimmed(pieces: seq<string>): (r: seq<string>)
    ensures |r| == |pieces|
    ensures forall i | 0 <= i < |r| :: Unbracketed(r[i])
  {
    seq(|pieces|, i requires 0 <= i < |pieces| => TrimBrackets(pieces[i]))
  }

  /** The labels `deserialize` reads: every piece from index 5 on, brackets trimmed. */
  function LabelsFrom(pieces: seq<string>): (labels: seq<string>)
    requires |pieces| >= 5
    ensures |labels| == |pieces| - 5
    ensures forall i | 0 <= i < |labels| :: Unbracketed(labels[i])
  {
    Trimmed(pieces[5..])
  }

  /** Lines 225-231: the label loop. */
  method DecodeLabels(pieces: seq<string>) returns (labels: seq<string>)
    requires |pieces| >= 5
    ensures labels == LabelsFrom(pieces)
  {
    var rest := pieces[5..];
    ghost var all := Trimmed(rest);
    labels := [];
    for i := 0 to |rest|
      invariant labels == all[..i]
    {
      assert all[i] == TrimBrackets(rest[i]);
      assert all[..i + 1] == all[..i] + [all[i]];
      labels := labels + [TrimBrackets(rest[i])];
    }
    assert all[..|rest|] == all;
  }

  /**
   * The pieces `serialize` produces for a label list when no label holds
   * ", ": the list is written as `[l0, l1, ..., ln]`, so the first piece
   * carries the '[' and the last the ']'; an empty list is the one piece "[]".
   */
  function LabelPieces(labels: seq<string>): (pieces: seq<string>)
    ensures |pieces| == if labels == [] then 1 else |labels|
  {
    if labels == [] then ["[]"]
    else seq(|labels|, i requires 0 <= i < |labels| =>
           (if i == 0 then "[" else "") + labels[i] + (if i == |labels| - 1 then "]" else ""))
  }

  /** A label list read back as written: labels whose ends are not brackets. */
  predicate Restorable(labels: seq<string>) {
    forall i | 0 <= i < |labels| :: Unbracketed(labels[i])
  }

  /** Reading back a non-empty label list written by `serialize` restores it. */
  lemma LabelsRoundTrip(head: seq<string>, labels: seq<string>)
    requires |head| == 5 && labels != [] && Restorable(labels)
    ensures LabelsFrom(head + LabelPieces(labels)) == labels
  {
    var got := LabelsFrom(head + LabelPieces(labels));
    forall i | 0 <= i < |labels|
      ensures got[i] == labels[i]
    {
      var p := if i == 0 then "[" else "";
      var q := if i == |labels| - 1 then "]" else "";
      assert AllBrackets(p) && AllBrackets(q);
      TrimBracketsOf(p, labels[i], q);
    }
  }

  /**
   * An arrow saved without labels comes back with one empty label: the
   * piece "[]" is trimmed to "".
   */
  lemma UnlabelledArrowGainsLabel(head: seq<string>)
    requires |head| == 5
    ensures LabelsFrom(head + LabelPieces([])) == [""]
  {
    assert TrimStart("[]") == [];
  }

  /** The label loop as evidently intended: the piece "[]" alone stands for no labels. */
  function LabelsFromFixed(pieces: seq<string>): (labels: seq<string>)
    requires |pieces| >= 5
    ensures pieces[5..] != ["[]"] ==> labels == LabelsFrom(pieces)
  {
    if pieces[5..] == ["[]"] then [] else LabelsFrom(pieces)
  }

  /** With the fix every label list of non-empty, unbracketed labels is read back as written. */
  lemma LabelsFixedRoundTrip(head: seq<string>, labels: seq<string>)
    requires |head| == 5 && Restorable(labels)
    requires forall i | 0 <= i < |labels| :: labels[i] != []
    ensures LabelsFromFixed(head + LabelPieces(labels)) == labels
  {
    var pieces := head + LabelPieces(labels);
    assert pieces[5..] == LabelPieces(labels);
    if labels != [] {
      if |labels| == 1 {
        assert LabelPieces(labels)[0] == "[" + labels[0] + "]";
        assert |"[" + labels[0] + "]"| > 2;
      }
      LabelsRoundTrip(head, labels);
    }
  }
}
