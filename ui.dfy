/**
 * The slot tables of the graphical editor (src/gui_editor/ui.rs). Nodes and
 * arrows live in vectors of optional entries: a deletion leaves a hole,
 * the next insertion fills the lowest hole (or appends) and takes its index
 * as id. Deleting a node also deletes the arrows attached to it; an arrow
 * is connected only when no arrow with the same ends exists; and the editor
 * hands the engine one (from, read, write, to) quadruple per arrow label.
 */
module Editor {
  import opened Defs
  import opened Nodes
  import opened Arrows

  // ---------------------------------------------------------------------
  // Slots

  /** The lowest empty slot, or the length when every slot is taken. */
  function FirstFree<T>(slots: seq<Option<T>>): (i: nat)
    ensures i <= |slots|
    ensures forall j | 0 <= j < i :: slots[j].Some?
    ensures i < |slots| ==> slots[i].None?
  {
    if slots == [] || slots[0].None? then 0 else 1 + FirstFree(slots[1..])
  }

  /** x stored in slot i; i equal to the length appends. */
  function Put<T>(slots: seq<Option<T>>, i: nat, x: T): seq<Option<T>>
    requires i <= |slots|
  {
    if i == |slots| then slots + [Some(x)] else slots[i := Some(x)]
  }

  /** Slot i emptied; nothing happens out of range. */
  function Cleared<T>(slots: seq<Option<T>>, i: nat): seq<Option<T>> {
    if i >= |slots| then slots else slots[i := None]
  }

  /** `insert_new_node`: the node goes to the first free slot and takes its index as id. */
  function InsertedNode(nodes: seq<Option<NodeValue>>, n: NodeValue): seq<Option<NodeValue>> {
    var i := FirstFree(nodes);
    Put(nodes, i, n.(id := i))
  }

  /** `insert_new_arrow`: the same rule for arrows. */
  function InsertedArrow(arrows: seq<Option<ArrowValue>>, a: ArrowValue): seq<Option<ArrowValue>> {
    var i := FirstFree(arrows);
    Put(arrows, i, a.(id := i))
  }

  /** Every live node sits in the slot its id names. */
  predicate NodeIdsMatch(nodes: seq<Option<NodeValue>>) {
    forall i | 0 <= i < |nodes| && nodes[i].Some? :: nodes[i].value.id == i
  }

  /** Every live arrow sits in the slot its id names. */
  predicate ArrowIdsMatch(arrows: seq<Option<ArrowValue>>) {
    forall i | 0 <= i < |arrows| && arrows[i].Some? :: arrows[i].value.id == i
  }

  /**
   * Storing into the first free slot fills the lowest hole, or appends when
   * there is none, and leaves every other slot as it was.
   */
  lemma PutFirstFree<T>(slots: seq<Option<T>>, x: T)
    ensures var i := FirstFree(slots); var r := Put(slots, i, x);
      && (i < |slots| <==> exists j | 0 <= j < |slots| :: slots[j].None?)
      && |r| == (if i == |slots| then |slots| + 1 else |slots|)
      && r[i] == Some(x)
      && forall j | 0 <= j < |slots| && j != i :: r[j] == slots[j]
  {
  }

  /** Inserting a node keeps every live node in the slot its id names. */
  lemma InsertNodeKeepsIds(nodes: seq<Option<NodeValue>>, n: NodeValue)
    requires NodeIdsMatch(nodes)
    ensures NodeIdsMatch(InsertedNode(nodes, n))
    ensures InsertedNode(nodes, n)[FirstFree(nodes)] == Some(n.(id := FirstFree(nodes)))
  {
    PutFirstFree(nodes, n.(id := FirstFree(nodes)));
  }

  /** Inserting an arrow keeps every live arrow in the slot its id names. */
  lemma InsertArrowKeepsIds(arrows: seq<Option<ArrowValue>>, a: ArrowValue)
    requires ArrowIdsMatch(arrows)
    ensures ArrowIdsMatch(InsertedArrow(arrows, a))
    ensures InsertedArrow(arrows, a)[FirstFree(arrows)] == Some(a.(id := FirstFree(arrows)))
  {
    PutFirstFree(arrows, a.(id := FirstFree(arrows)));
  }

  // ---------------------------------------------------------------------
  // Deleting

  /** The arrow starts or ends at node id. */
  predicate Touches(a: ArrowValue, id: nat) {
    a.from == id || a.to == Some(id)
  }

  /**
   * `delete_node` unwraps the target of every live arrow that does not
   * start at the deleted node (line 55): those arrows need a target.
   */
  predicate DeleteSafe(arrows: seq<Option<ArrowValue>>, id: nat) {
    forall i | 0 <= i < |arrows| && arrows[i].Some? && arrows[i].value.from != id :: arrows[i].value.to.Some?
  }

  /** Lines 53-59: every live arrow touching the node cleared. */
  function Detached(arrows: seq<Option<ArrowValue>>, id: nat): seq<Option<ArrowValue>> {
    seq(|arrows|, i requires 0 <= i < |arrows| =>
      if arrows[i].Some? && Touches(arrows[i].value, id) then None else arrows[i])
  }

  /** `delete_node`: nothing out of range; otherwise the node and its arrows are cleared. */
  function DeletedNode(nodes: seq<Option<NodeValue>>, arrows: seq<Option<ArrowValue>>, id: nat)
    : (seq<Option<NodeValue>>, seq<Option<ArrowValue>>)
  {
    if id >= |nodes| then (nodes, arrows) else (nodes[id := None], Detached(arrows, id))
  }

  /** The (from, to) pairs of live arrows are pairwise distinct. */
  predicate DistinctPairs(arrows: seq<Option<ArrowValue>>) {
    forall i, j | 0 <= i < j < |arrows| && arrows[i].Some? && arrows[j].Some? ::
      (arrows[i].value.from, arrows[i].value.to) != (arrows[j].value.from, arrows[j].value.to)
  }

  /**
   * Deleting a node in range empties its slot and exactly the arrow slots
   * holding an arrow that starts or ends at it; every other slot and both
   * lengths stay. Afterwards no live arrow refers to the node, and the
   * slot ids and the distinct arrow ends are kept.
   */
  lemma DeleteNodeEffect(nodes: seq<Option<NodeValue>>, arrows: seq<Option<ArrowValue>>, id: nat)
    ensures var (ns, as') := DeletedNode(nodes, arrows, id);
      && |ns| == |nodes| && |as'| == |arrows|
      && (id >= |nodes| ==> ns == nodes && as' == arrows)
      && (id < |nodes| ==>
            && ns[id].None?
            && (forall j | 0 <= j < |nodes| && j != id :: ns[j] == nodes[j])
            && (forall j | 0 <= j < |arrows| ::
                  && (as'[j].None? <==> arrows[j].None? || Touches(arrows[j].value, id))
                  && (as'[j].Some? ==> as'[j] == arrows[j]))
            && (forall j | 0 <= j < |arrows| && as'[j].Some? :: !Touches(as'[j].value, id)))
      && (NodeIdsMatch(nodes) ==> NodeIdsMatch(ns))
      && (ArrowIdsMatch(arrows) ==> ArrowIdsMatch(as'))
      && (DistinctPairs(arrows) ==> DistinctPairs(as'))
      && (Targeted(arrows) ==> Targeted(as'))
  {
  }

  /**
   * `delete_arrow`: an id out of range changes nothing; otherwise only that
   * slot is emptied. Slot ids, distinct ends and targets are kept.
   */
  lemma DeleteArrowKeepsIds(arrows: seq<Option<ArrowValue>>, id: nat)
    ensures var r := Cleared(arrows, id);
      && |r| == |arrows|
      && (id >= |arrows| ==> r == arrows)
      && (id < |arrows| ==> r[id].None? && forall j | 0 <= j < |arrows| && j != id :: r[j] == arrows[j])
      && (ArrowIdsMatch(arrows) ==> ArrowIdsMatch(r))
      && (DistinctPairs(arrows) ==> DistinctPairs(r))
      && (Targeted(arrows) ==> Targeted(r))
  {
  }

  // ---------------------------------------------------------------------
  // Connecting

  /** Slot x holds an arrow from `from` to `to`. */
  predicate SamePair(x: Option<ArrowValue>, from: nat, to: nat) {
    x.Some? && x.value.from == from && x.value.to == Some(to)
  }

  /** One of the first n slots holds an arrow from `from` to `to`. */
  predicate PairBefore(arrows: seq<Option<ArrowValue>>, from: nat, to: nat, n: nat)
    requires n <= |arrows|
  {
    exists i | 0 <= i < n :: SamePair(arrows[i], from, to)
  }

  predicate HasPair(arrows: seq<Option<ArrowValue>>, from: nat, to: nat) {
    PairBefore(arrows, from, to, |arrows|)
  }

  /**
   * `is_present` unwraps the target of each live arrow it reaches: every
   * arrow without target must come after a match, where the scan stops.
   */
  predicate ScanSafe(arrows: seq<Option<ArrowValue>>, from: nat, to: nat) {
    forall i | 0 <= i < |arrows| && arrows[i].Some? && arrows[i].value.to.None? :: PairBefore(arrows, from, to, i)
  }

  /** `is_present`: is there already an arrow with the same ends as a? */
  method IsPresent(arrows: seq<Option<ArrowValue>>, a: ArrowValue) returns (present: bool)
    requires a.to.Some? && ScanSafe(arrows, a.from, a.to.value)
    ensures present <==> HasPair(arrows, a.from, a.to.value)
  {
    var (from, to) := (a.from, a.to.value);
    for i := 0 to |arrows|
      invariant !PairBefore(arrows, from, to, i)
    {
      if arrows[i].Some? {
        var other := arrows[i].value;
        if other.to.None? {
          assert false;
        }
        if from == other.from && to == other.to.value {
          assert SamePair(arrows[i], from, to);
          return true;
        }
      }
      assert !SamePair(arrows[i], from, to);
    }
    return false;
  }

  /** Every live arrow has a target. */
  predicate Targeted(arrows: seq<Option<ArrowValue>>) {
    forall i | 0 <= i < |arrows| && arrows[i].Some? :: arrows[i].value.to.Some?
  }

  /**
   * Lines 381-395 from node slot i on: each live node whose rectangle
   * contains the arrow's end (the slots in `hit`) becomes the arrow's
   * target, and the first such target not already joined to the arrow's
   * source gets the arrow inserted; then the scan stops.
   */
  function Connected(nodes: seq<Option<NodeValue>>, arrows: seq<Option<ArrowValue>>, a: ArrowValue, hit: set<nat>, i: nat)
    : seq<Option<ArrowValue>>
    requires i <= |nodes|
    decreases |nodes| - i
  {
    if i == |nodes| then arrows
    else if nodes[i].Some? && i in hit then
      var t := nodes[i].value.id;
      if !HasPair(arrows, a.from, t) then InsertedArrow(arrows, a.(to := Some(t)))
      else Connected(nodes, arrows, a.(to := Some(t)), hit, i + 1)
    else Connected(nodes, arrows, a, hit, i + 1)
  }

  /** Inserting an arrow whose ends are new keeps the ends distinct and every arrow targeted. */
  lemma InsertNewPair(arrows: seq<Option<ArrowValue>>, a: ArrowValue)
    requires DistinctPairs(arrows) && Targeted(arrows)
    requires a.to.Some? && !HasPair(arrows, a.from, a.to.value)
    ensures DistinctPairs(InsertedArrow(arrows, a)) && Targeted(InsertedArrow(arrows, a))
  {
    var i := FirstFree(arrows);
    var r := InsertedArrow(arrows, a);
    PutFirstFree(arrows, a.(id := i));
    forall j | 0 <= j < |arrows| && j != i && arrows[j].Some?
      ensures (arrows[j].value.from, arrows[j].value.to) != (a.from, a.to)
    {
      assert !SamePair(arrows[j], a.from, a.to.value);
    }
  }

  /**
   * Connecting either leaves the arrows as they were or inserts the arrow
   * with a target it was not yet joined to; so distinct ends, targets and
   * slot ids are all kept.
   */
  lemma {:induction false} ConnectedEffect(nodes: seq<Option<NodeValue>>, arrows: seq<Option<ArrowValue>>, a: ArrowValue, hit: set<nat>, i: nat)
    requires i <= |nodes|
    ensures var r := Connected(nodes, arrows, a, hit, i);
      || r == arrows
      || exists t :: !HasPair(arrows, a.from, t) && r == InsertedArrow(arrows, a.(to := Some(t)))
    ensures DistinctPairs(arrows) && Targeted(arrows) ==>
              DistinctPairs(Connected(nodes, arrows, a, hit, i)) && Targeted(Connected(nodes, arrows, a, hit, i))
    ensures ArrowIdsMatch(arrows) ==> ArrowIdsMatch(Connected(nodes, arrows, a, hit, i))
    decreases |nodes| - i
  {
    if i < |nodes| {
      if nodes[i].Some? && i in hit {
        var t := nodes[i].value.id;
        if !HasPair(arrows, a.from, t) {
          if DistinctPairs(arrows) && Targeted(arrows) {
            InsertNewPair(arrows, a.(to := Some(t)));
          }
          if ArrowIdsMatch(arrows) {
            InsertArrowKeepsIds(arrows, a.(to := Some(t)));
          }
        } else {
          ConnectedEffect(nodes, arrows, a.(to := Some(t)), hit, i + 1);
        }
      } else {
        ConnectedEffect(nodes, arrows, a, hit, i + 1);
      }
    }
  }

  // ---------------------------------------------------------------------
  // Information for the engine

  /** (from state, read symbol, write symbol or move, to state), states cast to `u8`. */
  type Quad = (nat, char, char, nat)

  /** `TMInfo`; the alphabet is the set the source collects into a `String` in hash order. */
  datatype TMInfo = TMInfo(nStates: nat, alphabet: set<char>, transitions: seq<Quad>, input: string)

  /** The characters of a label other than '/', in order. */
  function NonSlash(s: string): (r: string)
    ensures |r| <= |s|
    ensures forall c :: c in r <==> c in s && c != '/'
  {
    if s == [] then []
    else NonSlash(s[..|s| - 1]) + (if s[|s| - 1] != '/' then [s[|s| - 1]] else [])
  }

  /** The label indexes `chars[0]` and `chars[1]`: it needs two characters other than '/'. */
  predicate Usable(text: string) {
    |NonSlash(text)| >= 2
  }

  predicate AllUsable(labels: seq<string>) {
    forall j | 0 <= j < |labels| :: Usable(labels[j])
  }

  /** Every label of every live arrow is usable. */
  predicate Gatherable(arrows: seq<Option<ArrowValue>>) {
    forall i | 0 <= i < |arrows| && arrows[i].Some? :: AllUsable(arrows[i].value.labels)
  }

  /** Line 146: the quadruple of one label; a missing target becomes state 0. */
  function LabelQuad(from: nat, to: Option<nat>, text: string): Quad
    requires Usable(text)
  {
    var chars := NonSlash(text);
    (from % 256, chars[0], chars[1], to.GetOr(0) % 256)
  }

  /** The quadruples of a label list, in order. */
  function LabelsQuads(from: nat, to: Option<nat>, labels: seq<string>): (r: seq<Quad>)
    requires AllUsable(labels)
    ensures |r| == |labels|
  {
    if labels == [] then []
    else LabelsQuads(from, to, labels[..|labels| - 1]) + [LabelQuad(from, to, labels[|labels| - 1])]
  }

  /** The quadruples of all live arrows, slot by slot. */
  function ArrowsQuads(arrows: seq<Option<ArrowValue>>): seq<Quad>
    requires Gatherable(arrows)
  {
    if arrows == [] then []
    else
      var last := arrows[|arrows| - 1];
      ArrowsQuads(arrows[..|arrows| - 1])
      + (if last.Some? then LabelsQuads(last.value.from, last.value.to, last.value.labels) else [])
  }

  /** The characters other than '/' of one label. */
  function TextChars(text: string): set<char> {
    set c | c in text && c != '/'
  }

  /** The characters other than '/' of a label list. */
  function LabelsChars(labels: seq<string>): set<char> {
    if labels == [] then {}
    else LabelsChars(labels[..|labels| - 1]) + TextChars(labels[|labels| - 1])
  }

  /** The characters other than '/' of the labels of all live arrows. */
  function ArrowsChars(arrows: seq<Option<ArrowValue>>): set<char> {
    if arrows == [] then {}
    else
      var last := arrows[|arrows| - 1];
      ArrowsChars(arrows[..|arrows| - 1]) + (if last.Some? then LabelsChars(last.value.labels) else {})
  }

  /** `gather_all_information`: the node count cast to `u8` counts empty slots too. */
  function Information(nodes: seq<Option<NodeValue>>, arrows: seq<Option<ArrowValue>>, input: string): TMInfo
    requires Gatherable(arrows)
  {
    TMInfo(|nodes| % 256, ArrowsChars(arrows), ArrowsQuads(arrows), input)
  }

  /** A label list yields exactly the quadruples of its labels. */
  lemma {:induction false} LabelsQuadsMembers(from: nat, to: Option<nat>, labels: seq<string>)
    requires AllUsable(labels)
    ensures forall q :: q in LabelsQuads(from, to, labels) <==>
              exists j | 0 <= j < |labels| :: q == LabelQuad(from, to, labels[j])
  {
    if labels != [] {
      var init := labels[..|labels| - 1];
      LabelsQuadsMembers(from, to, init);
      forall q | q in LabelsQuads(from, to, labels)
        ensures exists j | 0 <= j < |labels| :: q == LabelQuad(from, to, labels[j])
      {
        if q in LabelsQuads(from, to, init) {
          var j :| 0 <= j < |init| && q == LabelQuad(from, to, init[j]);
          assert labels[j] == init[j];
        } else {
          assert q == LabelQuad(from, to, labels[|labels| - 1]);
        }
      }
      forall q, j | 0 <= j < |labels| && q == LabelQuad(from, to, labels[j])
        ensures q in LabelsQuads(from, to, labels)
      {
        if j < |init| {
          assert labels[j] == init[j];
        }
      }
    }
  }

  /** q is the quadruple of label j of the live arrow in slot i. */
  predicate QuadOf(arrows: seq<Option<ArrowValue>>, i: int, j: int, q: Quad)
    requires Gatherable(arrows)
  {
    && 0 <= i < |arrows| && arrows[i].Some? && 0 <= j < |arrows[i].value.labels|
    && q == LabelQuad(arrows[i].value.from, arrows[i].value.to, arrows[i].value.labels[j])
  }

  /** Every quadruple comes from a label of a live arrow. */
  lemma {:induction false} QuadsComeFromLabels(arrows: seq<Option<ArrowValue>>)
    requires Gatherable(arrows)
    ensures forall q | q in ArrowsQuads(arrows) :: exists i, j :: QuadOf(arrows, i, j, q)
  {
    if arrows != [] {
      var n := |arrows| - 1;
      var init := arrows[..n];
      QuadsComeFromLabels(init);
      if arrows[n].Some? {
        LabelsQuadsMembers(arrows[n].value.from, arrows[n].value.to, arrows[n].value.labels);
      }
      forall q | q in ArrowsQuads(arrows)
        ensures exists i, j :: QuadOf(arrows, i, j, q)
      {
        if q in ArrowsQuads(init) {
          var i, j :| QuadOf(init, i, j, q);
          assert arrows[i] == init[i];
          assert QuadOf(arrows, i, j, q);
        } else {
          var j :| 0 <= j < |arrows[n].value.labels|
                   && q == LabelQuad(arrows[n].value.from, arrows[n].value.to, arrows[n].value.labels[j]);
          assert QuadOf(arrows, n, j, q);
        }
      }
    }
  }

  /** Every label of a live arrow gives its quadruple. */
  lemma {:induction false} LabelsGiveQuads(arrows: seq<Option<ArrowValue>>)
    requires Gatherable(arrows)
    ensures forall q, i, j | QuadOf(arrows, i, j, q) :: q in ArrowsQuads(arrows)
  {
    if arrows != [] {
      var n := |arrows| - 1;
      var init := arrows[..n];
      LabelsGiveQuads(init);
      if arrows[n].Some? {
        LabelsQuadsMembers(arrows[n].value.from, arrows[n].value.to, arrows[n].value.labels);
      }
      forall q, i, j | QuadOf(arrows, i, j, q)
        ensures q in ArrowsQuads(arrows)
      {
        if i < n {
          assert arrows[i] == init[i];
          assert QuadOf(init, i, j, q);
        } else {
          var a := arrows[n].value;
          assert q == LabelQuad(a.from, a.to, a.labels[j]);
          assert ArrowsQuads(arrows) == ArrowsQuads(init) + LabelsQuads(a.from, a.to, a.labels);
        }
      }
    }
  }

  /**
   * The quadruples are exactly one per label of a live arrow: every one
   * comes from such a label, and every such label gives one.
   */
  lemma QuadsAreLabels(arrows: seq<Option<ArrowValue>>)
    requires Gatherable(arrows)
    ensures forall q :: q in ArrowsQuads(arrows) <==> exists i, j :: QuadOf(arrows, i, j, q)
  {
    QuadsComeFromLabels(arrows);
    LabelsGiveQuads(arrows);
  }

  /** A label list contributes exactly its characters other than '/'. */
  lemma {:induction false} LabelsCharsMembers(labels: seq<string>)
    ensures forall c :: c in LabelsChars(labels) <==> exists j | 0 <= j < |labels| :: c in TextChars(labels[j])
  {
    if labels != [] {
      var init := labels[..|labels| - 1];
      LabelsCharsMembers(init);
      forall c | exists j | 0 <= j < |labels| :: c in TextChars(labels[j])
        ensures c in LabelsChars(labels)
      {
        var j :| 0 <= j < |labels| && c in TextChars(labels[j]);
        if j < |init| {
          assert labels[j] == init[j];
        }
      }
      forall c | c in LabelsChars(labels)
        ensures exists j | 0 <= j < |labels| :: c in TextChars(labels[j])
      {
        if c in LabelsChars(init) {
          var j :| 0 <= j < |init| && c in TextChars(init[j]);
          assert labels[j] == init[j];
        }
      }
    }
  }

  /** c is a character other than '/' of label j of the live arrow in slot i. */
  predicate CharOf(arrows: seq<Option<ArrowValue>>, i: int, j: int, c: char) {
    0 <= i < |arrows| && arrows[i].Some? && 0 <= j < |arrows[i].value.labels| && c in TextChars(arrows[i].value.labels[j])
  }

  /** The alphabet holds exactly the characters other than '/' of the labels of live arrows. */
  lemma {:induction false} AlphabetIsLabelChars(arrows: seq<Option<ArrowValue>>)
    ensures forall c :: c in ArrowsChars(arrows) <==> exists i, j :: CharOf(arrows, i, j, c)
  {
    if arrows != [] {
      var n := |arrows| - 1;
      var init := arrows[..n];
      AlphabetIsLabelChars(init);
      if arrows[n].Some? {
        LabelsCharsMembers(arrows[n].value.labels);
      }
      forall c | c in ArrowsChars(arrows)
        ensures exists i, j :: CharOf(arrows, i, j, c)
      {
        if c in ArrowsChars(init) {
          var i, j :| CharOf(init, i, j, c);
          assert arrows[i] == init[i];
          assert CharOf(arrows, i, j, c);
        } else {
          var j :| 0 <= j < |arrows[n].value.labels| && c in TextChars(arrows[n].value.labels[j]);
          assert CharOf(arrows, n, j, c);
        }
      }
      forall c, i, j | CharOf(arrows, i, j, c)
        ensures c in ArrowsChars(arrows)
      {
        if i < n {
          assert arrows[i] == init[i];
          assert CharOf(init, i, j, c);
        }
      }
    }
  }

  /** Both symbols of every quadruple are in the alphabet, and neither is '/'. */
  lemma QuadSymbolsInAlphabet(arrows: seq<Option<ArrowValue>>)
    requires Gatherable(arrows)
    ensures forall q | q in ArrowsQuads(arrows) ::
              q.1 in ArrowsChars(arrows) && q.2 in ArrowsChars(arrows) && q.1 != '/' && q.2 != '/'
  {
    QuadsAreLabels(arrows);
    AlphabetIsLabelChars(arrows);
    forall q | q in ArrowsQuads(arrows)
      ensures q.1 in ArrowsChars(arrows) && q.2 in ArrowsChars(arrows) && q.1 != '/' && q.2 != '/'
    {
      var i, j :| QuadOf(arrows, i, j, q);
      var text := arrows[i].value.labels[j];
      var chars := NonSlash(text);
      assert chars[0] in chars && chars[1] in chars;
      assert CharOf(arrows, i, j, q.1) && CharOf(arrows, i, j, q.2);
    }
  }

  /** Lines 139-145 for one label: its characters other than '/', in order and as a set. */
  method ScanLabel(text: string) returns (chars: string, seen: set<char>)
    ensures chars == NonSlash(text) && seen == TextChars(text)
  {
    chars := [];
    seen := {};
    for k := 0 to |text|
      invariant chars == NonSlash(text[..k])
      invariant seen == TextChars(text[..k])
    {
      assert text[..k + 1][..k] == text[..k];
      if text[k] != '/' {
        seen := seen + {text[k]};
        chars := chars + [text[k]];
      }
    }
    assert text[..|text|] == text;
  }

  /** Lines 138-147 for one live arrow: the characters and the quadruples of its labels. */
  method GatherArrow(arrow: ArrowValue) returns (seen: set<char>, quads: seq<Quad>)
    requires AllUsable(arrow.labels)
    ensures seen == LabelsChars(arrow.labels)
    ensures quads == LabelsQuads(arrow.from, arrow.to, arrow.labels)
  {
    seen := {};
    quads := [];
    for j := 0 to |arrow.labels|
      invariant seen == LabelsChars(arrow.labels[..j])
      invariant quads == LabelsQuads(arrow.from, arrow.to, arrow.labels[..j])
    {
      assert arrow.labels[..j + 1][..j] == arrow.labels[..j];
      var chars, inLabel := ScanLabel(arrow.labels[j]);
      seen := seen + inLabel;
      quads := quads + [(arrow.from % 256, chars[0], chars[1], arrow.to.GetOr(0) % 256)];
    }
    assert arrow.labels[..|arrow.labels|] == arrow.labels;
  }

  // ---------------------------------------------------------------------
  // The editor

  /** `NodeEditor` without its drag, selection and channel state. */
  class NodeEditor {
    var nodes: seq<Option<NodeValue>>
    var arrows: seq<Option<ArrowValue>>
    var input: string
    var nTapes: nat

    /**
     * What the editor's own operations keep: every node and arrow sits in
     * the slot its id names, no two arrows join the same ends, and every
     * arrow has a target.
     */
    ghost predicate Valid()
      reads this
    {
      NodeIdsMatch(nodes) && ArrowIdsMatch(arrows) && DistinctPairs(arrows) && Targeted(arrows)
    }

    /** `NodeEditor::new`: no nodes, no arrows, empty input, one tape. */
    constructor ()
      ensures nodes == [] && arrows == [] && input == "" && nTapes == 1
      ensures Valid()
    {
      nodes := [];
      arrows := [];
      input := "";
      nTapes := 1;
    }

    method DeleteNode(id: nat)
      requires id < |nodes| ==> DeleteSafe(arrows, id)
      modifies this
      ensures (nodes, arrows) == DeletedNode(old(nodes), old(arrows), id)
      ensures input == old(input) && nTapes == old(nTapes)
      ensures old(Valid()) ==> Valid()
    {
      DeleteNodeEffect(nodes, arrows, id);
      if id >= |nodes| {
        return;
      }
      nodes := nodes[id := None];
      for i := 0 to |arrows|
        invariant nodes == old(nodes)[id := None] && input == old(input) && nTapes == old(nTapes)
        invariant |arrows| == |old(arrows)|
        invariant forall j | 0 <= j < i :: arrows[j] == Detached(old(arrows), id)[j]
        invariant forall j | i <= j < |arrows| :: arrows[j] == old(arrows)[j]
      {
        if arrows[i].Some? {
          var arrow := arrows[i].value;
          if arrow.from == id || arrow.to.value == id {
            arrows := arrows[i := None];
          }
        }
      }
      assert arrows == Detached(old(arrows), id);
    }

    method InsertNewNode(node: NodeValue)
      modifies this
      ensures nodes == InsertedNode(old(nodes), node)
      ensures arrows == old(arrows) && input == old(input) && nTapes == old(nTapes)
      ensures old(Valid()) ==> Valid()
    {
      if NodeIdsMatch(nodes) {
        InsertNodeKeepsIds(nodes, node);
      }
      var newId := |nodes|;
      var i := 0;
      while i < |nodes|
        invariant i <= |nodes|
        invariant forall j | 0 <= j < i :: nodes[j].Some?
        decreases |nodes| - i
      {
        if nodes[i].None? {
          newId := i;
          break;
        }
        i := i + 1;
      }
      assert newId == FirstFree(nodes);
      var n := node.(id := newId);
      if newId == |nodes| {
        nodes := nodes + [Some(n)];
      } else {
        nodes := nodes[newId := Some(n)];
      }
    }

    method DeleteArrow(id: nat)
      modifies this
      ensures arrows == Cleared(old(arrows), id)
      ensures nodes == old(nodes) && input == old(input) && nTapes == old(nTapes)
      ensures old(Valid()) ==> Valid()
    {
      DeleteArrowKeepsIds(arrows, id);
      if id >= |arrows| {
        return;
      }
      arrows := arrows[id := None];
    }

    method InsertNewArrow(arrow: ArrowValue)
      modifies this
      ensures arrows == InsertedArrow(old(arrows), arrow)
      ensures nodes == old(nodes) && input == old(input) && nTapes == old(nTapes)
      ensures old(Valid()) && arrow.to.Some? && !HasPair(old(arrows), arrow.from, arrow.to.value) ==> Valid()
    {
      if Valid() && arrow.to.Some? && !HasPair(arrows, arrow.from, arrow.to.value) {
        InsertNewPair(arrows, arrow);
        InsertArrowKeepsIds(arrows, arrow);
      }
      var newId := |arrows|;
      var i := 0;
      while i < |arrows|
        invariant i <= |arrows|
        invariant forall j | 0 <= j < i :: arrows[j].Some?
        decreases |arrows| - i
      {
        if arrows[i].None? {
          newId := i;
          break;
        }
        i := i + 1;
      }
      assert newId == FirstFree(arrows);
      var a := arrow.(id := newId);
      if newId == |arrows| {
        arrows := arrows + [Some(a)];
      } else {
        arrows := arrows[newId := Some(a)];
      }
    }

    /**
     * Lines 381-395, the click that ends dragging an arrow: `hit` is the set
     * of node slots whose rectangle contains the arrow's end point.
     */
    method ConnectArrow(arrow: ArrowValue, hit: set<nat>)
      requires Targeted(arrows)
      modifies this
      ensures arrows == Connected(nodes, old(arrows), arrow, hit, 0)
      ensures nodes == old(nodes) && input == old(input) && nTapes == old(nTapes)
      ensures old(Valid()) ==> Valid()
    {
      ConnectedEffect(nodes, arrows, arrow, hit, 0);
      var a := arrow;
      for i := 0 to |nodes|
        invariant arrows == old(arrows) && nodes == old(nodes) && input == old(input) && nTapes == old(nTapes)
        invariant Connected(nodes, arrows, a, hit, i) == Connected(nodes, arrows, arrow, hit, 0)
      {
        if nodes[i].Some? {
          var node := nodes[i].value;
          if i in hit {
            a := a.(to := Some(node.id));
            var present := IsPresent(arrows, a);
            if !present {
              InsertNewArrow(a);
              return;
            }
          }
        }
      }
    }

    /** `gather_all_information`: reads the editor and changes nothing. */
    method GatherAllInformation() returns (info: TMInfo)
      requires Gatherable(arrows)
      ensures info == Information(nodes, arrows, input)
    {
      var alphabet: set<char> := {};
      var transitions: seq<Quad> := [];
      for i := 0 to |arrows|
        invariant Gatherable(arrows[..i])
        invariant alphabet == ArrowsChars(arrows[..i])
        invariant transitions == ArrowsQuads(arrows[..i])
      {
        assert arrows[..i + 1][..i] == arrows[..i];
        if arrows[i].Some? {
          var seen, quads := GatherArrow(arrows[i].value);
          alphabet := alphabet + seen;
          transitions := transitions + quads;
        }
      }
      assert arrows[..|arrows|] == arrows;
      info := TMInfo(|nodes| % 256, alphabet, transitions, input);
    }
  }
}
