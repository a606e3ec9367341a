# Turing-machine engine and diagram slot tables, in Dafny

This project models the core of a multi-tape Turing-machine simulator with a
graphical diagram editor, and proves properties of that model.

- **Tape** (`Tapes`). A growable vector of byte codes with a head cursor: read,
  write, move left, move right, and optional growth on the right.
- **Alphabet** (`Alphabets`). A two-way map between surface characters and dense
  byte codes. The blank is registered first, so it gets code 0.
- **Turing machine** (`Machines`). A bounds-checked, partial transition map keyed
  by (state, K codes read), plus a set of final states. Two derived codes stand
  for "move right" (`dx`) and "move left" (`sx`).
- **Computation** (`ComputationModel`, `Computations`). One `step`, head
  rewinding, loading the input string, text rendering of tapes, the control
  flags, and the body of the run loop of `start`, executed sequentially with
  fuel.
- **Editor data** (`Editor`, `Arrows`, `Nodes`). Nodes and arrows kept in
  slot tables with holes, plus:
  - first-free-slot insertion;
  - cascading node deletion;
  - duplicate-edge detection;
  - extraction of (from, read, write, to) quadruples for the engine;
  - the arrow label list;
  - the decoding of an arrow's target and labels;
  - the RGB colour packing of nodes.

Each component is written in two layers. A value datatype and pure functions say
what every operation does, and the lemmas are proved about them. Where the
source updates an object in place, a class with the same fields performs the
operation. Each of its methods is proved to leave exactly the state that the
function gives (`ensures View() == F(old(View()))`). Loops in the source become
`while`/`for` loops with invariants: `add_symbols`, `shift_head`,
`write_input_on_tape`, `step`, `output`, `output_all`, the run loop, the slot
searches, `delete_node`, `is_present` and `gather_all_information`.

States and symbol codes are bytes (`Defs.Byte`), and the blank code is `0`. The
computation owns its alphabet, tapes and machine by value, so the model holds
them as values inside the `Computation` class. A K-tuple is a sequence of
length K.

Quirks of the code that the model keeps:
- Registering a symbol that is already registered returns `Err(())` and
  changes nothing.
- `add_symbol` computes the new code as `len() as u8`, and the cast truncates.
  With all 256 codes in use, a fresh symbol is still accepted and takes code 0
  from the symbol that held it.
- `move_dx` fails only when the head is at `size`. A non-extending tape of n
  cells therefore accepts n right moves from head 0, and its head can stand one
  past the last cell.
- `TuringMachine::new` reports too many symbols as `StateTooBig`.
- The editor's alphabet holds every label character other than '/', including
  the move markers 'L' and 'R'.

## Model

| member | source | states |
|---|---|---|
| Tapes.TapeWithContent | src/turing/tape.rs:24-30 | the tape holds exactly the given cells, with head 0 and the given extend flag |
| Tapes.BlankTape | src/turing/tape.rs:19-22 | `with_size(n, e)` has exactly n cells, all `BLANK`, head 0 and extend flag e |
| Tapes.DefaultTape | src/turing/tape.rs:3-17 | `new` is a blank tape of 500 cells with head 0 |
| Tapes.Written | src/turing/tape.rs:36-38 | `write(x)` sets the cell under the head to x; head, size, extend flag and every other cell are unchanged |
| Tapes.MovedLeft | src/turing/tape.rs:40-44 | `move_sx` fails exactly at head 0; otherwise the head drops by one and content and flag are kept; `head <= size` is preserved |
| Tapes.MovedRight | src/turing/tape.rs:46-55 | `move_dx` fails exactly when head == size and the tape does not extend; otherwise the head grows by one, and at head == size on an extending tape one `BLANK` is appended; `head <= size` is preserved |
| Tapes.RightMovesUntilEnd | src/turing/tape.rs:46-55 | on a non-extending tape, from head h exactly size - h consecutive `move_dx` succeed, leaving content alone, and any more fail |
| Tapes.ExactlySizeRightMoves | src/turing/tape.rs:19-22 | on a fresh non-extending tape of n cells, exactly n `move_dx` succeed (head ends at n) and the (n+1)-th fails |
| Tapes.ExtendingTapeStaysPastEnd | src/turing/tape.rs:46-55 | on an extending tape whose head is at size, every further `move_dx` appends a blank, keeps the old cells and leaves no readable cell under the head |
| Tapes.Tape.WithContent | src/turing/tape.rs:24-30 | the constructor builds the tape of `TapeWithContent` |
| Tapes.Tape.WithSize | src/turing/tape.rs:19-22 | the constructor builds the tape of `BlankTape` |
| Tapes.Tape.New | src/turing/tape.rs:15-17 | the constructor builds the tape of `DefaultTape` |
| Tapes.Tape.Read | src/turing/tape.rs:32-34 | `read` returns the cell under the head and needs head < size |
| Tapes.Tape.Write | src/turing/tape.rs:36-38 | in-place `write` leaves the tape `Written` gives; `extendOnEnd` is a constant field |
| Tapes.Tape.MoveSx | src/turing/tape.rs:40-44 | in-place `move_sx` reports success exactly as `MovedLeft` does and changes nothing on failure |
| Tapes.Tape.MoveDx | src/turing/tape.rs:46-55 | in-place `move_dx` reports success exactly as `MovedRight` does and changes nothing on failure |
| Alphabets.AddSymbolTo | src/turing/alphabet.rs:25-32 | `add_symbol` keeps the blank and grows the table by at most one entry, also when the `u8` code wraps |
| Alphabets.NewAlphabet | src/turing/alphabet.rs:13-23 | `new(b)` is coherent with `len() == 1`, and b is code 0 in both directions |
| Alphabets.AddSymbolKeepsCoherent | src/turing/alphabet.rs:25-32 | a duplicate gives `Err` with both maps unchanged; a fresh symbol gets code `len()` both ways, `len()` grows by 1, other lookups are unchanged and the maps stay mutual inverses on exactly the codes `[0, len())` |
| Alphabets.FullTableReusesCodeZero | src/turing/alphabet.rs:25-32 | with all 256 codes in use, a fresh symbol is accepted with code 0 in both directions; the symbol that held code 0 still looks up to 0, so the maps are no longer inverses |
| Alphabets.LookupsAreInverse | src/turing/alphabet.rs:46-53 | on a coherent table `get_r_symbol(get_l_symbol(s)) == Some(s)` for registered s, `get_l_symbol(get_r_symbol(c)) == Some(c)` for c < `len()`, and the codes in use are exactly `[0, len())` |
| Alphabets.AddSymbolsTo | src/turing/alphabet.rs:35-44 | `add_symbols` returns counts with `inserted + rejected` equal to the number of symbols given and keeps the blank |
| Alphabets.RoomForRest | src/turing/alphabet.rs:35-44 | when the table has a code below 256 for each fresh symbol of the batch, the first insertion does not wrap and the rest of the batch still has room |
| Alphabets.AddSymbolsRegistersAll | src/turing/alphabet.rs:35-44 | after `add_symbols` the registered symbols are the old ones plus those of the batch |
| Alphabets.AddSymbolsKeepsCoherent | src/turing/alphabet.rs:35-44 | when the batch's fresh symbols fit in the 256 codes, `add_symbols` keeps the two maps mutual inverses over `[0, len())` |
| Alphabets.AddSymbolsGrowsByInserted | src/turing/alphabet.rs:35-44 | when the batch's fresh symbols fit in the 256 codes, `len()` grows by exactly the reported `inserted` |
| Alphabets.AddSymbolsInsertsNewOnes | src/turing/alphabet.rs:35-44 | on any table, `inserted` is the number of distinct batch symbols not registered before; every repeat within the batch, or symbol already registered, counts as rejected |
| Alphabets.Alphabet.constructor | src/turing/alphabet.rs:13-23 | the constructor registers the blank into empty maps, giving `NewAlphabet` |
| Alphabets.Alphabet.AddSymbol | src/turing/alphabet.rs:25-32 | in-place `add_symbol` returns and leaves what `AddSymbolTo` gives |
| Alphabets.Alphabet.AddSymbols | src/turing/alphabet.rs:35-44 | the counting loop returns the counts and leaves the table of `AddSymbolsTo`, given that both `u8` counts stay below 256 |
| Machines.NewMachine | src/turing/turing_machine.rs:34-53 | 0 states is `StateTooSmall`, above 256 is `StateTooBig`, 0 symbols is `SymbolTooSmall`, above 254 symbols is `StateTooBig`; success exactly for 1..=256 states and 1..=254 symbols, with indices count-1, no final states and no transitions |
| Machines.MoveCodesAreReserved | src/turing/turing_machine.rs:25 | `dx` and `sx` are distinct, above every symbol code, fit in a byte and pass the transition symbol bound |
| Machines.GetTransitionOutcome | src/turing/turing_machine.rs:68-79 | `get_transition` answers `StateTooBig`, then `SymbolTooBig`, then the stored value or `TransitionDidNotExist`; what it finds on a valid machine is within bounds |
| Machines.AddTransitionThenGet | src/turing/turing_machine.rs:55-79 | a state out of bounds is `StateTooBig`; otherwise a code out of bounds is `SymbolTooBig`; otherwise a mapped key is `TransitionExists`; `add_transition` succeeds exactly when both states and all codes are in bounds and the key is new; on failure the table is unchanged; on success `get_transition` returns exactly (t, a) and all other keys answer as before; validity is kept |
| Machines.AddTransitionTwice | src/turing/turing_machine.rs:62-65 | adding an existing key gives `TransitionExists`, does not overwrite, and lookup still gives the first rule |
| Machines.RemoveTransitionOutcome | src/turing/turing_machine.rs:81-86 | `remove_transition` succeeds exactly when the key is mapped, regardless of bounds, removes only that key and keeps the final states |
| Machines.AddThenRemoveTransition | src/turing/turing_machine.rs:55-86 | removing the transition just added gives back the machine |
| Machines.FinalStateOperations | src/turing/turing_machine.rs:98-119 | out of range all three operations give `StateTooBig` with nothing changed; otherwise `AlreadyFinal` exactly on a member, `WasNotFinal` exactly on a non-member, `is_final_state` reports the membership after each change, and other states are unaffected |
| Machines.TuringMachine.New | src/turing/turing_machine.rs:34-53 | the constructor method returns the errors and the fresh machine that `NewMachine` gives |
| Machines.TuringMachine.AddTransition | src/turing/turing_machine.rs:55-66 | in-place `add_transition` agrees with the value model |
| Machines.TuringMachine.RemoveTransition | src/turing/turing_machine.rs:81-86 | in-place `remove_transition` agrees with the value model |
| Machines.TuringMachine.AddFinalState | src/turing/turing_machine.rs:98-105 | in-place `add_final_state` agrees with the value model |
| Machines.TuringMachine.RemoveFinalState | src/turing/turing_machine.rs:107-114 | in-place `remove_final_state` agrees with the value model |
| ComputationModel.NewConfig | src/turing/computation.rs:48-70 | `Computation::new` has nothing attached, state and count 0 and all flags false |
| ComputationModel.RightIgnoringFailuresEffect | src/turing/computation.rs:97-99 | n right moves with failures ignored stop at size on a non-extending tape, and on an extending tape reach head + n, growing by just enough blanks |
| ComputationModel.ShiftHeadEffect | src/turing/computation.rs:93-101 | `shift_head(p, _)` leaves the head at min(p, size) on a non-extending tape, and at p on an extending one that grows with blanks to max(size, p) cells; existing cells are kept |
| ComputationModel.Rewound | src/turing/computation.rs:111 | rewinding every tape is `shift_head(0, i)` for each i and only resets heads to 0 |
| ComputationModel.SetInputString | src/turing/computation.rs:103-109 | `set_input_string` fails with nothing changed exactly when no alphabet is attached; otherwise it only replaces w |
| ComputationModel.WriteInput | src/turing/computation.rs:110-121 | `write_input_on_tape` changes only the tapes, keeps their sizes and keeps heads within bounds |
| ComputationModel.LoadFromOutcome | src/turing/computation.rs:114-120 | loading succeeds exactly when every remaining symbol is in the alphabet, otherwise it names the first one that is not; the `Can't move right` error never occurs |
| ComputationModel.LoadFromTape | src/turing/computation.rs:114-119 | loading writes the codes of the known prefix under tape 0's head and as many blanks under every other head, moving each head past them |
| ComputationModel.WriteInputOutcome | src/turing/computation.rs:110-121 | with alphabet and tapes, `write_input_on_tape` fails exactly when w has a symbol outside the alphabet, and reports the first such symbol |
| ComputationModel.WriteInputRoundTrip | src/turing/computation.rs:110-121 | afterwards every head is at the end of the loaded prefix; reading tape 0 back through `get_r_symbol` gives w there; other tapes hold `BLANK` there; cells beyond are untouched |
| ComputationModel.ApplyFromEffect | src/turing/computation.rs:294-304 | actions are applied tape by tape; when tape f's move fails, tapes below f were already changed and tapes from f on were not |
| ComputationModel.StepEffect | src/turing/computation.rs:282-311 | `step`: no machine or no tapes is an error with nothing changed; any failed lookup is `NeedToStop` with nothing changed; a hit applies `dx`/`sx`/write per tape and sets the next state (`CanContinue`); a failed move is an error with earlier tapes changed and the state unchanged |
| ComputationModel.IterationEffect | src/turing/computation.rs:199-233 | one loop iteration parks while paused, leaves on stopped or terminated, and otherwise steps; the count grows by exactly 1 per `CanContinue`; `NeedToStop` or an error sets `terminated` |
| ComputationModel.RunEffect | src/turing/computation.rs:199-233 | a run changes only tapes, state, count and `terminated`; the count grows by at most the fuel; it halts or faults exactly when it sets `terminated`; paused or stopped runs take no step |
| ComputationModel.RunSplits | src/turing/computation.rs:199-233 | fuel only bounds the model: a run that ended ends the same with more fuel, and a run cut short continues where it stopped |
| ComputationModel.ControlFlags | src/turing/computation.rs:240-263 | `pause` is a no-op when stopped or terminated, `resume` clears `paused` only if paused and live, `stop` is unconditional; each touches only its flag, and pause then resume restores a live computation |
| ComputationModel.PauseThenStop | src/turing/computation.rs:199-263 | a paused run parks without a step; stop while paused lets the loop exit; resume lets it step again |
| ComputationModel.ResetAfterRun | src/turing/computation.rs:161-170 | `reset` zeroes count and state and clears all flags, while tapes stay as the run left them and machine, alphabet and w are kept |
| ComputationModel.IsOnFinalStateMeans | src/turing/computation.rs:271-280 | `is_on_final_state` holds exactly when a machine is attached and the current state is one of its final states |
| ComputationModel.OutputReadsBack | src/turing/computation.rs:123-140 | `output(i)` is an error exactly for i >= K (`Index out of bounds`) or without tapes; otherwise it is each cell's surface symbol (blank if unmapped), `"...\n"`, head-position spaces and `'^'` |
| ComputationModel.OutputAllOrder | src/turing/computation.rs:141-159 | `output_all` begins with `output(K-1)` and a newline and ends with `output(0)`, with no final newline |
| Computations.Computation.constructor | src/turing/computation.rs:48-70 | the constructor gives `NewConfig` |
| Computations.Computation.UseAlphabet | src/turing/computation.rs:77-79 | only the alphabet is replaced |
| Computations.Computation.UseMachine | src/turing/computation.rs:80-82 | only the machine is replaced |
| Computations.Computation.UseTape | src/turing/computation.rs:83-88 | tape idx is replaced if tapes are attached; otherwise nothing changes |
| Computations.Computation.UseTapes | src/turing/computation.rs:89-91 | only the tapes are replaced |
| Computations.Computation.ShiftHead | src/turing/computation.rs:93-101 | the two loops leave the configuration `ShiftHead` gives |
| Computations.Computation.RewindAll | src/turing/computation.rs:111 | `shift_head(0, i)` for every i rewinds every head |
| Computations.Computation.SetInputString | src/turing/computation.rs:103-109 | in-place `set_input_string` agrees with the value model |
| Computations.Computation.WriteInputOnTape | src/turing/computation.rs:110-121 | in-place `write_input_on_tape` returns and leaves what `WriteInput` gives |
| Computations.Computation.LoadInput | src/turing/computation.rs:114-120 | the loop over the symbols of w agrees with `LoadFrom` |
| Computations.Computation.WriteColumn | src/turing/computation.rs:116-118 | one symbol: code on tape 0, blanks elsewhere, then every head moves right without failing |
| Computations.Computation.Output | src/turing/computation.rs:123-140 | the string-building loops return `Output`, changing nothing |
| Computations.Computation.OutputAll | src/turing/computation.rs:141-159 | the loop from K-1 down to 0 returns `OutputAll`, changing nothing |
| Computations.Computation.Reset | src/turing/computation.rs:161-170 | in-place `reset` agrees with the value model |
| Computations.Computation.Pause | src/turing/computation.rs:240-245 | in-place `pause` agrees with the value model |
| Computations.Computation.Resume | src/turing/computation.rs:247-258 | in-place `resume` agrees with the value model |
| Computations.Computation.Stop | src/turing/computation.rs:260-263 | in-place `stop` agrees with the value model |
| Computations.Computation.Step | src/turing/computation.rs:282-311 | the read loop and the action loop return and leave what `Step` gives |
| Computations.Computation.RunLoop | src/turing/computation.rs:199-233 | the loop counting transitions and setting `terminated` returns the exit and leaves the state `Run` gives |
| Computations.Computation.Start | src/turing/computation.rs:172-237 | loads the input if w is non-empty and returns its error, then rewinds all heads and runs the loop |
| Scenarios.ExampleParts | src/turing/turing_machine.rs:34-119 | the example alphabet {*, 0, 1} and machine (q0,[0]) -> (q1,[R]) with q1 final are what `new`, `add_symbol`, `add_transition` and `add_final_state` build |
| Scenarios.LoadOneSymbol | src/turing/computation.rs:110-121 | loading a one-symbol input writes its code in cell 0 and leaves the head on cell 1 |
| Scenarios.AcceptsZero | src/turing/computation.rs:172-311 | on input "0" the machine halts after exactly one transition in q1, and `is_on_final_state` is true |
| Scenarios.RejectsOne | src/turing/computation.rs:172-311 | on input "1" the machine halts after zero transitions in q0, and `is_on_final_state` is false |
| Scenarios.DefaultTapeIsFreshBlank | src/turing/tape.rs:15-17 | the default tape is blank with head 0, so the scenarios apply to it |
| Nodes.NewNode | src/gui_editor/node.rs:21-33 | `Node::new` keeps id, label, colour and header flag and sets `is_final` to false |
| Nodes.PackColour | src/gui_editor/node.rs:103-110 | the packed colour is below 2^24, with r in byte 2, g in byte 1 and b in byte 0 |
| Nodes.UnpackPack | src/gui_editor/node.rs:103-129 | unpacking a packed colour returns the original (r, g, b) |
| Nodes.UnpackIgnoresHighBits | src/gui_editor/node.rs:125-129 | unpacking ignores every bit above the low 24 |
| Nodes.PackUnpack | src/gui_editor/node.rs:103-129 | every value below 2^24 is the packing of the colour it unpacks to |
| Nodes.Deserialised | src/gui_editor/node.rs:131-135 | a deserialised node is never final |
| Nodes.SerialisedFieldsRoundTrip | src/gui_editor/node.rs:111-135 | the colour packed by `serialize` unpacks to the node's colour, and with id, label and header passed through as parsed, the rebuilt node equals the original except that `is_final` comes back false |
| Arrows.NewArrow | src/gui_editor/arrow.rs:20-33 | `Arrow::new` stores id, from and to as given with an empty label list |
| Arrows.LabelOperations | src/gui_editor/arrow.rs:35-41 | `add_label` appends and keeps earlier labels; `remove_label_by_index` out of range changes nothing, and in range removes exactly that label, keeping the rest in order; nothing but the labels changes |
| Arrows.RemoveAddedLabel | src/gui_editor/arrow.rs:35-41 | removing the label just added gives the arrow back |
| Arrows.Arrow.constructor | src/gui_editor/arrow.rs:20-33 | the constructor gives `NewArrow` |
| Arrows.Arrow.AddLabel | src/gui_editor/arrow.rs:35-37 | in-place `add_label` agrees with the value model |
| Arrows.Arrow.RemoveLabelByIndex | src/gui_editor/arrow.rs:38-41 | in-place `remove_label_by_index` agrees with the value model |
| Arrows.TrimBracketsOf | src/gui_editor/arrow.rs:227-229 | trimming removes exactly the surrounding brackets of a string whose ends are not brackets |
| Arrows.ParseDecimal | src/gui_editor/arrow.rs:219-223 | parsing a `usize` printed in decimal gives it back |
| Arrows.DecodeToErrors | src/gui_editor/arrow.rs:219-223 | a missing to-field is `No id to`; an empty, signed-negative or oversized one is `Could not parse to id` |
| Arrows.ToRoundTrip | src/gui_editor/arrow.rs:181-223 | `"none"` decodes to no target and a printed id decodes to that id |
| Arrows.LabelsFrom | src/gui_editor/arrow.rs:225-231 | there is one label per piece from index 5 on, with no bracket at either end |
| Arrows.DecodeLabels | src/gui_editor/arrow.rs:225-231 | the label loop produces `LabelsFrom` |
| Arrows.LabelsRoundTrip | src/gui_editor/arrow.rs:177-231 | a non-empty list of labels that contain no ", " and have no bracket at either end, written as `serialize` writes it and split into pieces, is read back unchanged |
| Arrows.UnlabelledArrowGainsLabel | src/gui_editor/arrow.rs:177-231 | an arrow saved without labels is read back with one empty label |
| Arrows.LabelsFromFixed | src/gui_editor/arrow.rs:225-231 | the corrected decoding differs from the code only on the lone piece `"[]"` |
| Arrows.LabelsFixedRoundTrip | src/gui_editor/arrow.rs:177-231 | with the correction, every list of non-empty labels that contain no ", " and have no bracket at either end is read back unchanged, the empty list included |
| Editor.FirstFree | src/gui_editor/ui.rs:62-69 | the slot found is the lowest empty one, or the length if every slot is taken |
| Editor.PutFirstFree | src/gui_editor/ui.rs:62-73 | insertion fills the lowest hole, or appends exactly when there is none, and leaves every other slot unchanged |
| Editor.InsertNodeKeepsIds | src/gui_editor/ui.rs:62-73 | `insert_new_node` sets the node's id to its slot and keeps "every live slot i holds id i" |
| Editor.InsertArrowKeepsIds | src/gui_editor/ui.rs:80-91 | `insert_new_arrow` sets the arrow's id to its slot and keeps "every live slot i holds id i" |
| Editor.DeleteNodeEffect | src/gui_editor/ui.rs:50-60 | out of range `delete_node` is a no-op; otherwise it clears the node and exactly the arrows from or to it, keeps both lengths and all other slots, and preserves slot ids, distinct arrow ends and arrow targets |
| Editor.DeleteArrowKeepsIds | src/gui_editor/ui.rs:75-78 | out of range `delete_arrow` is a no-op; otherwise it empties only that slot, keeping the length; slot ids, distinct arrow ends and arrow targets are preserved |
| Editor.IsPresent | src/gui_editor/ui.rs:529-539 | `is_present` is true exactly when some live arrow has the same (from, to) |
| Editor.InsertNewPair | src/gui_editor/ui.rs:381-391 | inserting an arrow whose ends are new keeps the live (from, to) pairs pairwise distinct |
| Editor.ConnectedEffect | src/gui_editor/ui.rs:381-395 | finishing an arrow drag either changes nothing or inserts the arrow with a target it was not yet joined to, so distinct ends and slot ids are kept |
| Editor.NonSlash | src/gui_editor/ui.rs:139-145 | the kept characters are exactly the label's characters other than '/' |
| Editor.LabelsQuadsMembers | src/gui_editor/ui.rs:138-147 | an arrow contributes exactly one quadruple per label |
| Editor.QuadsAreLabels | src/gui_editor/ui.rs:133-149 | the quadruples are exactly (from, first and second non-'/' char, to or 0) for every label of every live arrow |
| Editor.AlphabetIsLabelChars | src/gui_editor/ui.rs:133-152 | the alphabet is exactly the set of non-'/' label characters of live arrows |
| Editor.QuadSymbolsInAlphabet | src/gui_editor/ui.rs:133-152 | both symbols of every quadruple are in the gathered alphabet and neither is '/' |
| Editor.ScanLabel | src/gui_editor/ui.rs:139-145 | the character loop yields the non-'/' characters in order and as a set |
| Editor.GatherArrow | src/gui_editor/ui.rs:137-147 | the label loop yields the characters and quadruples of one arrow |
| Editor.NodeEditor.constructor | src/gui_editor/ui.rs:31-48 | no nodes or arrows, empty input, one tape; the editor invariant `Valid` holds |
| Editor.NodeEditor.DeleteNode | src/gui_editor/ui.rs:50-60 | in-place `delete_node` leaves `DeletedNode`, other fields unchanged, and keeps `Valid` |
| Editor.NodeEditor.InsertNewNode | src/gui_editor/ui.rs:62-73 | the search loop and store leave `InsertedNode`, other fields unchanged, and keep `Valid` |
| Editor.NodeEditor.DeleteArrow | src/gui_editor/ui.rs:75-78 | out of range nothing changes; otherwise only that arrow slot is cleared; `Valid` is kept |
| Editor.NodeEditor.InsertNewArrow | src/gui_editor/ui.rs:80-91 | the search loop and store leave `InsertedArrow`, other fields unchanged; `Valid` is kept when the arrow has a target and its ends are new |
| Editor.NodeEditor.ConnectArrow | src/gui_editor/ui.rs:381-395 | the node loop leaves `Connected` and keeps `Valid` |
| Editor.NodeEditor.GatherAllInformation | src/gui_editor/ui.rs:133-156 | returns `Information`: `n_states == nodes.len()` as `u8` (empty slots counted), the label alphabet, the quadruples and the input |

## Findings

| source | as written | input that shows it | evidently intended | confidence | as-written member | corrected member |
|---|---|---|---|---|---|---|
| src/gui_editor/arrow.rs:225-231 | each piece from index 5 on, brackets trimmed, becomes a label | an arrow with no labels is saved as `..., none, []`; the piece `"[]"` is read back as the one label `""`, which `gather_all_information` then indexes at `chars[0]` (src/gui_editor/ui.rs:146) | the piece `"[]"` alone stands for an empty label list, so save then load restores the arrow | medium; not executed | Arrows.UnlabelledArrowGainsLabel | Arrows.LabelsFixedRoundTrip |

## Left out

- Threading in `start`: thread spawn, mutex and condition-variable waits, the completion channel and `wait_for_termination` are concurrency. The run loop is modelled sequentially with fuel. A wait on `paused` becomes the exit `Parked`, and running out of fuel is the exit `OutOfFuel`.
- Atomic flags and counters: each control operation is one atomic update, so interleavings between the control thread and the run thread are not modelled.
- `TuringMachine::to_string` and `final_states_reference`/`transitions_reference` are left out. The dump is diagnostic text printed in hash order, and the two accessors only hand out references.
- `Alphabet::default_blank` and `get_r_symbols` are not part of this model. They are assumed to return the blank given to `new` and to map `get_r_symbol` over the cells.
- Integer widths: `add_symbol`'s `len() as u8` truncates, and the model writes it out as `% 256`. `state_count` overflows `u8` at 256 states and is a precondition of `Machine.StateCount` rather than wrap-around behaviour.
- Alphabets.Alphabet.AddSymbols: requires both counts of the batch to stay below 256, because the source's `u8` counters overflow there (a panic in a debug build).
- Alphabets.AddSymbolsKeepsCoherent and Alphabets.AddSymbolsGrowsByInserted: hold only for batches whose fresh symbols fit in the 256 codes (`Room`). Past that, a fresh symbol takes code 0 and coherence is lost, as `FullTableReusesCodeZero` shows.
- `transition_count` is a `usize` and is unbounded in the model. The editor's `u8` casts of node ids and counts are written out as `% 256`.
- Panics become preconditions:
  - `read`/`write` past the end of a tape;
  - the alphabet `unwrap` in `output`;
  - the underflow of `output_all` for K = 0;
  - the `assert!`s of `use_tape` and `shift_head`;
  - the `unwrap`s in `delete_node` and `is_present`;
  - `chars[0]`/`chars[1]` in `gather_all_information`.
- Computations.Computation.RunLoop: a `read` past the end of a tape panics the run thread in the source. The model exits with `Crashed` instead and changes nothing, since the head can legitimately reach `size`.
- Computations.Computation.Step: requires every head to be on a cell whenever machine and tapes are attached. The source would panic otherwise.
- Editor.NodeEditor.ConnectArrow: requires every live arrow to have a target (`Targeted`), which is stronger than the scan strictly needs.
- Arrows.LabelsRoundTrip: holds only for labels with no ", " inside and no bracket at either end, since `deserialize` splits at ", " and `trim_matches` strips brackets; it relates the pieces and not the joined string, because splitting at ", " is not modelled.
- Nodes.SerialisedFieldsRoundTrip: only the colour goes through the real encoding (`PackColour`, `UnpackColour`). The id, label and header are passed through as parsed, and the position is left out.
- Editor.NodeEditor.InsertNewArrow: keeps `Valid` only for an arrow with a target and new ends. The source inserts arrows only from `ConnectArrow`, after `is_present`.
- Editor.IsPresent: requires that no live arrow without a target comes before the first match, the condition under which the source's `unwrap` does not panic.
- `eframe::App::update` and the rest of the egui interface, `from_serialized` (reads a file) and `NodeEditor::serialize` are left out. They depend on the GUI, file I/O and `Pos2` display formatting.
- Arrow and node geometry, drawing and hit tests are left out (`f32` and egui). So are the `Pos2` fields of arrow/node `serialize`/`deserialize` and the parsing of a node's id, label, position and header fields. An arrow's id, start, end and from fields are not decoded either; only its target and labels are.
- src/main.rs, src/gui_editor/mod.rs, src/turing/mod.rs and src/gui_editor/drawable.rs hold no logic. `definitions.rs` is not part of this model: states and codes are bytes and `BLANK` is 0.
