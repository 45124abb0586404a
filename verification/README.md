# ValinomCluinata chord-diagram editor: a Dafny model

This project models the core of the ValinomCluinata web editor for just-intonation chord diagrams. The core has two parts.

- **The pitch tree.** `TreeNode` and `Data` in `src/utils/TreeNode.ts` and `src/utils/Data.ts`, and the local copies in `src/app/page.jsx`, which behave the same for every modelled method but have no `clone`, and whose `getRoot` takes no argument. A tree is an ordered rooted tree of notes. Each note has:
  - a globally fresh id;
  - a canvas coordinate;
  - a payload of dimension, direction, mute flag and frequency.

  The tree supports id-path construction and lookup, subtree removal that refuses the root, pre-order hit-testing, pre-order collection of the unmuted frequencies, vertical translation, and deep clone.
- **The editor state machine.** It lives in `src/app/editor/page.tsx`, `src/app/editorLiquidGlass/page.tsx` and `src/app/page.jsx`. The state is a row of chord diagrams (one pitch tree each) with:
  - their root columns and lines;
  - their five-slot pitch vectors;
  - the selection (a diagram index and an id path);
  - the pitch/add-note mode flag.

  The events are:
  - the pitch buttons, which in pitch mode transpose the selected diagram and in add-note mode add a note;
  - adding a diagram (Ctrl+ArrowRight);
  - mute (Ctrl+Space);
  - delete;
  - click-selection;
  - the mode toggle (Shift).

  Playback's frequency computation is modelled too.

Trees are immutable values (`PitchTree.Node`). The source compares node objects by reference. The model compares ids instead, which is sound because every tree keeps its ids unique (`PitchTree.IdsIdentifyNodes`). The global id counter becomes an explicit `nextId`.

Every handler is a pure function from `Editor.State` to `Editor.State`. The three pages differ only in the constants of an `Editor.Variant`:
- the step table;
- the playback arrays;
- the first root column;
- whether a refused deletion goes to the error banner or to an alert.

Frequencies and ratios are exact `real`s.

Modules, one per file:

| file | module | contents |
|---|---|---|
| `option.dfy` | `Opt` | the `Option` type |
| `data.dfy` | `NoteData` | the payload |
| `tree.dfy` | `PitchTree` | nodes, the pre-order listing `Entries`, translation, frequencies, hit-testing, clone |
| `paths.dfy` | `TreePaths` | `getNodeByPath`, `getIDPath`, in-place edits of the selected note |
| `removal.dfy` | `TreeRemoval` | `removeNode` |
| `tuning.dfy` | `Tuning` | step tables, transposition |
| `coherence.dfy` | `Coherence` | "every note is one step from its parent" |
| `playback.dfy` | `Playback` | `playSound`'s frequency loops |
| `editor.dfy` | `Editor` | state, invariant, events |
| `editor_invariant.dfy` | `EditorInvariant` | every event keeps the invariant |
| `editor_behaviour.dfy` | `EditorBehaviour` | what each event does |

The reference definitions that the recursive operations are proved against are:
- the pre-order listing `PitchTree.Entries`;
- `PitchTree.Audible`, which gives the unmuted frequencies of a listing in order;
- `PitchTree.FirstHitEntry`, the first hit entry of a listing;
- `PitchTree.Renumber`, which renumbers a listing consecutively;
- `Playback.PlayedUpTo`, the transposed notes of the first `n` diagrams.

The editor invariant `Editor.Valid` states the following:
- the parallel arrays line up;
- every pitch vector has five slots with slot 0 at 0;
- root `i` sits at `(rootX[i] + 30, rootY[i])`;
- `rootX[i]` is the first column plus `233 * i`;
- `rootY[i] = 1000 - Σ offset(d) * pitch[i][d - 1]`;
- every note is one step (column, distance, ratio) from its parent;
- ids are unique within and across diagrams and below the counter;
- the selection resolves to a note.

## Model

| member | source | states |
|---|---|---|
| NoteData.SetMuted | src/utils/Data.ts:14-16 | the mute flag becomes the argument and dimension, direction and frequency are unchanged |
| NoteData.ToggleMuted | src/utils/Data.ts:14-16 | `setMuted(!isMuted)` flips the flag, and writing the old flag back gives the original payload |
| NoteData.ToggleMutedTwice | src/utils/Data.ts:14-16 | flipping the mute flag twice restores the payload |
| PitchTree.NewNode | src/utils/TreeNode.ts:11-17 | a new node takes the counter's value as its id and the counter moves strictly past it; the payload is stored as given; no children |
| PitchTree.AddChild | src/utils/TreeNode.ts:19-22 | the child becomes the last child; the node itself and its earlier children are unchanged |
| PitchTree.AddChildEntries | src/utils/TreeNode.ts:19-22 | after `addChild` the child's whole subtree comes last in pre-order, and the size grows by the child's size |
| PitchTree.IdsIdentifyNodes | src/utils/TreeNode.ts:4-16 | in a tree with unique ids, two nodes with the same id are the same node, so comparing ids stands in for comparing references |
| PitchTree.Shift | src/utils/TreeNode.ts:124-129 | `rootCoordinate(dy)` moves the node's Y by `dy`, keeps its id, X and payload, and keeps the number of children |
| PitchTree.ShiftEntriesOf | src/utils/TreeNode.ts:124-129 | the pre-order listing of a translated tree is the original listing with every Y moved by `dy` and nothing else changed: same X, payloads, ids, order and shape |
| PitchTree.ShiftInverse | src/utils/TreeNode.ts:124-129 | translating by `dy` and then by `-dy` gives back the same tree |
| PitchTree.ShiftCompose | src/utils/TreeNode.ts:124-129 | two translations compose into one by the sum of the offsets |
| PitchTree.ShiftIds | src/utils/TreeNode.ts:124-129 | translation keeps the set of ids and their uniqueness |
| PitchTree.Audible | src/utils/TreeNode.ts:113-122 | the reference list of unmuted frequencies is no longer than the listing, as long when nothing is muted, and holds only frequencies of unmuted entries |
| PitchTree.FrequenciesPreorder | src/utils/TreeNode.ts:113-122 | `returnFrequencies` equals the frequencies of the unmuted entries of the pre-order listing, in order, so a muted node's descendants still sound |
| PitchTree.FrequenciesCountUnmuted | src/utils/TreeNode.ts:113-122 | with nothing muted there is exactly one frequency per node |
| PitchTree.AddChildFrequencies | src/utils/TreeNode.ts:113-122 | after `addChild` the child's frequencies come after the parent's |
| PitchTree.ShiftFrequencies | src/utils/TreeNode.ts:124-129 | a translation changes no stored frequency |
| PitchTree.SearchCoordinate | src/utils/TreeNode.ts:100-111 | a found node is in the tree and its box (`x - 15 < px < x + 160`, `abs(y - py) < 6`) holds the point |
| PitchTree.FirstHit | src/utils/TreeNode.ts:100-111 | the reference search returns the index of a hit entry with no hit before it, or nothing when no entry is hit |
| PitchTree.SearchIsFirstHit | src/utils/TreeNode.ts:100-111 | `searchCoordinate` returns exactly the first hit node of the pre-order listing, and nothing when no node is hit |
| PitchTree.Clone | src/utils/TreeNode.ts:131-144 | the clone's root takes the next id and the counter advances by the tree's size |
| PitchTree.CloneEntries | src/utils/TreeNode.ts:131-144 | the clone lists the same coordinates and payloads in the same pre-order, with ids `next, next + 1, ...` in construction order |
| PitchTree.CloneShape | src/utils/TreeNode.ts:131-144 | with ids erased, clone and original are equal: same shape, child order, coordinates and payloads |
| PitchTree.CloneFresh | src/utils/TreeNode.ts:131-144 | every id of the clone comes from the counter range it consumed, and the clone's ids are unique |
| TreePaths.FindChild | src/utils/TreeNode.ts:86-95 | the child scan returns the first child with the id, or nothing when no child has it |
| TreePaths.Walk | src/utils/TreeNode.ts:83-97 | a successful walk ends at a node of the tree whose id is the last id of the path |
| TreePaths.GetNodeByPath | src/utils/TreeNode.ts:79-98 | the empty path gives nothing; any one-element path gives the root without checking its id; a result is a node of the tree whose id is the path's last id |
| TreePaths.FirstIdIgnored | src/utils/TreeNode.ts:79-98 | the first id of a path is never compared: replacing it changes nothing |
| TreePaths.IdPath | src/utils/TreeNode.ts:40-49 | `getIDPath` exists exactly for ids in the tree, starts with the root's id and ends with the node's own id |
| TreePaths.PathRoundTrip | src/utils/TreeNode.ts:40-98 | in a tree with unique ids, `getNodeByPath(getIDPath(n))` is `n` for every node `n` |
| TreePaths.PathIsCanonical | src/utils/TreeNode.ts:40-98 | conversely, a path that starts at the root's id and resolves to `n` is `n`'s id path |
| TreePaths.PathExtend | src/utils/TreeNode.ts:79-98 | extending a resolving path by one id selects the first child with that id, or nothing |
| TreePaths.Rewrite | src/app/editor/page.tsx:292-293 | an in-place edit of the selected note keeps the root's id and coordinate, and does nothing when the path resolves to nothing |
| TreePaths.RewriteFound | src/app/editor/page.tsx:331-334 | after an edit, the same path resolves to the edited note |
| TreePaths.FlipTwice | src/app/editor/page.tsx:331-334 | flipping the mute flag of the same selection twice restores the tree |
| TreePaths.RewriteBlock | src/app/editor/page.tsx:331-334 | an edit replaces exactly the selected note's block of the pre-order listing; all entries before and after it stay |
| TreePaths.MuteFlipsOneEntry | src/app/editor/page.tsx:331-335 | muting changes exactly one entry, the selected one, only in its flag, and playback loses or regains exactly that note's frequency at its place |
| TreePaths.AppendInsertsBlock | src/app/editor/page.tsx:288-294 | an added note's subtree enters the pre-order listing and the frequencies right after the selected note's subtree |
| TreePaths.RewriteKeeps | src/app/editor/page.tsx:288-294 | an edit adds exactly the ids it brings, keeps ids unique when they are fresh, and invents no other entry |
| TreePaths.ShiftPath | src/app/editor/page.tsx:280-282 | a translated diagram resolves every path that resolved before, to the translated note |
| TreePaths.AppendUnique | src/utils/TreeNode.ts:19-22 | appending a subtree with fresh ids keeps ids unique and adds exactly the child's ids |
| TreeRemoval.RemoveNode | src/utils/TreeNode.ts:58-63 | removing the root fails and changes nothing; removal succeeds exactly when the id is below the root; a failure leaves the tree unchanged; the root's entry always stays |
| TreeRemoval.RemoveFromChildren | src/utils/TreeNode.ts:65-77 | the recursive search succeeds exactly when some subtree of the list holds the id, and changes nothing otherwise |
| TreeRemoval.RemoveNodeBlock | src/utils/TreeNode.ts:58-77 | a successful removal takes out one non-root node with that id together with its whole subtree, as one contiguous block of the pre-order listing; all other entries keep their order; the size drops by the subtree's size |
| TreeRemoval.RemoveNodeEntries | src/utils/TreeNode.ts:58-77 | removal never invents an entry |
| TreeRemoval.RemoveExact | src/utils/TreeNode.ts:58-77 | in a tree with unique ids, removing any non-root node succeeds, removes exactly that node's ids, shrinks the size by its subtree's size and keeps ids unique |
| TreeRemoval.RemovePreservesPaths | src/utils/TreeNode.ts:58-77 | the id path of every surviving node is unchanged by a removal |
| Tuning.TablesAreReciprocal | src/app/editor/page.tsx:257-262 | both step tables cover dimensions 2 to 5 exactly, with up ratios above 1, down ratios their reciprocals and positive offsets |
| Tuning.PlaybackAgreesWithButtons | src/app/editorLiquidGlass/page.tsx:417-424 | the playback arrays hold, in slot `k`, the up and down ratios of dimension `k + 1`, for both tables |
| Tuning.TablesDifferAtFive | src/app/page.jsx:411-416 | the landing page's table equals the editor's except at dimension 5, where its up ratio is half (11/8 against 11/4) |
| Tuning.Pow | src/app/editor/page.tsx:415-418 | a power of a positive ratio is positive |
| Tuning.TransposeUp | src/app/editor/page.tsx:411-420 | one more step up in pitch slot `k` multiplies a transposed note by the slot's up ratio |
| Tuning.TransposeDown | src/app/editor/page.tsx:411-420 | one more step down in pitch slot `k` multiplies a transposed note by the slot's down ratio |
| Tuning.TransposeAtRest | src/app/editor/page.tsx:411-420 | a zero pitch vector leaves every note's frequency unchanged |
| Tuning.TransposePositive | src/app/editor/page.tsx:411-420 | with positive ratios a positive frequency stays positive |
| Playback.TransposeNote | src/app/editor/page.tsx:408-421 | the slot loop over dimensions 1 to 4 computes the note times every slot's factor, in order |
| Playback.Playback | src/app/editor/page.tsx:403-427 | the collected frequencies are, diagram by diagram in order, every unmuted note transposed by that diagram's pitch vector |
| Playback.PlayedAppend | src/app/editor/page.tsx:403-427 | a new last diagram plays after all the others and changes none of their sound |
| Playback.PlayedPositive | src/app/editor/page.tsx:403-427 | with positive ratios and positive notes everything played is positive |
| Coherence.FlipCoherent | src/app/editor/page.tsx:331-334 | muting changes neither a note's place nor any step below it |
| Coherence.AppendCoherent | src/app/editor/page.tsx:285-293 | a new child one step from the selected note keeps every step rule |
| Coherence.RewriteCoherent | src/app/editor/page.tsx:292-293 | editing the selected note in a way that keeps its place keeps the whole diagram coherent and its root in place |
| Coherence.ShiftCoherent | src/app/editor/page.tsx:280-281 | translating a whole diagram keeps every step's distance |
| Coherence.RemoveCoherent | src/utils/TreeNode.ts:58-77 | removing a subtree keeps the rest coherent |
| Coherence.CoherentPositive | src/app/editor/page.tsx:285-288 | with reciprocal ratios above and below 1, every note of a diagram with a positive root frequency is positive |
| Coherence.CoherentColumn | src/app/editor/page.tsx:289-290 | every note of a diagram sits in its root's column |
| Editor.PagesOk | src/app/editor/page.tsx:257-262 | each page's constants fit together: reciprocal steps for dimensions 2 to 5, and playback reads the same ratios |
| Editor.Selected | src/app/editor/page.tsx:241-244 | a selected note is a node of the selected diagram |
| EditorBehaviour.PitchMoves | src/app/editor/page.tsx:269-282 | in pitch mode, slot `d - 1` of the selected pitch vector changes by ±1 and its other four slots stay; the selected root line moves by −offset (up) or +offset (down); the selected diagram's pre-order listing is the old one with every y moved by that amount, and it plays the same frequencies; every other diagram, root line and pitch vector is unchanged, and so is every other field of the state |
| EditorBehaviour.NoteAdds | src/app/editor/page.tsx:284-294 | in add-note mode the selected diagram's pre-order listing gains exactly the new note, placed right after the selected note's subtree block; every other diagram is unchanged; the counter advances by one and every other field of the state stays |
| Editor.AddedNote | src/app/editor/page.tsx:285-290 | the added note takes the next id, has no children, is unmuted and carries the button's dimension and direction; it is in the parent's column, one offset up or down, at the parent's frequency times the ratio |
| Editor.FirstDiagramHit | src/app/editor/page.tsx:223-237 | the diagram scan returns the first diagram, in index order, whose search hits, together with the hit; no diagram before it is hit; nothing is returned when no diagram is hit |
| EditorInvariant.NewRootFacts | src/app/editor/page.tsx:310-312 | a new diagram's root is unmuted, dimension 0, at its column plus 30 on line 1000, with one fresh id and the root frequency as its only sound |
| EditorInvariant.InitLayout | src/app/editorLiquidGlass/page.tsx:57-69 | the glass page mounts at left edge 250 with its root at (280, 1000); the other two pages at 30 with the root at (60, 1000); zero pitch vector, pitch mode, root selected |
| EditorInvariant.InitValid | src/app/editor/page.tsx:54-66 | the mounted state satisfies the invariant and plays the root frequency alone |
| EditorInvariant.AddDiagramValid | src/app/editor/page.tsx:307-320 | adding a diagram keeps the invariant |
| EditorInvariant.AddDiagramEffect | src/app/editor/page.tsx:307-320 | adding a diagram appends exactly one element to each of the diagrams, left edges, root lines and pitch vectors and keeps the earlier ones: left edge 233 right of the last, root line 1000, pitch vector all zero, and a childless unmuted dimension-0 root with the next id at the left edge plus 30 on line 1000 sounding the root frequency; the counter advances by one and every other field stays |
| EditorInvariant.AddDiagramLaid | src/app/editor/page.tsx:308-315 | after adding a diagram every diagram, the new one included, is laid out in its column at the line its pitch vector gives |
| EditorInvariant.AddDiagramIds | src/app/editor/page.tsx:310-314 | after adding a diagram, ids stay disjoint across diagrams and below the counter |
| EditorInvariant.AddDiagramPlays | src/app/editor/page.tsx:307-320 | a new diagram adds its root frequency, untransposed, after everything already played |
| EditorInvariant.ToggleModeValid | src/app/editor/page.tsx:377-378 | Shift flips the mode, changes nothing else and keeps the invariant |
| EditorInvariant.DismissErrorValid | src/app/editor/page.tsx:540 | closing the banner clears the error, changes nothing else and keeps the invariant |
| EditorInvariant.ToggleMuteValid | src/app/editor/page.tsx:331-344 | muting keeps the invariant |
| EditorInvariant.LiftStep | src/app/editor/page.tsx:271-277 | one step of slot `d - 1` moves the root line by the step's rise, so `rootY = 1000 - Σ offset * pitch` keeps holding |
| EditorInvariant.ShiftLaid | src/app/editor/page.tsx:269-282 | a diagram moved by one step, together with its pitch slot and root line, still fits its column |
| EditorInvariant.PitchStepValid | src/app/editor/page.tsx:269-283 | a pitch-mode step keeps the invariant |
| EditorInvariant.AddNoteValid | src/app/editor/page.tsx:284-294 | adding a note keeps the invariant |
| EditorInvariant.PitchButtonValid | src/app/editor/page.tsx:240-305 | every pitch button press, in either mode, whether or not anything changes, keeps the invariant |
| EditorInvariant.DeleteValid | src/app/editor/page.tsx:346-363 | delete, refused or not, keeps the invariant |
| EditorInvariant.ClickValid | src/app/editor/page.tsx:213-238 | a click keeps the invariant |
| EditorBehaviour.ToggleMuteTwice | src/app/editor/page.tsx:331-335 | muting twice leaves the state as it was |
| EditorBehaviour.FlipSound | src/app/editor/page.tsx:331-334 | muting the selected note removes exactly its frequency from the diagram's sound, and unmuting adds it back |
| EditorBehaviour.ToggleMuteSound | src/app/editor/page.tsx:331-344 | Ctrl+Space silences or restores the selected note's frequency only; no other diagram changes, and every field of the state other than the diagrams stays |
| EditorBehaviour.PitchButtonShaped | src/app/editor/page.tsx:240-305 | a pitch button keeps the parallel arrays lined up, the selection and the mode |
| EditorBehaviour.PitchIdle | src/app/editor/page.tsx:241-265 | without a selected note, or for a dimension outside the table, a pitch button changes nothing |
| EditorBehaviour.MovedUndo | src/app/editor/page.tsx:269-283 | in pitch mode the opposite button undoes a move: pitch vector, root line and every note are restored |
| EditorBehaviour.PitchUndo | src/app/editor/page.tsx:240-305 | in pitch mode every pitch button is undone by the opposite one, in every case |
| EditorBehaviour.TransposeStep | src/app/editor/page.tsx:403-427 | one step of slot `d - 1` multiplies every note a diagram plays by dimension `d`'s ratio |
| EditorBehaviour.PitchStepTransposes | src/app/editor/page.tsx:269-283 | in pitch mode a button transposes the selected diagram's whole sound by the step's ratio, in the same order; no other diagram's sound changes |
| EditorBehaviour.AppendSound | src/app/editor/page.tsx:288-294 | adding a note under the selection adds the new subtree's frequencies to the diagram's sound |
| EditorBehaviour.AppendReachable | src/app/editor/page.tsx:293 | a new child with an id none of its siblings has is reached by the selection path extended with its id |
| EditorBehaviour.AddNoteEffect | src/app/editor/page.tsx:284-294 | in add-note mode a button adds one note; it is reached by the selection extended with the new id, and the diagram plays the old notes plus the new frequency; the counter advances by one; other diagrams are unchanged, and every field of the state other than the diagrams and the counter stays |
| EditorBehaviour.DeleteRootRefused | src/app/editor/page.tsx:346-352 | delete on the root changes nothing: the editor page sets the banner message, the other pages raise it as an alert |
| EditorBehaviour.RemoveSound | src/utils/TreeNode.ts:58-77 | removing a non-root note takes exactly its subtree's frequencies out of the diagram's sound |
| EditorBehaviour.DeleteEffect | src/app/editor/page.tsx:346-363 | delete on any other note removes exactly its subtree's ids and frequencies, selects the root, and touches no other diagram; every field of the state other than the diagrams and the selection stays |
| EditorBehaviour.FirstDiagramHitIsFirst | src/app/editor/page.tsx:223-237 | the scan picks the leftmost diagram whose pre-order listing has a hit, and that listing's first hit; nothing is picked when no diagram is hit |
| EditorBehaviour.ClickPicks | src/app/editor/page.tsx:223-237 | a click selects the diagram and note the scan finds, by a path that resolves back to that note; a miss changes nothing |
| EditorBehaviour.ClickSelectsFirstHit | src/app/editor/page.tsx:213-238 | a click selects, in the leftmost diagram with a hit, the first hit note in pre-order; a miss changes nothing |
| EditorBehaviour.PlaybackPositive | src/app/editor/page.tsx:391-429 | a valid editor never hands a non-positive frequency to an oscillator |

## Left out

- Drawing is not modelled: `drawChordDiagram`, `drawPitchRecursive`, the grid and the highlight rectangles produce no state.
- The Web Audio part of `playSound` is not modelled. That covers oscillators, the `0.1 / n` gain, `setTimeout` stops, the `parseInt` duration and the waveform generators of `src/app/page.jsx`. The model stops at the list of frequencies handed to the oscillators.
- The root frequency `2^0.25 * 220` is not computed. It is a positive real parameter of `Editor.Init`, because a fourth root has no exact rational value.
- Floating point is not modelled. Frequencies and ratios are exact reals, so rounding in `Math.pow` and in products is absent.
- The `isMute` label state and `console.log` calls are left out. Neither is read back by any handler.
- Parent references and `getRoot` are not stored or modelled. A node's parent is the node whose child list holds it, and `getRoot` is never called.
- React artefacts are left out. Redraws with pre-update arrays, shallow copies that share node objects, and stale closures are replaced by the sequential transition they evidently intend.
- `src/utils/compile.ts`, the file-list page and the UI components are not part of this model. They are a network client and presentation.
- Editor.AddDiagram: requires a non-empty `rootX`. The source reads `rootX[rootX.length - 1]` and would place a new diagram at `NaN` on an empty row, which never happens after mounting.
- Editor.PitchButton: requires the parallel arrays to line up (`Shaped`) and the table to cover exactly dimensions 2 to 5. The handler indexes `pitch[sideIndex]` without a guard, and every reachable state satisfies both conditions (`EditorInvariant.PitchButtonValid`).
- Playback.Playback: requires a pitch vector for every diagram. The source's arrays always have equal lengths.
- TreePaths.IdPath: the path is computed from the root rather than by climbing parent references. With unique ids both give the same path (`TreePaths.PathIsCanonical`). The length-equals-depth-plus-one fact is not stated separately.
- Data `clone` has no member of its own. On an immutable value a field-by-field copy is the value itself.
