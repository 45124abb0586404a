/**
 * The chord-diagram editor pages: src/app/editor/page.tsx, its visual variant
 * src/app/editorLiquidGlass/page.tsx, and the landing page src/app/page.jsx. Each
 * page keeps a row of chord diagrams (one pitch tree each) side by side, the
 * diagrams' root coordinates and pitch vectors, which diagram and which note are
 * selected, and whether the pitch buttons move the whole diagram ("pitch" mode) or
 * add a note under the selected one.
 *
 * The React state becomes an immutable `State`; every event handler becomes a
 * function from state to state. The three pages differ only in the constants of a
 * `Variant`. Drawing, sound output and timers are not modelled.
 */
module Editor {
  import opened Opt
  import opened NoteData
  import opened PitchTree
  import opened TreePaths
  import opened TreeRemoval
  import opened Tuning
  import opened Coherence
  import opened Playback

  /** What tells the three pages apart. */
  datatype Variant = Variant(
    table: Table,          // the pitch buttons' `multipliers`
    playUp: seq<real>,     // playback's up ratios by pitch slot
    playDown: seq<real>,   // playback's down ratios by pitch slot
    firstRootX: int,       // left edge of the first diagram
    bannerErrors: bool)    // a refused deletion sets the error banner rather than raising an alert

  const EditorPage: Variant := Variant(EditorTable, EditorPlayUp, EditorPlayDown, 30, true)
  const GlassPage: Variant := Variant(EditorTable, EditorPlayUp, EditorPlayDown, 250, false)
  const LandingPage: Variant := Variant(LandingTable, LandingPlayUp, LandingPlayDown, 30, false)

  /** Half the canvas height: the line every new diagram's root starts on. */
  const Baseline: int := 1000
  /** Width of one diagram. */
  const Spacing: int := 233
  /** A root note sits this far right of its diagram's left edge. */
  const Inset: int := 30

  /** The message shown when the root of a diagram is to be deleted ("the root note cannot be deleted"). */
  const RootRefusal: string := "\U{30EB}\U{30FC}\U{30C8}\U{97F3}\U{306F}\U{524A}\U{9664}\U{3067}\U{304D}\U{307E}\U{305B}\U{3093}"

  /** The constants of a page fit together: reciprocal steps for dimensions 2 to 5, and playback reads the same ratios. */
  predicate VariantOk(v: Variant)
  {
    Reciprocal(v.table) && Dimensions(v.table) && Agrees(v.table, v.playUp, v.playDown)
  }

  lemma PagesOk()
    ensures VariantOk(EditorPage) && VariantOk(GlassPage) && VariantOk(LandingPage)
  {
    TablesAreReciprocal();
    PlaybackAgreesWithButtons();
  }

  datatype State = State(
    diagrams: seq<Node>,       // `pitchData`
    rootX: seq<int>,           // left edge of each diagram
    rootY: seq<int>,           // Y of each diagram's root
    pitch: seq<seq<int>>,      // each diagram's pitch vector
    side: nat,                 // `sideIndex`: the selected diagram
    selected: seq<nat>,        // `selectedPitchline`: id path of the selected note
    isPitch: bool,             // pitch buttons transpose (true) or add a note (false)
    nextId: nat,               // the global node counter
    rootFrequency: real,
    error: Option<string>)     // the error banner

  // ---------------------------------------------------------------------------
  // The invariant
  // ---------------------------------------------------------------------------

  /** The vertical offset of one dimension's step; 0 for a dimension without one. */
  function Offset(tbl: Table, d: int): int
  {
    if d in tbl then tbl[d].offset else 0
  }

  /** How far a pitch vector has moved a root up: each slot's net steps times its dimension's offset. */
  function Lift(tbl: Table, p: seq<int>): int
    requires |p| == 5
  {
    p[1] * Offset(tbl, 2) + p[2] * Offset(tbl, 3) + p[3] * Offset(tbl, 4) + p[4] * Offset(tbl, 5)
  }

  /** The parallel arrays line up, and every pitch vector has its five slots. */
  predicate Shaped(s: State)
  {
    && |s.diagrams| >= 1
    && |s.rootX| == |s.diagrams| && |s.rootY| == |s.diagrams| && |s.pitch| == |s.diagrams|
    && (forall i | 0 <= i < |s.pitch| :: |s.pitch[i]| == 5)
  }

  /** Diagram `i` sits in its column, its root reflects its pitch vector, and its notes are coherent. */
  predicate Laid(v: Variant, i: int, t: Node, x: int, y: int, p: seq<int>, f: real)
  {
    && x == v.firstRootX + Spacing * i
    && |p| == 5 && p[0] == 0
    && y == Baseline - Lift(v.table, p)
    && t.x == x + Inset && t.y == y
    && t.data.dimension == 0 && t.data.isUp && t.data.frequency == f
    && Coherent(v.table, t) && UniqueIds(t)
  }

  /** Every id in `t` was handed out before `next`. */
  predicate Below(t: Node, next: nat)
  {
    forall k | k in IdSet(t) :: k < next
  }

  predicate Valid(v: Variant, s: State)
  {
    && VariantOk(v)
    && Shaped(s)
    && s.side < |s.diagrams|
    && s.rootFrequency > 0.0
    && (forall i | 0 <= i < |s.diagrams| :: Laid(v, i, s.diagrams[i], s.rootX[i], s.rootY[i], s.pitch[i], s.rootFrequency))
    && (forall i, j | 0 <= i < j < |s.diagrams| :: IdSet(s.diagrams[i]) !! IdSet(s.diagrams[j]))
    && (forall i | 0 <= i < |s.diagrams| :: Below(s.diagrams[i], s.nextId))
    && GetNodeByPath(s.diagrams[s.side], s.selected).Some?
  }

  // ---------------------------------------------------------------------------
  // Events
  // ---------------------------------------------------------------------------

  /** The root note of a new diagram, at left edge `x`. */
  function NewRoot(next: nat, x: int, f: real): (r: (Node, nat))
  {
    var (root, next') := NewNode(next, Data(0, true, false, f));
    (root.(x := x + Inset, y := Baseline), next')
  }

  /** The mount effect: one diagram at the first column, pitch mode on, its root selected. */
  function Init(v: Variant, rootFrequency: real, next: nat): (s: State)
  {
    var (root, next') := NewRoot(next, v.firstRootX, rootFrequency);
    State([root], [v.firstRootX], [Baseline], [[0, 0, 0, 0, 0]], 0, [root.id], true, next', rootFrequency, None)
  }

  /** The selected note: the node the selection path resolves to in the selected diagram, or nothing when the side index is out of range or the path does not resolve. */
  function Selected(s: State): (r: Option<Node>)
    ensures r.Some? ==> s.side < |s.diagrams| && IsSubtree(r.value, s.diagrams[s.side])
  {
    if s.side < |s.diagrams| then GetNodeByPath(s.diagrams[s.side], s.selected) else None
  }

  /** Ctrl+ArrowRight: a new diagram one column right of the last, with a fresh root and a zero pitch vector. */
  function AddDiagram(s: State): (r: State)
    requires |s.rootX| > 0
  {
    var x := s.rootX[|s.rootX| - 1] + Spacing;
    var (root, next) := NewRoot(s.nextId, x, s.rootFrequency);
    s.(diagrams := s.diagrams + [root], rootX := s.rootX + [x], rootY := s.rootY + [Baseline],
       pitch := s.pitch + [[0, 0, 0, 0, 0]], nextId := next)
  }

  /** Shift: switch between moving the diagram and adding notes. */
  function ToggleMode(s: State): (r: State)
  {
    s.(isPitch := !s.isPitch)
  }

  /** Ctrl+Space: flip the selected note's mute flag; nothing happens when no note is selected. */
  function ToggleMute(s: State): (r: State)
  {
    match Selected(s)
    case None => s
    case Some(_) => s.(diagrams := s.diagrams[s.side := Rewrite(s.diagrams[s.side], s.selected, FlipMute)])
  }

  /**
   * A pitch button of dimension `d`. Without a selected note or a step for `d`
   * nothing happens. In pitch mode the selected diagram's pitch slot `d - 1` takes one
   * step, and its root line and every note move by the step's distance. Otherwise a
   * new unmuted note one step from the selected one is added as its last child.
   */
  function PitchButton(v: Variant, s: State, d: int, isUp: bool): (r: State)
    requires Shaped(s) && Dimensions(v.table)
  {
    match Selected(s)
    case None => s
    case Some(m) =>
      if d !in v.table then s
      else
        var step := v.table[d];
        var rise := Rise(step, isUp);
        var t := s.diagrams[s.side];
        if s.isPitch then
          var p := s.pitch[s.side];
          s.(pitch := s.pitch[s.side := p[d - 1 := p[d - 1] + (if isUp then 1 else -1)]],
             rootY := s.rootY[s.side := s.rootY[s.side] + rise],
             diagrams := s.diagrams[s.side := Shift(t, rise)])
        else
          s.(diagrams := s.diagrams[s.side := Rewrite(t, s.selected, Append(AddedNote(v.table, s.nextId, m, d, isUp)))],
             nextId := s.nextId + 1)
  }

  /** The pitch-mode branch of a pitch button written out as one record update, for proofs that follow it field by field. */
  lemma PitchBranch(v: Variant, s: State, d: int, isUp: bool)
    requires Shaped(s) && Dimensions(v.table) && s.isPitch && Selected(s).Some? && d in v.table
    ensures var i, rise, p := s.side, Rise(v.table[d], isUp), s.pitch[s.side];
      PitchButton(v, s, d, isUp)
        == s.(pitch := s.pitch[i := p[d - 1 := p[d - 1] + (if isUp then 1 else -1)]],
              rootY := s.rootY[i := s.rootY[i] + rise],
              diagrams := s.diagrams[i := Shift(s.diagrams[i], rise)])
  {
  }

  /** The add-note branch of a pitch button written out as one record update, for proofs that follow it field by field. */
  lemma NoteBranch(v: Variant, s: State, d: int, isUp: bool)
    requires Shaped(s) && Dimensions(v.table) && !s.isPitch && Selected(s).Some? && d in v.table
    ensures var t := s.diagrams[s.side];
      var c := AddedNote(v.table, s.nextId, Selected(s).value, d, isUp);
      PitchButton(v, s, d, isUp)
        == s.(diagrams := s.diagrams[s.side := Rewrite(t, s.selected, Append(c))], nextId := s.nextId + 1, selected := s.selected)
  {
  }

  /** The note a pitch button of dimension `d` adds under `m`: a new node with the next id, one step from `m`, unmuted. */
  function AddedNote(tbl: Table, next: nat, m: Node, d: int, isUp: bool): (c: Node)
    requires d in tbl
    ensures c.id == next && c.children == []
    ensures StepFrom(tbl, m, c) && c.data.dimension == d && c.data.isUp == isUp && !c.data.isMuted
  {
    var (child, _) := NewNode(next, Data(d, isUp, false, m.data.frequency * Ratio(tbl[d], isUp)));
    child.(x := m.x, y := m.y + Rise(tbl[d], isUp))
  }

  /**
   * Delete: remove the selected note with everything below it and select the root.
   * The root itself is refused: the editor page shows the message in its error
   * banner, the other two pages raise it as an alert (the second component).
   */
  function Delete(v: Variant, s: State): (r: (State, Option<string>))
  {
    match Selected(s)
    case None => (s, None)
    case Some(m) =>
      var t := s.diagrams[s.side];
      var (deleted, t') := RemoveNode(t, m.id);
      if !deleted then
        if v.bannerErrors then (s.(error := Some(RootRefusal)), None) else (s, Some(RootRefusal))
      else
        (s.(diagrams := s.diagrams[s.side := t'], selected := [t'.id]), None)
  }

  /** The banner's close button. */
  function DismissError(s: State): (r: State)
  {
    s.(error := None)
  }

  /** The first diagram from `i` on that has a note under the point, with that note. */
  function FirstDiagramHit(ds: seq<Node>, px: real, py: real, i: nat): (r: Option<(nat, Node)>)
    requires i <= |ds|
    ensures r.Some? ==> i <= r.value.0 < |ds| && SearchCoordinate(ds[r.value.0], px, py) == Some(r.value.1)
    ensures r.Some? ==> forall j | i <= j < r.value.0 :: SearchCoordinate(ds[j], px, py).None?
    ensures r.None? ==> forall j | i <= j < |ds| :: SearchCoordinate(ds[j], px, py).None?
    decreases |ds| - i
  {
    if i == |ds| then None
    else
      match SearchCoordinate(ds[i], px, py)
      case Some(n) => Some((i, n))
      case None => FirstDiagramHit(ds, px, py, i + 1)
  }

  /** A click at (`px`, `py`): select the first note hit, scanning the diagrams left to right; a miss changes nothing. */
  function Click(s: State, px: real, py: real): (r: State)
  {
    match FirstDiagramHit(s.diagrams, px, py, 0)
    case None => s
    case Some((i, n)) =>
      match IdPath(s.diagrams[i], n.id)
      case None => s
      case Some(path) => s.(side := i, selected := path)
  }

  /** What one diagram sounds like in playback. */
  function Sound(v: Variant, s: State, i: nat): seq<real>
    requires |v.playUp| == 5 && |v.playDown| == 5 && i < |s.diagrams| && i < |s.pitch|
  {
    TransposeAll(v.playUp, v.playDown, Frequencies(s.diagrams[i]), s.pitch[i])
  }

}
