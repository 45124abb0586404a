/**
 * Every event handler of the editor keeps `Valid`: the diagrams stay in their
 * columns with their roots where the pitch vectors put them, every note stays one
 * step from its parent, ids stay unique within and across diagrams and below the
 * counter, and the selection keeps resolving to a note.
 */
module EditorInvariant {
  import opened Opt
  import opened NoteData
  import opened PitchTree
  import opened TreePaths
  import opened TreeRemoval
  import opened Tuning
  import opened Coherence
  import opened Playback
  import opened Editor

  /** A fresh root is a diagram of its own: coherent, unique, and holding only its own id. */
  lemma NewRootFacts(next: nat, x: int, f: real)
    ensures var (root, next') := NewRoot(next, x, f);
      && root.id == next && next' == next + 1 && root.children == []
      && root.x == x + Inset && root.y == Baseline && root.data == Data(0, true, false, f)
      && IdSet(root) == {next} && UniqueIds(root) && Frequencies(root) == [f]
  {
  }

  /** The state after mounting satisfies the invariant and plays the root frequency alone. */
  lemma InitValid(v: Variant, f: real, next: nat)
    requires VariantOk(v) && f > 0.0
    ensures Valid(v, Init(v, f, next))
    ensures Played(v.playUp, v.playDown, Init(v, f, next).diagrams, Init(v, f, next).pitch) == [f]
  {
    NewRootFacts(next, v.firstRootX, f);
    var s := Init(v, f, next);
    TransposeAtRest(v.playUp, v.playDown, f);
    assert Sound(v, s, 0) == [f];
    assert PlayedUpTo(v.playUp, v.playDown, s.diagrams, s.pitch, 0) == [];
    assert PlayedUpTo(v.playUp, v.playDown, s.diagrams, s.pitch, 1) == [] + Sound(v, s, 0);
  }

  /**
   * The three pages mount with one diagram whose root is selected, in pitch mode:
   * the editor page and the landing page at left edge 30 with the root at X 60, the
   * glass page at left edge 250 with the root at X 280; all on line 1000 with a zero
   * pitch vector.
   */
  lemma InitLayout(f: real, next: nat)
    ensures var s := Init(EditorPage, f, next);
      && s.rootX == [30] && s.rootY == [1000] && s.pitch == [[0, 0, 0, 0, 0]] && s.isPitch && s.side == 0
      && s.diagrams[0].x == 60 && s.diagrams[0].y == 1000 && s.diagrams[0].children == []
      && GetNodeByPath(s.diagrams[0], s.selected) == Some(s.diagrams[0])
    ensures var s := Init(GlassPage, f, next);
      && s.rootX == [250] && s.rootY == [1000] && s.pitch == [[0, 0, 0, 0, 0]] && s.isPitch && s.side == 0
      && s.diagrams[0].x == 280 && s.diagrams[0].y == 1000 && s.diagrams[0].children == []
      && GetNodeByPath(s.diagrams[0], s.selected) == Some(s.diagrams[0])
    ensures var s := Init(LandingPage, f, next);
      && s.rootX == [30] && s.diagrams[0].x == 60 && s.diagrams[0].y == 1000 && s.pitch == [[0, 0, 0, 0, 0]]
  {
  }

  /**
   * Ctrl+ArrowRight grows each of the four parallel arrays by exactly one element
   * and keeps the earlier ones: the new diagram's left edge is 233 right of the
   * last one, its root line is 1000, its pitch vector is zero, and its root is a
   * fresh unmuted dimension-0 note at the left edge plus 30 on that line, sounding
   * the root frequency. The counter advances by one; nothing else changes.
   */
  lemma AddDiagramEffect(s: State)
    requires |s.rootX| > 0
    ensures var r, n := AddDiagram(s), |s.diagrams|;
      var x := s.rootX[|s.rootX| - 1] + 233;
      && r.(diagrams := s.diagrams, rootX := s.rootX, rootY := s.rootY, pitch := s.pitch, nextId := s.nextId) == s
      && |r.diagrams| == n + 1 && r.diagrams[..n] == s.diagrams
      && r.rootX == s.rootX + [x] && r.rootY == s.rootY + [1000] && r.pitch == s.pitch + [[0, 0, 0, 0, 0]]
      && r.diagrams[n].id == s.nextId && r.nextId == s.nextId + 1
      && r.diagrams[n].x == x + 30 && r.diagrams[n].y == 1000 && r.diagrams[n].children == []
      && r.diagrams[n].data == Data(0, true, false, s.rootFrequency)
  {
    var r := AddDiagram(s);
    assert r.diagrams == s.diagrams + [r.diagrams[|s.diagrams|]];
  }

  /** A new diagram keeps the invariant. */
  lemma AddDiagramValid(v: Variant, s: State)
    requires Valid(v, s)
    ensures Valid(v, AddDiagram(s))
  {
    var n := |s.diagrams|;
    NewRootFacts(s.nextId, s.rootX[n - 1] + Spacing, s.rootFrequency);
    var r := AddDiagram(s);
    AddDiagramLaid(v, s);
    AddDiagramIds(v, s);
    assert r.diagrams[r.side] == s.diagrams[s.side];
  }

  lemma AddDiagramLaid(v: Variant, s: State)
    requires Valid(v, s)
    ensures var r := AddDiagram(s);
      forall i | 0 <= i < |r.diagrams| :: Laid(v, i, r.diagrams[i], r.rootX[i], r.rootY[i], r.pitch[i], r.rootFrequency)
  {
    var n := |s.diagrams|;
    NewRootFacts(s.nextId, s.rootX[n - 1] + Spacing, s.rootFrequency);
    var r := AddDiagram(s);
    assert Laid(v, n - 1, s.diagrams[n - 1], s.rootX[n - 1], s.rootY[n - 1], s.pitch[n - 1], s.rootFrequency);
    forall i | 0 <= i <= n
      ensures Laid(v, i, r.diagrams[i], r.rootX[i], r.rootY[i], r.pitch[i], r.rootFrequency)
    {
      if i < n {
        assert r.diagrams[i] == s.diagrams[i] && r.rootX[i] == s.rootX[i];
        assert r.rootY[i] == s.rootY[i] && r.pitch[i] == s.pitch[i];
        assert Laid(v, i, s.diagrams[i], s.rootX[i], s.rootY[i], s.pitch[i], s.rootFrequency);
      }
    }
  }

  lemma AddDiagramIds(v: Variant, s: State)
    requires Valid(v, s)
    ensures var r := AddDiagram(s);
      && (forall i, j | 0 <= i < j < |r.diagrams| :: IdSet(r.diagrams[i]) !! IdSet(r.diagrams[j]))
      && (forall i | 0 <= i < |r.diagrams| :: Below(r.diagrams[i], r.nextId))
  {
    var n := |s.diagrams|;
    NewRootFacts(s.nextId, s.rootX[n - 1] + Spacing, s.rootFrequency);
    var r := AddDiagram(s);
    var root := r.diagrams[n];
    forall i | 0 <= i < n
      ensures r.diagrams[i] == s.diagrams[i] && IdSet(r.diagrams[i]) !! IdSet(root)
    {
      assert Below(s.diagrams[i], s.nextId);
    }
    forall i | 0 <= i <= n
      ensures Below(r.diagrams[i], r.nextId)
    {
      if i < n {
        assert Below(s.diagrams[i], s.nextId);
      }
    }
  }

  /** A new diagram plays its root frequency, untransposed, after everything else. */
  lemma AddDiagramPlays(v: Variant, s: State)
    requires Valid(v, s)
    ensures Played(v.playUp, v.playDown, AddDiagram(s).diagrams, AddDiagram(s).pitch)
         == Played(v.playUp, v.playDown, s.diagrams, s.pitch) + [s.rootFrequency]
  {
    var n := |s.diagrams|;
    NewRootFacts(s.nextId, s.rootX[n - 1] + Spacing, s.rootFrequency);
    var root := AddDiagram(s).diagrams[n];
    PlayedAppend(v.playUp, v.playDown, s.diagrams, s.pitch, root, [0, 0, 0, 0, 0]);
    TransposeAtRest(v.playUp, v.playDown, s.rootFrequency);
    assert TransposeAll(v.playUp, v.playDown, Frequencies(root), [0, 0, 0, 0, 0]) == [s.rootFrequency];
  }

  lemma ToggleModeValid(v: Variant, s: State)
    requires Valid(v, s)
    ensures Valid(v, ToggleMode(s))
    ensures ToggleMode(s).isPitch == !s.isPitch && ToggleMode(s).(isPitch := s.isPitch) == s
  {
  }

  lemma DismissErrorValid(v: Variant, s: State)
    requires Valid(v, s)
    ensures Valid(v, DismissError(s)) && DismissError(s).error.None?
    ensures DismissError(s).(error := s.error) == s
  {
  }

  /**
   * One diagram replaced by `t'` that keeps its root's place, stays coherent and
   * unique, and holds the old ids plus fresh ones below the new counter: the
   * invariant survives when the selection resolves in `t'`.
   */
  lemma ReplaceSideValid(v: Variant, s: State, t': Node, extra: set<nat>, next: nat, selected: seq<nat>)
    requires Valid(v, s) && next >= s.nextId
    requires var t := s.diagrams[s.side];
      && t'.x == t.x && t'.y == t.y && t'.data.dimension == t.data.dimension
      && t'.data.isUp == t.data.isUp && t'.data.frequency == t.data.frequency
    requires Coherent(v.table, t') && UniqueIds(t')
    requires IdSet(t') <= IdSet(s.diagrams[s.side]) + extra
    requires forall k | k in extra :: s.nextId <= k < next
    requires GetNodeByPath(t', selected).Some?
    ensures Valid(v, s.(diagrams := s.diagrams[s.side := t'], nextId := next, selected := selected))
  {
    var r := s.(diagrams := s.diagrams[s.side := t'], nextId := next, selected := selected);
    var ds := s.diagrams;
    forall i | 0 <= i < |ds|
      ensures Laid(v, i, r.diagrams[i], r.rootX[i], r.rootY[i], r.pitch[i], r.rootFrequency)
      ensures Below(r.diagrams[i], next)
    {
      assert Laid(v, i, ds[i], s.rootX[i], s.rootY[i], s.pitch[i], s.rootFrequency);
      assert Below(ds[i], s.nextId);
    }
    forall i, j | 0 <= i < j < |ds|
      ensures IdSet(r.diagrams[i]) !! IdSet(r.diagrams[j])
    {
      assert IdSet(ds[i]) !! IdSet(ds[j]);
      assert Below(ds[i], s.nextId) && Below(ds[j], s.nextId);
    }
  }

  /** Muting or unmuting keeps the invariant. */
  lemma ToggleMuteValid(v: Variant, s: State)
    requires Valid(v, s)
    ensures Valid(v, ToggleMute(s))
  {
    var m := Selected(s).value;
    var t := s.diagrams[s.side];
    assert Laid(v, s.side, t, s.rootX[s.side], s.rootY[s.side], s.pitch[s.side], s.rootFrequency);
    var t' := Rewrite(t, s.selected, FlipMute);
    SubtreeUnique(m, t);
    SubtreeCoherent(v.table, m, t);
    FlipCoherent(v.table, m);
    RewriteCoherent(v.table, t, s.selected, FlipMute, m);
    RewriteKeeps(t, s.selected, FlipMute, m);
    RewriteFound(t, s.selected, FlipMute, m);
    ReplaceSideValid(v, s, t', {}, s.nextId, s.selected);
    assert ToggleMute(s) == s.(diagrams := s.diagrams[s.side := t'], nextId := s.nextId, selected := s.selected);
  }

  /** A step in pitch mode keeps the root line where the changed pitch vector puts it. */
  lemma LiftStep(tbl: Table, p: seq<int>, d: int, isUp: bool)
    requires |p| == 5 && Dimensions(tbl) && d in tbl
    ensures Lift(tbl, p[d - 1 := p[d - 1] + (if isUp then 1 else -1)]) == Lift(tbl, p) - Rise(tbl[d], isUp)
  {
    var o := tbl[d].offset;
    assert (p[d - 1] + 1) * o == p[d - 1] * o + o;
    assert (p[d - 1] - 1) * o == p[d - 1] * o - o;
  }

  /** Moving the selected diagram to a new place that still fits its column keeps the invariant. */
  lemma MoveSideValid(v: Variant, s: State, t': Node, y': int, p': seq<int>)
    requires Valid(v, s)
    requires Laid(v, s.side, t', s.rootX[s.side], y', p', s.rootFrequency)
    requires IdSet(t') == IdSet(s.diagrams[s.side]) && GetNodeByPath(t', s.selected).Some?
    ensures Valid(v, s.(pitch := s.pitch[s.side := p'], rootY := s.rootY[s.side := y'], diagrams := s.diagrams[s.side := t']))
  {
    var r := s.(pitch := s.pitch[s.side := p'], rootY := s.rootY[s.side := y'], diagrams := s.diagrams[s.side := t']);
    var ds := s.diagrams;
    forall i | 0 <= i < |ds|
      ensures Laid(v, i, r.diagrams[i], r.rootX[i], r.rootY[i], r.pitch[i], r.rootFrequency)
      ensures Below(r.diagrams[i], r.nextId)
    {
      assert Laid(v, i, ds[i], s.rootX[i], s.rootY[i], s.pitch[i], s.rootFrequency);
      assert Below(ds[i], s.nextId);
    }
    forall i, j | 0 <= i < j < |ds|
      ensures IdSet(r.diagrams[i]) !! IdSet(r.diagrams[j])
    {
      assert IdSet(ds[i]) !! IdSet(ds[j]);
    }
  }

  /** A whole diagram moved by one step, with its pitch slot and root line, still fits its column. */
  lemma ShiftLaid(v: Variant, i: int, t: Node, x: int, y: int, p: seq<int>, f: real, d: int, isUp: bool)
    requires Laid(v, i, t, x, y, p, f) && Dimensions(v.table) && d in v.table
    ensures var rise := Rise(v.table[d], isUp);
      Laid(v, i, Shift(t, rise), x, y + rise, p[d - 1 := p[d - 1] + (if isUp then 1 else -1)], f)
  {
    var rise := Rise(v.table[d], isUp);
    LiftStep(v.table, p, d, isUp);
    ShiftCoherent(v.table, t, rise);
    ShiftIds(t, rise);
  }

  /** The selected diagram after a pitch-mode step fits its column, keeps its ids and still holds the selected path. */
  lemma ShiftedSide(v: Variant, s: State, d: int, isUp: bool)
    requires Valid(v, s) && d in v.table
    ensures var k, rise := s.side, Rise(v.table[d], isUp);
      var t', p := Shift(s.diagrams[k], rise), s.pitch[k];
      && Laid(v, k, t', s.rootX[k], s.rootY[k] + rise, p[d - 1 := p[d - 1] + (if isUp then 1 else -1)], s.rootFrequency)
      && IdSet(t') == IdSet(s.diagrams[k]) && GetNodeByPath(t', s.selected).Some?
  {
    var k := s.side;
    var t := s.diagrams[k];
    var rise := Rise(v.table[d], isUp);
    assert Laid(v, k, t, s.rootX[k], s.rootY[k], s.pitch[k], s.rootFrequency);
    ShiftLaid(v, k, t, s.rootX[k], s.rootY[k], s.pitch[k], s.rootFrequency, d, isUp);
    ShiftIds(t, rise);
    ShiftPath(t, s.selected, rise);
  }

  /** A pitch-mode step keeps the invariant. */
  lemma PitchStepValid(v: Variant, s: State, d: int, isUp: bool)
    requires Valid(v, s) && s.isPitch && d in v.table
    ensures Valid(v, PitchButton(v, s, d, isUp))
  {
    var k := s.side;
    var rise := Rise(v.table[d], isUp);
    var p := s.pitch[k];
    ShiftedSide(v, s, d, isUp);
    MoveSideValid(v, s, Shift(s.diagrams[k], rise), s.rootY[k] + rise, p[d - 1 := p[d - 1] + (if isUp then 1 else -1)]);
    PitchBranch(v, s, d, isUp);
  }

  /** The selected diagram after a note is added under the selected one: in place, coherent, unique, one new id. */
  lemma AddedSide(v: Variant, s: State, d: int, isUp: bool)
    requires Valid(v, s) && d in v.table
    ensures var t := s.diagrams[s.side];
      var t' := Rewrite(t, s.selected, Append(AddedNote(v.table, s.nextId, Selected(s).value, d, isUp)));
      && t'.x == t.x && t'.y == t.y && t'.data.dimension == t.data.dimension
      && t'.data.isUp == t.data.isUp && t'.data.frequency == t.data.frequency
      && Coherent(v.table, t') && UniqueIds(t')
      && IdSet(t') <= IdSet(t) + {s.nextId}
      && GetNodeByPath(t', s.selected).Some?
  {
    var m := Selected(s).value;
    var t := s.diagrams[s.side];
    var c := AddedNote(v.table, s.nextId, m, d, isUp);
    assert Laid(v, s.side, t, s.rootX[s.side], s.rootY[s.side], s.pitch[s.side], s.rootFrequency);
    assert Below(t, s.nextId);
    SubtreeUnique(m, t);
    SubtreeCoherent(v.table, m, t);
    SubtreeIdsInside(m, t);
    assert IdSet(c) == {s.nextId};
    AppendUnique(m, c);
    AppendCoherent(v.table, m, c);
    RewriteCoherent(v.table, t, s.selected, Append(c), m);
    RewriteKeeps(t, s.selected, Append(c), m);
    RewriteFound(t, s.selected, Append(c), m);
  }

  /** Adding a note keeps the invariant. */
  lemma AddNoteValid(v: Variant, s: State, d: int, isUp: bool)
    requires Valid(v, s) && !s.isPitch && d in v.table
    ensures Valid(v, PitchButton(v, s, d, isUp))
  {
    var t' := Rewrite(s.diagrams[s.side], s.selected, Append(AddedNote(v.table, s.nextId, Selected(s).value, d, isUp)));
    AddedSide(v, s, d, isUp);
    ReplaceSideValid(v, s, t', {s.nextId}, s.nextId + 1, s.selected);
    NoteBranch(v, s, d, isUp);
  }

  lemma PitchButtonValid(v: Variant, s: State, d: int, isUp: bool)
    requires Valid(v, s)
    ensures Valid(v, PitchButton(v, s, d, isUp))
  {
    if d in v.table {
      if s.isPitch {
        PitchStepValid(v, s, d, isUp);
      } else {
        AddNoteValid(v, s, d, isUp);
      }
    }
  }

  /** Deleting (or refusing to) keeps the invariant. */
  lemma DeleteValid(v: Variant, s: State)
    requires Valid(v, s)
    ensures Valid(v, Delete(v, s).0)
  {
    var m := Selected(s).value;
    var t := s.diagrams[s.side];
    if RemoveNode(t, m.id).0 {
      assert Laid(v, s.side, t, s.rootX[s.side], s.rootY[s.side], s.pitch[s.side], s.rootFrequency);
      var t' := RemoveNode(t, m.id).1;
      assert m != t;
      RemoveExact(t, m);
      RemoveCoherent(v.table, t, m.id);
      ReplaceSideValid(v, s, t', {}, s.nextId, [t'.id]);
      assert Delete(v, s).0 == s.(diagrams := s.diagrams[s.side := t'], nextId := s.nextId, selected := [t'.id]);
    }
  }

  /** Selecting by a click keeps the invariant. */
  lemma ClickValid(v: Variant, s: State, px: real, py: real)
    requires Valid(v, s)
    ensures Valid(v, Click(s, px, py))
  {
    match FirstDiagramHit(s.diagrams, px, py, 0)
    case None =>
    case Some((i, n)) =>
      assert Laid(v, i, s.diagrams[i], s.rootX[i], s.rootY[i], s.pitch[i], s.rootFrequency);
      PathRoundTrip(s.diagrams[i], n);
  }

}
