/**
 * What each event of the editor pages does to the diagrams, stated against the
 * reference definitions: the pre-order listing of a diagram (`Entries`), the sound it
 * makes (`Sound`, `Played`), and the selection path.
 */
module EditorBehaviour {
  import opened Opt
  import opened NoteData
  import opened PitchTree
  import opened TreePaths
  import opened TreeRemoval
  import opened Tuning
  import opened Coherence
  import opened Playback
  import opened Editor

  // ---------------------------------------------------------------------------
  // Mute
  // ---------------------------------------------------------------------------

  /** Ctrl+Space twice leaves every diagram as it was. */
  lemma ToggleMuteTwice(s: State)
    ensures ToggleMute(ToggleMute(s)) == s
  {
    match Selected(s)
    case None =>
    case Some(m) =>
      var t := s.diagrams[s.side];
      var t' := Rewrite(t, s.selected, FlipMute);
      RewriteFound(t, s.selected, FlipMute, m);
      var s' := ToggleMute(s);
      assert s'.diagrams[s'.side] == t';
      assert Selected(s').Some?;
      FlipTwice(t, s.selected);
      assert s.diagrams[s.side := t'][s.side := t] == s.diagrams;
  }

  lemma Around<T>(a: seq<T>, x: seq<T>, b: seq<T>)
    ensures multiset(a + x + b) == multiset(a + b) + multiset(x)
  {
  }

  /** A sound with one frequency dropped from between `a` and `b`, and the same sound with it present. */
  lemma DropOne(full: seq<real>, less: seq<real>, a: seq<real>, f: real, b: seq<real>)
    requires full == a + [f] + b && less == a + [] + b
    ensures multiset(full) == multiset(less) + multiset{f}
  {
    Around(a, [f], b);
    assert a + [] + b == a + b;
    assert multiset([f]) == multiset{f};
  }

  /** Flipping the mute flag of the note at `path` drops its frequency from the diagram's sound, or adds it back. */
  lemma FlipSound(t: Node, path: seq<nat>, m: Node)
    requires GetNodeByPath(t, path) == Some(m)
    ensures var t' := Rewrite(t, path, FlipMute);
      && (!m.data.isMuted ==> multiset(Frequencies(t)) == multiset(Frequencies(t')) + multiset{m.data.frequency})
      && (m.data.isMuted ==> multiset(Frequencies(t')) == multiset(Frequencies(t)) + multiset{m.data.frequency})
  {
    var pre, post := MuteFlipsOneEntry(t, path, m);
    var t' := Rewrite(t, path, FlipMute);
    if m.data.isMuted {
      DropOne(Frequencies(t'), Frequencies(t), Audible(pre), m.data.frequency, Audible(post));
    } else {
      DropOne(Frequencies(t), Frequencies(t'), Audible(pre), m.data.frequency, Audible(post));
    }
  }

  /**
   * Ctrl+Space silences the selected note's frequency or brings it back, and touches
   * no other note and no other diagram.
   */
  lemma ToggleMuteSound(s: State, m: Node)
    requires Selected(s) == Some(m)
    ensures var r := ToggleMute(s);
      && r.(diagrams := s.diagrams) == s
      && |r.diagrams| == |s.diagrams|
      && (forall i | 0 <= i < |s.diagrams| && i != s.side :: r.diagrams[i] == s.diagrams[i])
      && (!m.data.isMuted ==>
            multiset(Frequencies(s.diagrams[s.side])) == multiset(Frequencies(r.diagrams[s.side])) + multiset{m.data.frequency})
      && (m.data.isMuted ==>
            multiset(Frequencies(r.diagrams[s.side])) == multiset(Frequencies(s.diagrams[s.side])) + multiset{m.data.frequency})
  {
    var t := s.diagrams[s.side];
    assert ToggleMute(s).diagrams == s.diagrams[s.side := Rewrite(t, s.selected, FlipMute)];
    FlipSound(t, s.selected, m);
  }

  // ---------------------------------------------------------------------------
  // Pitch buttons in pitch mode
  // ---------------------------------------------------------------------------

  /** A pitch button keeps the parallel arrays lined up. */
  lemma PitchButtonShaped(v: Variant, s: State, d: int, isUp: bool)
    requires Shaped(s) && Dimensions(v.table)
    ensures var r := PitchButton(v, s, d, isUp);
      && Shaped(r) && r.side == s.side && r.selected == s.selected && r.isPitch == s.isPitch
      && |r.diagrams| == |s.diagrams|
  {
  }

  /**
   * In pitch mode a pitch button moves the selected diagram by one step: slot
   * `d - 1` of its pitch vector goes up or down by one and no other slot changes;
   * its root line goes up by the offset for an up step and down for a down step;
   * every note moves by the same distance with nothing else about it changed, so
   * no stored frequency changes. The other diagrams and every other field stay.
   */
  lemma PitchMoves(v: Variant, s: State, d: int, isUp: bool)
    requires Shaped(s) && Dimensions(v.table) && s.isPitch && Selected(s).Some? && d in v.table
    ensures var r, k := PitchButton(v, s, d, isUp), s.side;
      var rise := if isUp then -v.table[d].offset else v.table[d].offset;
      && r.(pitch := s.pitch, rootY := s.rootY, diagrams := s.diagrams) == s
      && |r.pitch| == |s.pitch| && |r.rootY| == |s.rootY| && |r.diagrams| == |s.diagrams|
      && (forall i | 0 <= i < |s.diagrams| && i != k ::
            r.pitch[i] == s.pitch[i] && r.rootY[i] == s.rootY[i] && r.diagrams[i] == s.diagrams[i])
      && |r.pitch[k]| == 5
      && r.pitch[k][d - 1] == s.pitch[k][d - 1] + (if isUp then 1 else -1)
      && (forall j | 0 <= j < 5 && j != d - 1 :: r.pitch[k][j] == s.pitch[k][j])
      && r.rootY[k] == s.rootY[k] + rise
      && Entries(r.diagrams[k]) == ShiftEntries(Entries(s.diagrams[k]), rise)
      && Frequencies(r.diagrams[k]) == Frequencies(s.diagrams[k])
  {
    var t, rise := s.diagrams[s.side], Rise(v.table[d], isUp);
    PitchBranch(v, s, d, isUp);
    ShiftEntriesOf(t, rise);
    ShiftFrequencies(t, rise);
  }

  lemma UpdateBack<T>(xs: seq<T>, i: nat, a: T)
    requires i < |xs|
    ensures xs[i := a][i := xs[i]] == xs
  {
  }

  /** Writing diagram `i`'s old pitch vector, root line and notes back restores the state. */
  lemma RestoreSide(s: State, i: nat, p: seq<int>, y: int, t: Node, p0: seq<int>, y0: int, t0: Node)
    requires i < |s.diagrams| && i < |s.rootY| && i < |s.pitch|
    requires p0 == s.pitch[i] && y0 == s.rootY[i] && t0 == s.diagrams[i]
    ensures var s' := s.(pitch := s.pitch[i := p], rootY := s.rootY[i := y], diagrams := s.diagrams[i := t]);
      s'.(pitch := s'.pitch[i := p0], rootY := s'.rootY[i := y0], diagrams := s'.diagrams[i := t0]) == s
  {
    UpdateBack(s.pitch, i, p);
    UpdateBack(s.rootY, i, y);
    UpdateBack(s.diagrams, i, t);
  }

  /** A step of one slot and a step the other way leave a pitch vector as it was. */
  lemma StepBack(p: seq<int>, k: nat, isUp: bool)
    requires k < |p|
    ensures var p' := p[k := p[k] + (if isUp then 1 else -1)];
      p'[k := p'[k] + (if !isUp then 1 else -1)] == p
  {
  }

  /** Moving the selected diagram by a slot step and back again leaves the state as it was. */
  lemma MoveBack(s: State, k: nat, rise: int, back: int, isUp: bool)
    requires s.side < |s.diagrams| && s.side < |s.rootY| && s.side < |s.pitch| && k < |s.pitch[s.side]|
    requires back == -rise
    ensures var i, p := s.side, s.pitch[s.side];
      var s1 := s.(pitch := s.pitch[i := p[k := p[k] + (if isUp then 1 else -1)]],
                   rootY := s.rootY[i := s.rootY[i] + rise],
                   diagrams := s.diagrams[i := Shift(s.diagrams[i], rise)]);
      var j, q := s1.side, s1.pitch[s1.side];
      s1.(pitch := s1.pitch[j := q[k := q[k] + (if !isUp then 1 else -1)]],
          rootY := s1.rootY[j := s1.rootY[j] + back],
          diagrams := s1.diagrams[j := Shift(s1.diagrams[j], back)]) == s
  {
    var i, p, t := s.side, s.pitch[s.side], s.diagrams[s.side];
    var p' := p[k := p[k] + (if isUp then 1 else -1)];
    StepBack(p, k, isUp);
    ShiftInverse(t, rise);
    RestoreSide(s, i, p', s.rootY[i] + rise, Shift(t, rise),
                p'[k := p'[k] + (if !isUp then 1 else -1)], s.rootY[i] + rise + back, Shift(Shift(t, rise), back));
  }

  /** A pitch button does nothing without a selected note or a step for its dimension. */
  lemma PitchIdle(v: Variant, s: State, d: int, isUp: bool)
    requires Shaped(s) && Dimensions(v.table) && (Selected(s).None? || d !in v.table)
    ensures PitchButton(v, s, d, isUp) == s
  {
  }

  /** The opposite button undoes a pitch-mode move of the selected diagram. */
  lemma MovedUndo(v: Variant, s: State, d: int, isUp: bool)
    requires Shaped(s) && Dimensions(v.table) && s.isPitch && Selected(s).Some? && d in v.table
    ensures PitchButton(v, PitchButton(v, s, d, isUp), d, !isUp) == s
  {
    var t := s.diagrams[s.side];
    var rise := Rise(v.table[d], isUp);
    PitchButtonShaped(v, s, d, isUp);
    PitchBranch(v, s, d, isUp);
    var s1 := PitchButton(v, s, d, isUp);
    assert s1.diagrams[s1.side] == Shift(t, rise);
    ShiftPath(t, s.selected, rise);
    PitchBranch(v, s1, d, !isUp);
    MoveBack(s, d - 1, rise, Rise(v.table[d], !isUp), isUp);
  }

  /** In pitch mode the opposite button undoes a pitch button. */
  lemma PitchUndo(v: Variant, s: State, d: int, isUp: bool)
    requires Shaped(s) && Dimensions(v.table) && s.isPitch
    ensures Shaped(PitchButton(v, s, d, isUp))
    ensures PitchButton(v, PitchButton(v, s, d, isUp), d, !isUp) == s
  {
    PitchButtonShaped(v, s, d, isUp);
    if Selected(s).Some? && d in v.table {
      MovedUndo(v, s, d, isUp);
    } else {
      PitchIdle(v, s, d, isUp);
      PitchIdle(v, s, d, !isUp);
    }
  }

  /** The playback ratios of slot `d - 1` are dimension `d`'s step, and they multiply to 1. */
  lemma SlotRatios(v: Variant, d: int)
    requires VariantOk(v) && d in v.table
    ensures 1 <= d - 1 <= 4
    ensures v.playUp[d - 1] == v.table[d].up && v.playDown[d - 1] == v.table[d].down
    ensures v.playUp[d - 1] * v.playDown[d - 1] == 1.0
  {
    assert d in {2, 3, 4, 5};
  }

  /** One step of slot `d - 1` scales a whole diagram's playback by dimension `d`'s ratio. */
  lemma TransposeStep(v: Variant, fs: seq<real>, p: seq<int>, d: int, isUp: bool)
    requires VariantOk(v) && d in v.table && |p| == 5
    ensures TransposeAll(v.playUp, v.playDown, fs, p[d - 1 := p[d - 1] + (if isUp then 1 else -1)])
         == Scaled(TransposeAll(v.playUp, v.playDown, fs, p), Ratio(v.table[d], isUp))
  {
    SlotRatios(v, d);
    var up, down, k := v.playUp, v.playDown, d - 1;
    var u := Ratio(v.table[d], isUp);
    if isUp {
      TransposeRaise(up, down, p, k, u);
      TransposeAllScaled(up, down, fs, p, p[k := p[k] + 1], u);
    } else {
      TransposeLower(up, down, p, k, u);
      TransposeAllScaled(up, down, fs, p, p[k := p[k] - 1], u);
    }
  }

  /**
   * In pitch mode a pitch button of dimension `d` transposes the selected diagram:
   * every note it plays is multiplied by the step's ratio, in the same order, and
   * no other diagram's sound changes.
   */
  lemma PitchStepTransposes(v: Variant, s: State, d: int, isUp: bool)
    requires VariantOk(v) && Shaped(s) && s.isPitch && d in v.table && Selected(s).Some?
    ensures Shaped(PitchButton(v, s, d, isUp))
    ensures var r := PitchButton(v, s, d, isUp);
      && (forall i | 0 <= i < |s.diagrams| && i != s.side :: Sound(v, r, i) == Sound(v, s, i))
      && Sound(v, r, s.side) == Scaled(Sound(v, s, s.side), Ratio(v.table[d], isUp))
  {
    PitchButtonShaped(v, s, d, isUp);
    PitchBranch(v, s, d, isUp);
    var t := s.diagrams[s.side];
    var rise := Rise(v.table[d], isUp);
    ShiftFrequencies(t, rise);
    TransposeStep(v, Frequencies(t), s.pitch[s.side], d, isUp);
  }

  // ---------------------------------------------------------------------------
  // Pitch buttons in note mode
  // ---------------------------------------------------------------------------

  /**
   * In add-note mode a pitch button adds one note under the selected one: the
   * selected diagram's listing gains the new note right after the selected note's
   * subtree, the counter advances by one, and every other field, the other
   * diagrams included, stays as it was.
   */
  lemma NoteAdds(v: Variant, s: State, d: int, isUp: bool) returns (pre: seq<Entry>, post: seq<Entry>)
    requires Shaped(s) && Dimensions(v.table) && !s.isPitch && Selected(s).Some? && d in v.table
    ensures var r, k, m := PitchButton(v, s, d, isUp), s.side, Selected(s).value;
      var c := AddedNote(v.table, s.nextId, m, d, isUp);
      && r.(diagrams := s.diagrams, nextId := s.nextId) == s
      && r.nextId == s.nextId + 1
      && |r.diagrams| == |s.diagrams|
      && (forall i | 0 <= i < |s.diagrams| && i != k :: r.diagrams[i] == s.diagrams[i])
      && Entries(s.diagrams[k]) == pre + Entries(m) + post
      && Entries(r.diagrams[k]) == pre + Entries(m) + [Label(c)] + post
  {
    var t, m := s.diagrams[s.side], Selected(s).value;
    var c := AddedNote(v.table, s.nextId, m, d, isUp);
    NoteBranch(v, s, d, isUp);
    pre, post := AppendInsertsBlock(t, s.selected, m, c);
    assert Entries(c) == [Label(c)];
  }

  /** Every child of a node in a diagram below `next` has an id below `next`. */
  lemma ChildrenBelow(m: Node, t: Node, next: nat)
    requires IsSubtree(m, t) && Below(t, next)
    ensures forall j | 0 <= j < |m.children| :: m.children[j].id < next
  {
    SubtreeIdsInside(m, t);
    forall j | 0 <= j < |m.children|
      ensures m.children[j].id < next
    {
      ChildIdsInside(m, j);
    }
  }

  /** Appending `c` under the note at `path` adds `c`'s frequencies to the diagram's sound. */
  lemma AppendSound(t: Node, path: seq<nat>, m: Node, c: Node)
    requires GetNodeByPath(t, path) == Some(m)
    ensures multiset(Frequencies(Rewrite(t, path, Append(c)))) == multiset(Frequencies(t)) + multiset(Frequencies(c))
  {
    var pre, post := AppendInsertsBlock(t, path, m, c);
    var a, fm, b := Audible(pre), Frequencies(m), Audible(post);
    FrequenciesPreorder(t);
    FrequenciesPreorder(m);
    AudibleAppend(pre + Entries(m), post);
    AudibleAppend(pre, Entries(m));
    assert Frequencies(t) == a + fm + b;
    Around(a + fm, Frequencies(c), b);
  }

  /** A child appended under the note at `path` with an id none of its siblings has is reached by extending `path` with that id. */
  lemma AppendReachable(t: Node, path: seq<nat>, m: Node, c: Node)
    requires GetNodeByPath(t, path) == Some(m)
    requires forall j | 0 <= j < |m.children| :: m.children[j].id != c.id
    ensures GetNodeByPath(Rewrite(t, path, Append(c)), path + [c.id]) == Some(c)
  {
    var t' := Rewrite(t, path, Append(c));
    RewriteFound(t, path, Append(c), m);
    var m' := AddChild(m, c);
    PathExtend(t', path, c.id, m');
    var found := FindChild(m'.children, c.id);
    assert m'.children[|m.children|].id == c.id;
    assert found.Some? && found.value == |m.children|;
  }

  /**
   * Outside pitch mode a pitch button adds one new note: it hangs below the selected
   * note, reached by extending the selection with the new id; the diagram plays
   * the same notes plus the new one; the other diagrams are untouched.
   */
  lemma AddNoteEffect(v: Variant, s: State, d: int, isUp: bool, m: Node)
    requires Valid(v, s) && !s.isPitch && d in v.table && Selected(s) == Some(m)
    ensures var r := PitchButton(v, s, d, isUp);
      var c := AddedNote(v.table, s.nextId, m, d, isUp);
      && r.(diagrams := s.diagrams, nextId := s.nextId) == s
      && r.nextId == s.nextId + 1 && r.selected == s.selected && r.side == s.side
      && |r.diagrams| == |s.diagrams|
      && (forall i | 0 <= i < |s.diagrams| && i != s.side :: r.diagrams[i] == s.diagrams[i])
      && GetNodeByPath(r.diagrams[s.side], s.selected + [s.nextId]) == Some(c)
      && multiset(Frequencies(r.diagrams[s.side])) == multiset(Frequencies(s.diagrams[s.side])) + multiset{c.data.frequency}
  {
    var t := s.diagrams[s.side];
    var c := AddedNote(v.table, s.nextId, m, d, isUp);
    var r := PitchButton(v, s, d, isUp);
    assert r.diagrams == s.diagrams[s.side := Rewrite(t, s.selected, Append(c))];
    assert Below(t, s.nextId);
    ChildrenBelow(m, t, s.nextId);
    AppendReachable(t, s.selected, m, c);
    AppendSound(t, s.selected, m, c);
    assert Frequencies(c) == [c.data.frequency];
  }

  // ---------------------------------------------------------------------------
  // Delete
  // ---------------------------------------------------------------------------

  /** Delete on the root is refused: in the error banner on the editor page, as an alert elsewhere. */
  lemma DeleteRootRefused(v: Variant, s: State)
    requires Valid(v, s) && Selected(s) == Some(s.diagrams[s.side])
    ensures v.bannerErrors ==> Delete(v, s) == (s.(error := Some(RootRefusal)), None)
    ensures !v.bannerErrors ==> Delete(v, s) == (s, Some(RootRefusal))
  {
  }

  /** Removing a note below the root takes exactly its subtree's frequencies out of the diagram's sound. */
  lemma RemoveSound(t: Node, m: Node)
    requires UniqueIds(t) && IsSubtree(m, t) && m != t
    ensures multiset(Frequencies(t)) == multiset(Frequencies(RemoveNode(t, m.id).1)) + multiset(Frequencies(m))
  {
    RemoveExact(t, m);
    var t' := RemoveNode(t, m.id).1;
    var pre, n, post := RemoveNodeBlock(t, m.id);
    IdsIdentifyNodes(t, n, m);
    var a, fm, b := Audible(pre), Frequencies(m), Audible(post);
    FrequenciesPreorder(t);
    FrequenciesPreorder(m);
    FrequenciesPreorder(t');
    AudibleAppend(pre + Entries(m), post);
    AudibleAppend(pre, Entries(m));
    AudibleAppend(pre, post);
    assert Frequencies(t) == a + fm + b;
    assert Frequencies(t') == a + b;
    Around(a, fm, b);
  }

  /**
   * Delete on any other note removes exactly that note's subtree: its ids, its
   * frequencies, nothing else; the root becomes the selection.
   */
  lemma DeleteEffect(v: Variant, s: State, m: Node)
    requires Valid(v, s) && Selected(s) == Some(m) && m != s.diagrams[s.side]
    ensures var (r, alert) := Delete(v, s);
      var t := s.diagrams[s.side];
      && alert == None
      && r.(diagrams := s.diagrams, selected := s.selected) == s
      && r.error == s.error && r.side == s.side
      && |r.diagrams| == |s.diagrams|
      && (forall i | 0 <= i < |s.diagrams| && i != s.side :: r.diagrams[i] == s.diagrams[i])
      && r.selected == [t.id]
      && IdSet(r.diagrams[s.side]) == IdSet(t) - IdSet(m)
      && multiset(Frequencies(t)) == multiset(Frequencies(r.diagrams[s.side])) + multiset(Frequencies(m))
  {
    var t := s.diagrams[s.side];
    assert Laid(v, s.side, t, s.rootX[s.side], s.rootY[s.side], s.pitch[s.side], s.rootFrequency);
    RemoveExact(t, m);
    RemoveSound(t, m);
    var t' := RemoveNode(t, m.id).1;
    assert Delete(v, s) == (s.(diagrams := s.diagrams[s.side := t'], selected := [t'.id]), None);
  }

  // ---------------------------------------------------------------------------
  // Click
  // ---------------------------------------------------------------------------

  /** The diagram scan finds the leftmost diagram whose pre-order listing has a note under the point, and that note. */
  lemma FirstDiagramHitIsFirst(ds: seq<Node>, px: real, py: real, k: nat)
    requires k <= |ds|
    ensures (forall i | k <= i < |ds| :: FirstHitEntry(Entries(ds[i]), px, py).None?) ==> FirstDiagramHit(ds, px, py, k).None?
    ensures forall i | k <= i < |ds| && FirstHitEntry(Entries(ds[i]), px, py).Some?
                       && (forall j | k <= j < i :: FirstHitEntry(Entries(ds[j]), px, py).None?) ::
              && FirstDiagramHit(ds, px, py, k).Some? && FirstDiagramHit(ds, px, py, k).value.0 == i
              && LabelOf(Some(FirstDiagramHit(ds, px, py, k).value.1)) == FirstHitEntry(Entries(ds[i]), px, py)
  {
    forall i | k <= i < |ds|
      ensures LabelOf(SearchCoordinate(ds[i], px, py)) == FirstHitEntry(Entries(ds[i]), px, py)
    {
      SearchIsFirstHit(ds[i], px, py);
    }
  }

  /**
   * A click selects, in the leftmost diagram that has a note under the point, the
   * first such note in that diagram's pre-order listing; a click that hits nothing
   * changes nothing.
   */
  lemma ClickSelectsFirstHit(v: Variant, s: State, px: real, py: real)
    requires Valid(v, s)
    ensures (forall i | 0 <= i < |s.diagrams| :: FirstHitEntry(Entries(s.diagrams[i]), px, py).None?) ==> Click(s, px, py) == s
    ensures forall i | 0 <= i < |s.diagrams| && FirstHitEntry(Entries(s.diagrams[i]), px, py).Some?
                       && (forall j | 0 <= j < i :: FirstHitEntry(Entries(s.diagrams[j]), px, py).None?) ::
              && Click(s, px, py).side == i
              && LabelOf(GetNodeByPath(s.diagrams[i], Click(s, px, py).selected)) == FirstHitEntry(Entries(s.diagrams[i]), px, py)
  {
    FirstDiagramHitIsFirst(s.diagrams, px, py, 0);
    ClickPicks(v, s, px, py);
  }

  /** A click selects the diagram and note the scan finds, by a path that leads back to that note. */
  lemma ClickPicks(v: Variant, s: State, px: real, py: real)
    requires Valid(v, s)
    ensures match FirstDiagramHit(s.diagrams, px, py, 0)
      case None => Click(s, px, py) == s
      case Some((i, n)) => Click(s, px, py).side == i && GetNodeByPath(s.diagrams[i], Click(s, px, py).selected) == Some(n)
  {
    var ds := s.diagrams;
    match FirstDiagramHit(ds, px, py, 0)
    case None =>
    case Some((i, n)) =>
      assert Laid(v, i, ds[i], s.rootX[i], s.rootY[i], s.pitch[i], s.rootFrequency);
      PathRoundTrip(ds[i], n);
  }

  // ---------------------------------------------------------------------------
  // Playback
  // ---------------------------------------------------------------------------

  /** A valid editor never hands a non-positive frequency to an oscillator. */
  lemma PlaybackPositive(v: Variant, s: State)
    requires Valid(v, s)
    ensures forall f | f in Played(v.playUp, v.playDown, s.diagrams, s.pitch) :: f > 0.0
  {
    forall k | 1 <= k <= 4
      ensures v.playUp[k] > 0.0 && v.playDown[k] > 0.0
    {
      SlotRatios(v, k + 1);
      RatioPositive(v.table, k + 1, true);
      RatioPositive(v.table, k + 1, false);
    }
    forall i, f | 0 <= i < |s.diagrams| && f in Frequencies(s.diagrams[i])
      ensures f > 0.0
    {
      var t := s.diagrams[i];
      assert Laid(v, i, t, s.rootX[i], s.rootY[i], s.pitch[i], s.rootFrequency);
      FrequenciesPreorder(t);
      CoherentPositive(v.table, t);
      var es := Entries(t);
      var q :| 0 <= q < |es| && !es[q].data.isMuted && es[q].data.frequency == f;
      assert es[q] in es;
    }
    PlayedPositive(v.playUp, v.playDown, s.diagrams, s.pitch, |s.diagrams|);
  }

}
