/**
 * The rule every chord diagram of the editor keeps: a note added under another
 * sits in the same column, one step's distance above or below it, and sounds at the
 * parent's frequency times that step's ratio (src/app/editor/page.tsx, the add-note
 * branch of `handlePitchButtonClick`). Translations, mute flips, additions and
 * removals all keep it.
 */
module Coherence {
  import opened Opt
  import opened NoteData
  import opened PitchTree
  import opened TreePaths
  import opened TreeRemoval
  import opened Tuning

  /** `c` is what a pitch button of dimension `c.data.dimension` adds under `p`. */
  predicate StepFrom(tbl: Table, p: Node, c: Node)
  {
    && c.data.dimension in tbl
    && c.x == p.x
    && c.y == p.y + Rise(tbl[c.data.dimension], c.data.isUp)
    && c.data.frequency == p.data.frequency * Ratio(tbl[c.data.dimension], c.data.isUp)
  }

  /** Every child is one step from its parent, all the way down. */
  predicate Coherent(tbl: Table, n: Node)
  {
    forall i | 0 <= i < |n.children| :: StepFrom(tbl, n, n.children[i]) && Coherent(tbl, n.children[i])
  }

  /** A list of coherent subtrees, each one step from `p`. */
  predicate CoherentUnder(tbl: Table, p: Node, cs: seq<Node>)
  {
    forall i | 0 <= i < |cs| :: StepFrom(tbl, p, cs[i]) && Coherent(tbl, cs[i])
  }

  /** What `StepFrom` reads of a node: its coordinate and the step it was added by. */
  function Place(n: Node): (int, int, int, bool, real)
  {
    (n.x, n.y, n.data.dimension, n.data.isUp, n.data.frequency)
  }

  // ---------------------------------------------------------------------------
  // Edits of the selected node
  // ---------------------------------------------------------------------------

  /** Every node of a coherent diagram heads a coherent subtree. */
  lemma {:induction false} SubtreeCoherent(tbl: Table, n: Node, t: Node)
    requires Coherent(tbl, t) && IsSubtree(n, t)
    ensures Coherent(tbl, n)
  {
    if n != t {
      var i :| 0 <= i < |t.children| && IsSubtree(n, t.children[i]);
      SubtreeCoherent(tbl, n, t.children[i]);
    }
  }

  /** Flipping the mute flag changes neither the place nor the steps below. */
  lemma FlipCoherent(tbl: Table, m: Node)
    requires Coherent(tbl, m)
    ensures Coherent(tbl, Apply(FlipMute, m)) && Place(Apply(FlipMute, m)) == Place(m)
  {
    var m' := Apply(FlipMute, m);
    assert forall i | 0 <= i < |m.children| :: StepFrom(tbl, m', m.children[i]) == StepFrom(tbl, m, m.children[i]);
  }

  /** A new child one step from the node keeps the node coherent. */
  lemma AppendCoherent(tbl: Table, m: Node, c: Node)
    requires Coherent(tbl, m) && StepFrom(tbl, m, c) && Coherent(tbl, c)
    ensures Coherent(tbl, Apply(Append(c), m)) && Place(Apply(Append(c), m)) == Place(m)
  {
    var m' := Apply(Append(c), m);
    forall i | 0 <= i < |m'.children|
      ensures StepFrom(tbl, m', m'.children[i]) && Coherent(tbl, m'.children[i])
    {
      if i < |m.children| {
        assert m'.children[i] == m.children[i];
      }
    }
  }

  /** A child may be swapped for a coherent one in the same place. */
  lemma ReplaceChildCoherent(tbl: Table, p: Node, cs: seq<Node>, c: nat, x: Node)
    requires CoherentUnder(tbl, p, cs) && c < |cs| && Coherent(tbl, x) && Place(x) == Place(cs[c])
    ensures CoherentUnder(tbl, p, cs[c := x])
  {
    assert StepFrom(tbl, p, cs[c]);
  }

  /** A node whose place is unchanged and whose children are coherent under it is coherent. */
  lemma UnderCoherent(tbl: Table, n: Node, n': Node)
    requires CoherentUnder(tbl, n, n'.children) && Place(n') == Place(n)
    ensures Coherent(tbl, n')
  {
    forall i | 0 <= i < |n'.children|
      ensures StepFrom(tbl, n', n'.children[i])
    {
      assert StepFrom(tbl, n, n'.children[i]);
    }
  }

  lemma {:induction false} RewriteWalkCoherent(tbl: Table, n: Node, ids: seq<nat>, e: Edit, m: Node)
    requires Coherent(tbl, n) && Walk(n, ids) == Some(m)
    requires Coherent(tbl, Apply(e, m)) && Place(Apply(e, m)) == Place(m)
    ensures Coherent(tbl, RewriteWalk(n, ids, e)) && Place(RewriteWalk(n, ids, e)) == Place(n)
    decreases |ids|
  {
    if |ids| > 0 {
      var cs := n.children;
      var c := FindChild(cs, ids[0]).value;
      var x := RewriteWalk(cs[c], ids[1..], e);
      RewriteWalkCoherent(tbl, cs[c], ids[1..], e, m);
      var n' := RewriteWalk(n, ids, e);
      assert n'.children == cs[c := x];
      assert CoherentUnder(tbl, n, cs);
      ReplaceChildCoherent(tbl, n, cs, c, x);
      UnderCoherent(tbl, n, n');
    }
  }

  /** Editing the selected node coherently keeps the whole diagram coherent, and its root in place. */
  lemma RewriteCoherent(tbl: Table, t: Node, path: seq<nat>, e: Edit, m: Node)
    requires Coherent(tbl, t) && GetNodeByPath(t, path) == Some(m)
    requires Coherent(tbl, Apply(e, m)) && Place(Apply(e, m)) == Place(m)
    ensures Coherent(tbl, Rewrite(t, path, e)) && Place(Rewrite(t, path, e)) == Place(t)
  {
    if |path| >= 2 {
      RewriteWalkCoherent(tbl, t, path[1..], e, m);
    }
  }

  // ---------------------------------------------------------------------------
  // Translation
  // ---------------------------------------------------------------------------

  /** Moving a whole diagram keeps every step's distance. */
  lemma {:induction false} ShiftCoherent(tbl: Table, t: Node, dy: int)
    requires Coherent(tbl, t)
    ensures Coherent(tbl, Shift(t, dy))
  {
    var cs := t.children;
    var t' := Shift(t, dy);
    forall i | 0 <= i < |cs|
      ensures StepFrom(tbl, t', t'.children[i]) && Coherent(tbl, t'.children[i])
    {
      assert t'.children == ShiftAll(cs, dy);
      assert t'.children[i] == Shift(cs[i], dy);
      assert StepFrom(tbl, t, cs[i]);
      ShiftCoherent(tbl, cs[i], dy);
    }
  }

  // ---------------------------------------------------------------------------
  // Removal
  // ---------------------------------------------------------------------------

  lemma {:induction false} RemoveFromChildrenCoherent(tbl: Table, p: Node, cs: seq<Node>, k: nat)
    requires CoherentUnder(tbl, p, cs)
    ensures CoherentUnder(tbl, p, RemoveFromChildren(cs, k).1)
    decreases cs
  {
    if cs != [] && cs[0].id != k {
      var (found, below) := RemoveFromChildren(cs[0].children, k);
      assert StepFrom(tbl, p, cs[0]) && Coherent(tbl, cs[0]);
      if found {
        RemoveFromChildrenCoherent(tbl, cs[0], cs[0].children, k);
        var first := cs[0].(children := below);
        assert CoherentUnder(tbl, first, below);
        var rs := [first] + cs[1..];
        forall i | 0 <= i < |rs|
          ensures StepFrom(tbl, p, rs[i]) && Coherent(tbl, rs[i])
        {
          if i > 0 {
            assert rs[i] == cs[i];
          }
        }
      } else {
        RemoveFromChildrenCoherent(tbl, p, cs[1..], k);
        var (ok, rest) := RemoveFromChildren(cs[1..], k);
        var rs := [cs[0]] + rest;
        forall i | 0 <= i < |rs|
          ensures StepFrom(tbl, p, rs[i]) && Coherent(tbl, rs[i])
        {
          if i > 0 {
            assert rs[i] == rest[i - 1];
          }
        }
      }
    } else if cs != [] {
      forall i | 0 <= i < |cs| - 1
        ensures StepFrom(tbl, p, cs[1..][i]) && Coherent(tbl, cs[1..][i])
      {
        assert cs[1..][i] == cs[i + 1];
      }
    }
  }

  /** Removing a note keeps the rest of the diagram coherent. */
  lemma RemoveCoherent(tbl: Table, t: Node, k: nat)
    requires Coherent(tbl, t)
    ensures Coherent(tbl, RemoveNode(t, k).1)
  {
    if k != t.id {
      assert CoherentUnder(tbl, t, t.children);
      RemoveFromChildrenCoherent(tbl, t, t.children, k);
      var t' := RemoveNode(t, k).1;
      assert CoherentUnder(tbl, t', t'.children);
    }
  }

  // ---------------------------------------------------------------------------
  // Consequences
  // ---------------------------------------------------------------------------

  /** With ratios above and below 1 that multiply to 1, every note of a diagram rooted at a positive frequency is positive. */
  lemma {:induction false} CoherentPositive(tbl: Table, t: Node)
    requires Reciprocal(tbl) && Coherent(tbl, t) && t.data.frequency > 0.0
    ensures forall e | e in Entries(t) :: e.data.frequency > 0.0
  {
    forall e | e in Entries(t)
      ensures e.data.frequency > 0.0
    {
      if e != Label(t) {
        assert e in EntriesList(t.children);
        EntriesListMember(t.children, e);
        var i :| 0 <= i < |t.children| && e in Entries(t.children[i]);
        var c := t.children[i];
        assert StepFrom(tbl, t, c);
        RatioPositive(tbl, c.data.dimension, c.data.isUp);
        Positive(t.data.frequency, Ratio(tbl[c.data.dimension], c.data.isUp));
        CoherentPositive(tbl, c);
      }
    }
  }

  lemma RatioPositive(tbl: Table, d: int, isUp: bool)
    requires Reciprocal(tbl) && d in tbl
    ensures Ratio(tbl[d], isUp) > 0.0
  {
    var step := tbl[d];
    assert step.up > 1.0 && step.up * step.down == 1.0;
  }

  /** Every note of a coherent diagram sits in its root's column. */
  lemma {:induction false} CoherentColumn(tbl: Table, t: Node)
    requires Coherent(tbl, t)
    ensures forall e | e in Entries(t) :: e.x == t.x
  {
    forall e | e in Entries(t)
      ensures e.x == t.x
    {
      if e != Label(t) {
        assert e in EntriesList(t.children);
        EntriesListMember(t.children, e);
        var i :| 0 <= i < |t.children| && e in Entries(t.children[i]);
        assert StepFrom(tbl, t, t.children[i]);
        CoherentColumn(tbl, t.children[i]);
      }
    }
  }

}
