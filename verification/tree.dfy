/**
 * The pitch tree of src/utils/TreeNode.ts (and the local class in src/app/page.jsx,
 * which behaves the same for the modelled methods but has no `clone`): an
 * ordered rooted tree of notes, each node carrying an id, a layout coordinate,
 * a `Data` payload and its children in insertion order.
 *
 * The source's mutable objects become immutable values. A node's identity in the
 * source is its object reference; here it is its id, which the global counter makes
 * unique (see `UniqueIds` and `IdsIdentifyNodes`). The parent back-reference is not
 * stored: a node's parent is the node whose child list holds it.
 */
module PitchTree {
  import opened Opt
  import opened NoteData

  datatype Node = Node(id: nat, x: int, y: int, data: Data, children: seq<Node>)

  /** One node seen without its children: what a flat pre-order listing records. */
  datatype Entry = Entry(id: nat, x: int, y: int, data: Data)

  function Label(n: Node): Entry
  {
    Entry(n.id, n.x, n.y, n.data)
  }

  // ---------------------------------------------------------------------------
  // Construction
  // ---------------------------------------------------------------------------

  /**
   * `new TreeNode(data)`: the node takes the counter's current value as its id and
   * the counter moves past it; the coordinate starts at (0, 0) with no children.
   */
  function NewNode(next: nat, data: Data): (r: (Node, nat))
    ensures r.0.id == next < r.1
    ensures r.0.data == data && r.0.children == []
  {
    (Node(next, 0, 0, data, []), next + 1)
  }

  /** `addChild`: the child goes last; the node itself and its earlier children stay as they were. */
  function AddChild(parent: Node, child: Node): (r: Node)
    ensures Label(r) == Label(parent)
    ensures |r.children| == |parent.children| + 1
    ensures r.children[..|parent.children|] == parent.children
    ensures r.children[|parent.children|] == child
  {
    parent.(children := parent.children + [child])
  }

  // ---------------------------------------------------------------------------
  // Pre-order view: a node before its children, children in list order
  // ---------------------------------------------------------------------------

  function Entries(t: Node): (es: seq<Entry>)
    ensures |es| >= 1 && es[0] == Label(t)
  {
    [Label(t)] + EntriesList(t.children)
  }

  function EntriesList(cs: seq<Node>): (es: seq<Entry>)
    ensures |es| >= |cs|
  {
    if cs == [] then [] else Entries(cs[0]) + EntriesList(cs[1..])
  }

  /** Number of nodes in the tree. */
  function Size(t: Node): nat
  {
    |Entries(t)|
  }

  lemma {:induction false} EntriesListMember(cs: seq<Node>, e: Entry)
    ensures e in EntriesList(cs) <==> exists i | 0 <= i < |cs| :: e in Entries(cs[i])
  {
    if cs != [] {
      EntriesListMember(cs[1..], e);
      if e in EntriesList(cs[1..]) {
        var i :| 0 <= i < |cs[1..]| && e in Entries(cs[1..][i]);
        assert e in Entries(cs[i + 1]);
      }
      if exists i | 0 <= i < |cs| :: e in Entries(cs[i]) {
        var i :| 0 <= i < |cs| && e in Entries(cs[i]);
        if i > 0 {
          assert cs[1..][i - 1] == cs[i];
        }
      }
    }
  }

  lemma {:induction false} EntriesListAppend(cs: seq<Node>, c: Node)
    ensures EntriesList(cs + [c]) == EntriesList(cs) + Entries(c)
  {
    if cs == [] {
      assert [c][1..] == [];
    } else {
      assert (cs + [c])[1..] == cs[1..] + [c];
      EntriesListAppend(cs[1..], c);
    }
  }

  lemma EntriesListCons(c: Node, rest: seq<Node>)
    ensures EntriesList([c] + rest) == Entries(c) + EntriesList(rest)
  {
    assert ([c] + rest)[1..] == rest;
  }

  /** The listing of two child lists one after the other. */
  lemma {:induction false} EntriesListConcat(a: seq<Node>, b: seq<Node>)
    ensures EntriesList(a + b) == EntriesList(a) + EntriesList(b)
  {
    if a == [] {
      assert a + b == b;
    } else {
      assert (a + b)[1..] == a[1..] + b;
      EntriesListConcat(a[1..], b);
    }
  }

  /** `addChild` puts the new child's whole subtree last in pre-order. */
  lemma AddChildEntries(parent: Node, child: Node)
    ensures Entries(AddChild(parent, child)) == Entries(parent) + Entries(child)
    ensures Size(AddChild(parent, child)) == Size(parent) + Size(child)
  {
    EntriesListAppend(parent.children, child);
  }

  // ---------------------------------------------------------------------------
  // Ids
  // ---------------------------------------------------------------------------

  function IdSet(t: Node): set<nat>
  {
    {t.id} + IdSetList(t.children)
  }

  function IdSetList(cs: seq<Node>): set<nat>
  {
    if cs == [] then {} else IdSet(cs[0]) + IdSetList(cs[1..])
  }

  lemma {:induction false} IdSetListMember(cs: seq<Node>, k: nat)
    ensures k in IdSetList(cs) <==> exists i | 0 <= i < |cs| :: k in IdSet(cs[i])
  {
    if cs != [] {
      IdSetListMember(cs[1..], k);
      if k in IdSetList(cs[1..]) {
        var i :| 0 <= i < |cs[1..]| && k in IdSet(cs[1..][i]);
        assert k in IdSet(cs[i + 1]);
      }
      if exists i | 0 <= i < |cs| :: k in IdSet(cs[i]) {
        var i :| 0 <= i < |cs| && k in IdSet(cs[i]);
        if i > 0 {
          assert cs[1..][i - 1] == cs[i];
        }
      }
    }
  }

  lemma {:induction false} IdSetListAppend(cs: seq<Node>, c: Node)
    ensures IdSetList(cs + [c]) == IdSetList(cs) + IdSet(c)
  {
    if cs == [] {
      assert [c][1..] == [];
    } else {
      assert (cs + [c])[1..] == cs[1..] + [c];
      IdSetListAppend(cs[1..], c);
    }
  }

  /**
   * No id occurs twice in the tree: the root's id is not below it, sibling subtrees
   * share no id, and every child subtree is itself unique. The global counter of the
   * source makes this hold of every tree it builds.
   */
  predicate UniqueIds(t: Node)
  {
    && t.id !in IdSetList(t.children)
    && (forall i, j | 0 <= i < j < |t.children| :: IdSet(t.children[i]) !! IdSet(t.children[j]))
    && (forall i | 0 <= i < |t.children| :: UniqueIds(t.children[i]))
  }

  // ---------------------------------------------------------------------------
  // Subtrees
  // ---------------------------------------------------------------------------

  /** `n` is a node of `t` (with everything below it). */
  predicate IsSubtree(n: Node, t: Node)
  {
    n == t || exists i | 0 <= i < |t.children| :: IsSubtree(n, t.children[i])
  }

  lemma {:induction false} SubtreeId(n: Node, t: Node)
    requires IsSubtree(n, t)
    ensures n.id in IdSet(t)
  {
    if n != t {
      var i :| 0 <= i < |t.children| && IsSubtree(n, t.children[i]);
      SubtreeId(n, t.children[i]);
      IdSetListMember(t.children, n.id);
    }
  }

  lemma {:induction false} SubtreeEntries(n: Node, t: Node)
    requires IsSubtree(n, t)
    ensures forall e | e in Entries(n) :: e in Entries(t)
  {
    if n != t {
      var i :| 0 <= i < |t.children| && IsSubtree(n, t.children[i]);
      SubtreeEntries(n, t.children[i]);
      forall e | e in Entries(t.children[i])
        ensures e in Entries(t)
      {
        EntriesListMember(t.children, e);
      }
    }
  }

  lemma {:induction false} SubtreeTransitive(a: Node, b: Node, t: Node)
    requires IsSubtree(a, b) && IsSubtree(b, t)
    ensures IsSubtree(a, t)
  {
    if b != t {
      var i :| 0 <= i < |t.children| && IsSubtree(b, t.children[i]);
      SubtreeTransitive(a, b, t.children[i]);
    }
  }

  lemma SubtreeUnique(n: Node, t: Node)
    requires UniqueIds(t) && IsSubtree(n, t)
    ensures UniqueIds(n)
  {
    if n != t {
      var i :| 0 <= i < |t.children| && IsSubtree(n, t.children[i]);
      SubtreeUnique(n, t.children[i]);
    }
  }

  /**
   * In a tree with unique ids a node is determined by its id: this is why the model
   * may compare nodes by id where the source compares object references.
   */
  lemma {:induction false} IdsIdentifyNodes(t: Node, a: Node, b: Node)
    requires UniqueIds(t) && IsSubtree(a, t) && IsSubtree(b, t)
    requires a.id == b.id
    ensures a == b
  {
    if a == t && b != t {
      var j :| 0 <= j < |t.children| && IsSubtree(b, t.children[j]);
      SubtreeId(b, t.children[j]);
      IdSetListMember(t.children, b.id);
    } else if a != t && b == t {
      var i :| 0 <= i < |t.children| && IsSubtree(a, t.children[i]);
      SubtreeId(a, t.children[i]);
      IdSetListMember(t.children, a.id);
    } else if a != t && b != t {
      var i :| 0 <= i < |t.children| && IsSubtree(a, t.children[i]);
      var j :| 0 <= j < |t.children| && IsSubtree(b, t.children[j]);
      SubtreeId(a, t.children[i]);
      SubtreeId(b, t.children[j]);
      if i == j {
        IdsIdentifyNodes(t.children[i], a, b);
      }
    }
  }

  // ---------------------------------------------------------------------------
  // rootCoordinate: vertical translation of a whole subtree
  // ---------------------------------------------------------------------------

  /** `rootCoordinate(dy)`: this node and, recursively, every descendant move down by `dy`. */
  function Shift(t: Node, dy: int): (r: Node)
    ensures Label(r) == Label(t).(y := t.y + dy)
    ensures |r.children| == |t.children|
  {
    t.(y := t.y + dy, children := ShiftAll(t.children, dy))
  }

  function ShiftAll(cs: seq<Node>, dy: int): (rs: seq<Node>)
    ensures |rs| == |cs|
  {
    seq(|cs|, i requires 0 <= i < |cs| => Shift(cs[i], dy))
  }

  /** The flat counterpart of a translation: every entry's Y moves by `dy`, nothing else changes. */
  function ShiftEntries(es: seq<Entry>, dy: int): (r: seq<Entry>)
    ensures |r| == |es|
  {
    seq(|es|, i requires 0 <= i < |es| => es[i].(y := es[i].y + dy))
  }

  /** Translation changes only Y, by the same amount everywhere, and keeps pre-order. */
  lemma {:induction false} ShiftEntriesOf(t: Node, dy: int)
    ensures Entries(Shift(t, dy)) == ShiftEntries(Entries(t), dy)
  {
    ShiftEntriesOfList(t.children, dy);
  }

  lemma {:induction false} ShiftEntriesOfList(cs: seq<Node>, dy: int)
    ensures EntriesList(ShiftAll(cs, dy)) == ShiftEntries(EntriesList(cs), dy)
  {
    if cs != [] {
      var rs := ShiftAll(cs, dy);
      assert rs[0] == Shift(cs[0], dy);
      assert rs[1..] == ShiftAll(cs[1..], dy);
      ShiftEntriesOf(cs[0], dy);
      ShiftEntriesOfList(cs[1..], dy);
      var a := Entries(cs[0]);
      var b := EntriesList(cs[1..]);
      assert ShiftEntries(a + b, dy) == ShiftEntries(a, dy) + ShiftEntries(b, dy);
    }
  }

  /** Moving down by `dy` and then up by `dy` gives back the same tree. */
  lemma {:induction false} ShiftInverse(t: Node, dy: int)
    ensures Shift(Shift(t, dy), -dy) == t
  {
    var cs := t.children;
    var back := ShiftAll(ShiftAll(cs, dy), -dy);
    forall i | 0 <= i < |cs|
      ensures back[i] == cs[i]
    {
      ShiftInverse(cs[i], dy);
    }
    assert back == cs;
  }

  /** Translations compose by adding their offsets. */
  lemma {:induction false} ShiftCompose(t: Node, a: int, b: int)
    ensures Shift(Shift(t, a), b) == Shift(t, a + b)
  {
    var cs := t.children;
    forall i | 0 <= i < |cs|
      ensures ShiftAll(ShiftAll(cs, a), b)[i] == ShiftAll(cs, a + b)[i]
    {
      ShiftCompose(cs[i], a, b);
    }
    assert ShiftAll(ShiftAll(cs, a), b) == ShiftAll(cs, a + b);
  }

  lemma {:induction false} ShiftIds(t: Node, dy: int)
    ensures IdSet(Shift(t, dy)) == IdSet(t)
    ensures UniqueIds(t) ==> UniqueIds(Shift(t, dy))
  {
    ShiftIdsList(t.children, dy);
    var cs := t.children;
    var rs := ShiftAll(cs, dy);
    forall i | 0 <= i < |cs|
      ensures IdSet(rs[i]) == IdSet(cs[i])
      ensures UniqueIds(cs[i]) ==> UniqueIds(rs[i])
    {
      ShiftIds(cs[i], dy);
    }
  }

  lemma {:induction false} ShiftIdsList(cs: seq<Node>, dy: int)
    ensures IdSetList(ShiftAll(cs, dy)) == IdSetList(cs)
  {
    if cs != [] {
      var rs := ShiftAll(cs, dy);
      assert rs[1..] == ShiftAll(cs[1..], dy);
      ShiftIds(cs[0], dy);
      ShiftIdsList(cs[1..], dy);
    }
  }

  // ---------------------------------------------------------------------------
  // returnFrequencies
  // ---------------------------------------------------------------------------

  /**
   * `returnFrequencies`: this node's frequency unless it is muted, followed by each
   * child's list in child order. Muting a node does not silence its descendants.
   */
  function Frequencies(t: Node): seq<real>
  {
    (if t.data.isMuted then [] else [t.data.frequency]) + FrequenciesList(t.children)
  }

  function FrequenciesList(cs: seq<Node>): seq<real>
  {
    if cs == [] then [] else Frequencies(cs[0]) + FrequenciesList(cs[1..])
  }

  /** Reference definition on the flat listing: the frequencies of the unmuted entries, in order. */
  function Audible(es: seq<Entry>): (fs: seq<real>)
    ensures |fs| <= |es|
    ensures (forall i | 0 <= i < |es| :: !es[i].data.isMuted) ==> |fs| == |es|
    ensures forall f | f in fs :: exists i | 0 <= i < |es| :: !es[i].data.isMuted && es[i].data.frequency == f
  {
    if es == [] then []
    else
      var rest := Audible(es[1..]);
      assert forall f | f in rest :: exists i | 0 <= i < |es| :: !es[i].data.isMuted && es[i].data.frequency == f by {
        forall f | f in rest
          ensures exists i | 0 <= i < |es| :: !es[i].data.isMuted && es[i].data.frequency == f
        {
          var j :| 0 <= j < |es[1..]| && !es[1..][j].data.isMuted && es[1..][j].data.frequency == f;
          assert es[j + 1] == es[1..][j];
        }
      }
      (if es[0].data.isMuted then [] else [es[0].data.frequency]) + rest
  }

  lemma {:induction false} AudibleAppend(a: seq<Entry>, b: seq<Entry>)
    ensures Audible(a + b) == Audible(a) + Audible(b)
  {
    if a == [] {
      assert a + b == b;
    } else {
      assert (a + b)[1..] == a[1..] + b;
      AudibleAppend(a[1..], b);
    }
  }

  /** The recursive collection equals the unmuted frequencies of the pre-order listing. */
  lemma {:induction false} FrequenciesPreorder(t: Node)
    ensures Frequencies(t) == Audible(Entries(t))
  {
    FrequenciesPreorderList(t.children);
    AudibleAppend([Label(t)], EntriesList(t.children));
    assert ([Label(t)] + EntriesList(t.children))[1..] == EntriesList(t.children);
  }

  lemma {:induction false} FrequenciesPreorderList(cs: seq<Node>)
    ensures FrequenciesList(cs) == Audible(EntriesList(cs))
  {
    if cs != [] {
      FrequenciesPreorder(cs[0]);
      FrequenciesPreorderList(cs[1..]);
      AudibleAppend(Entries(cs[0]), EntriesList(cs[1..]));
    }
  }

  /** With nothing muted there is exactly one frequency per node. */
  lemma {:induction false} FrequenciesCountUnmuted(t: Node)
    requires forall e | e in Entries(t) :: !e.data.isMuted
    ensures |Frequencies(t)| == Size(t)
  {
    FrequenciesPreorder(t);
    var es := Entries(t);
    assert forall i | 0 <= i < |es| :: !es[i].data.isMuted by {
      forall i | 0 <= i < |es|
        ensures !es[i].data.isMuted
      {
        assert es[i] in es;
      }
    }
  }

  /** `addChild` appends the child's frequencies after the parent's. */
  lemma AddChildFrequencies(parent: Node, child: Node)
    ensures Frequencies(AddChild(parent, child)) == Frequencies(parent) + Frequencies(child)
  {
    AddChildEntries(parent, child);
    FrequenciesPreorder(parent);
    FrequenciesPreorder(child);
    FrequenciesPreorder(AddChild(parent, child));
    AudibleAppend(Entries(parent), Entries(child));
  }

  /** A translation does not touch any stored frequency. */
  lemma ShiftFrequencies(t: Node, dy: int)
    ensures Frequencies(Shift(t, dy)) == Frequencies(t)
  {
    ShiftEntriesOf(t, dy);
    FrequenciesPreorder(t);
    FrequenciesPreorder(Shift(t, dy));
    ShiftedAudible(Entries(t), dy);
  }

  lemma {:induction false} ShiftedAudible(es: seq<Entry>, dy: int)
    ensures Audible(ShiftEntries(es, dy)) == Audible(es)
  {
    if es != [] {
      assert ShiftEntries(es, dy)[1..] == ShiftEntries(es[1..], dy);
      ShiftedAudible(es[1..], dy);
    }
  }

  // ---------------------------------------------------------------------------
  // searchCoordinate: pre-order hit test against a fixed box
  // ---------------------------------------------------------------------------

  /**
   * The hit box of one note line: strictly between 15 left and 160 right of the
   * node's X, and less than 6 away from its Y.
   */
  predicate Hits(e: Entry, px: real, py: real)
  {
    && (e.x - 15) as real < px < (e.x + 160) as real
    && -6.0 < e.y as real - py < 6.0
  }

  /** `searchCoordinate(x, y)`: the node itself if it is hit, else the first hit among its children in order. */
  function SearchCoordinate(t: Node, px: real, py: real): (r: Option<Node>)
    ensures r.Some? ==> Hits(Label(r.value), px, py) && IsSubtree(r.value, t)
  {
    if Hits(Label(t), px, py) then Some(t) else SearchList(t.children, px, py)
  }

  function SearchList(cs: seq<Node>, px: real, py: real): (r: Option<Node>)
    ensures r.Some? ==> Hits(Label(r.value), px, py)
    ensures r.Some? ==> exists i | 0 <= i < |cs| :: IsSubtree(r.value, cs[i])
  {
    if cs == [] then None
    else
      match SearchCoordinate(cs[0], px, py)
      case Some(n) => Some(n)
      case None =>
        var r := SearchList(cs[1..], px, py);
        assert r.Some? ==> exists i | 0 <= i < |cs| :: IsSubtree(r.value, cs[i]) by {
          if r.Some? {
            var j :| 0 <= j < |cs[1..]| && IsSubtree(r.value, cs[1..][j]);
            assert cs[1..][j] == cs[j + 1];
          }
        }
        r
  }

  /** Reference: the index of the first hit entry in a flat listing. */
  function FirstHit(es: seq<Entry>, px: real, py: real): (r: Option<nat>)
    ensures r.Some? ==> r.value < |es| && Hits(es[r.value], px, py)
    ensures r.Some? ==> forall j | 0 <= j < r.value :: !Hits(es[j], px, py)
    ensures r.None? ==> forall j | 0 <= j < |es| :: !Hits(es[j], px, py)
  {
    if es == [] then None
    else if Hits(es[0], px, py) then Some(0)
    else
      match FirstHit(es[1..], px, py)
      case None => None
      case Some(i) => Some(i + 1)
  }

  function FirstHitEntry(es: seq<Entry>, px: real, py: real): Option<Entry>
  {
    match FirstHit(es, px, py)
    case None => None
    case Some(i) => Some(es[i])
  }

  function LabelOf(o: Option<Node>): Option<Entry>
  {
    match o
    case None => None
    case Some(n) => Some(Label(n))
  }

  lemma FirstHitEntryAppend(a: seq<Entry>, b: seq<Entry>, px: real, py: real)
    ensures FirstHitEntry(a + b, px, py)
         == if FirstHitEntry(a, px, py).Some? then FirstHitEntry(a, px, py) else FirstHitEntry(b, px, py)
  {
    var ab := a + b;
    match FirstHit(a, px, py)
    case Some(i) =>
      assert ab[i] == a[i];
    case None =>
      match FirstHit(b, px, py)
      case Some(i) =>
        assert ab[|a| + i] == b[i];
      case None =>
    }

  /** `searchCoordinate` returns exactly the first hit of the pre-order listing, or nothing when nothing is hit. */
  lemma {:induction false} SearchIsFirstHit(t: Node, px: real, py: real)
    ensures LabelOf(SearchCoordinate(t, px, py)) == FirstHitEntry(Entries(t), px, py)
  {
    SearchIsFirstHitList(t.children, px, py);
    FirstHitEntryAppend([Label(t)], EntriesList(t.children), px, py);
  }

  lemma {:induction false} SearchIsFirstHitList(cs: seq<Node>, px: real, py: real)
    ensures LabelOf(SearchList(cs, px, py)) == FirstHitEntry(EntriesList(cs), px, py)
  {
    if cs != [] {
      SearchIsFirstHit(cs[0], px, py);
      SearchIsFirstHitList(cs[1..], px, py);
      FirstHitEntryAppend(Entries(cs[0]), EntriesList(cs[1..]), px, py);
    }
  }

  // ---------------------------------------------------------------------------
  // clone
  // ---------------------------------------------------------------------------

  /**
   * `clone()`: a new node (taking the next id) with a copy of the payload and the
   * same coordinate, then a clone of each child in order, appended as children.
   * Returns the copy and the counter after all the allocations.
   */
  function Clone(t: Node, next: nat): (r: (Node, nat))
    ensures r.0.id == next
    ensures r.1 == next + Size(t)
  {
    var (cs, after) := CloneAll(t.children, next + 1);
    (Node(next, t.x, t.y, t.data, cs), after)
  }

  function CloneAll(cs: seq<Node>, next: nat): (r: (seq<Node>, nat))
    ensures |r.0| == |cs|
    ensures r.1 == next + |EntriesList(cs)|
  {
    if cs == [] then ([], next)
    else
      var (c, mid) := Clone(cs[0], next);
      var (rest, after) := CloneAll(cs[1..], mid);
      ([c] + rest, after)
  }

  /** The flat counterpart of a clone: same entries, ids renumbered consecutively from `next`. */
  function Renumber(es: seq<Entry>, next: nat): (r: seq<Entry>)
    ensures |r| == |es|
  {
    seq(|es|, i requires 0 <= i < |es| => es[i].(id := next + i))
  }

  /**
   * A clone lists the same coordinates and payloads in the same pre-order, and its
   * ids are `next, next + 1, ...` in that order: fresh, and increasing in the order
   * the nodes were constructed.
   */
  lemma {:induction false} CloneEntries(t: Node, next: nat)
    ensures Entries(Clone(t, next).0) == Renumber(Entries(t), next)
  {
    CloneEntriesList(t.children, next + 1);
    RenumberSplit([Label(t)], EntriesList(t.children), next);
  }

  /** Renumbering a listing in two parts: the second part starts where the first ends. */
  lemma RenumberSplit(a: seq<Entry>, b: seq<Entry>, next: nat)
    ensures Renumber(a + b, next) == Renumber(a, next) + Renumber(b, next + |a|)
  {
  }

  lemma {:induction false} CloneEntriesList(cs: seq<Node>, next: nat)
    ensures EntriesList(CloneAll(cs, next).0) == Renumber(EntriesList(cs), next)
  {
    if cs != [] {
      var (c, mid) := Clone(cs[0], next);
      var (rest, after) := CloneAll(cs[1..], mid);
      EntriesListCons(c, rest);
      CloneEntries(cs[0], next);
      CloneEntriesList(cs[1..], mid);
      RenumberSplit(Entries(cs[0]), EntriesList(cs[1..]), next);
    }
  }

  /** The tree with every id replaced by 0: what a clone must agree on. */
  function EraseIds(t: Node): Node
  {
    Node(0, t.x, t.y, t.data, EraseAll(t.children))
  }

  function EraseAll(cs: seq<Node>): (rs: seq<Node>)
    ensures |rs| == |cs|
  {
    seq(|cs|, i requires 0 <= i < |cs| => EraseIds(cs[i]))
  }

  /** A clone has the same shape, child order, coordinates and payloads as the original; only ids differ. */
  lemma {:induction false} CloneShape(t: Node, next: nat)
    ensures EraseIds(Clone(t, next).0) == EraseIds(t)
  {
    CloneShapeList(t.children, next + 1);
  }

  lemma {:induction false} CloneShapeList(cs: seq<Node>, next: nat)
    ensures EraseAll(CloneAll(cs, next).0) == EraseAll(cs)
  {
    if cs != [] {
      var (c, mid) := Clone(cs[0], next);
      var (rest, after) := CloneAll(cs[1..], mid);
      CloneShape(cs[0], next);
      CloneShapeList(cs[1..], mid);
      var lhs := EraseAll([c] + rest);
      var rhs := EraseAll(cs);
      forall i | 0 <= i < |cs|
        ensures lhs[i] == rhs[i]
      {
        if i > 0 {
          assert ([c] + rest)[i] == rest[i - 1];
          assert EraseAll(rest)[i - 1] == EraseAll(cs[1..])[i - 1];
        }
      }
    }
  }

  /** A clone's ids are all drawn from the counter range it consumed, and are unique. */
  lemma {:induction false} CloneFresh(t: Node, next: nat)
    ensures forall k | k in IdSet(Clone(t, next).0) :: next <= k < Clone(t, next).1
    ensures UniqueIds(Clone(t, next).0)
  {
    CloneFreshList(t.children, next + 1);
  }

  lemma {:induction false} CloneFreshList(cs: seq<Node>, next: nat)
    ensures forall k | k in IdSetList(CloneAll(cs, next).0) :: next <= k < CloneAll(cs, next).1
    ensures forall i | 0 <= i < |cs| :: UniqueIds(CloneAll(cs, next).0[i])
    ensures forall i, j | 0 <= i < j < |cs| :: IdSet(CloneAll(cs, next).0[i]) !! IdSet(CloneAll(cs, next).0[j])
  {
    if cs != [] {
      var (c, mid) := Clone(cs[0], next);
      var (rest, after) := CloneAll(cs[1..], mid);
      var all := [c] + rest;
      assert all[1..] == rest;
      CloneFresh(cs[0], next);
      CloneFreshList(cs[1..], mid);
      forall j | 0 < j < |cs|
        ensures IdSet(all[0]) !! IdSet(all[j])
      {
        assert all[j] == rest[j - 1];
        IdSetListMember(rest, 0);
        forall k | k in IdSet(rest[j - 1])
          ensures k in IdSetList(rest)
        {
          IdSetListMember(rest, k);
        }
      }
      forall i, j | 0 < i < j < |cs|
        ensures IdSet(all[i]) !! IdSet(all[j])
      {
        assert all[i] == rest[i - 1] && all[j] == rest[j - 1];
      }
    }
  }

}
