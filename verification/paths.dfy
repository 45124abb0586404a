/**
 * Id paths into a pitch tree (src/utils/TreeNode.ts `getIDPath`, `getNodeByPath`) and
 * the in-place edits the editor performs on the node a path selects.
 *
 * An id path lists the ids from a tree's root down to one of its nodes. The editor's
 * selection is such a path, and every edit of a selected node first resolves the
 * path with `getNodeByPath`.
 */
module TreePaths {
  import opened Opt
  import opened NoteData
  import opened PitchTree

  // ---------------------------------------------------------------------------
  // getNodeByPath
  // ---------------------------------------------------------------------------

  /** The inner scan of `getNodeByPath`: the position of the first child with id `k`. */
  function FindChild(cs: seq<Node>, k: nat): (r: Option<nat>)
    ensures r.Some? ==> r.value < |cs| && cs[r.value].id == k
    ensures r.Some? ==> forall j | 0 <= j < r.value :: cs[j].id != k
    ensures r.None? ==> forall j | 0 <= j < |cs| :: cs[j].id != k
  {
    if cs == [] then None
    else if cs[0].id == k then Some(0)
    else
      match FindChild(cs[1..], k)
      case None => None
      case Some(i) => Some(i + 1)
  }

  /** Follows `ids` downwards from `n`, one child per id; fails as soon as an id matches no child. */
  function Walk(n: Node, ids: seq<nat>): (r: Option<Node>)
    ensures r.Some? ==> IsSubtree(r.value, n)
    ensures r.Some? && |ids| > 0 ==> r.value.id == ids[|ids| - 1]
    decreases |ids|
  {
    if |ids| == 0 then Some(n)
    else
      match FindChild(n.children, ids[0])
      case None => None
      case Some(c) =>
        var r := Walk(n.children[c], ids[1..]);
        assert r.Some? ==> IsSubtree(r.value, n) by {
          if r.Some? {
            SubtreeTransitive(r.value, n.children[c], n);
          }
        }
        r
  }

  /**
   * `getNodeByPath(path)`: nothing for the empty path; the root itself for any
   * one-element path, whatever id it holds; otherwise the walk from the root along
   * the remaining ids. The first id of a longer path is never compared either.
   */
  function GetNodeByPath(t: Node, path: seq<nat>): (r: Option<Node>)
    ensures |path| == 0 ==> r.None?
    ensures |path| == 1 ==> r == Some(t)
    ensures r.Some? ==> IsSubtree(r.value, t)
    ensures r.Some? && |path| >= 2 ==> r.value.id == path[|path| - 1]
  {
    if |path| == 0 then None
    else if |path| == 1 then Some(t)
    else Walk(t, path[1..])
  }

  /** The root's own id is not consulted: any first id resolves the same way. */
  lemma FirstIdIgnored(t: Node, path: seq<nat>, k: nat)
    requires |path| >= 1
    ensures GetNodeByPath(t, [k] + path[1..]) == GetNodeByPath(t, path)
  {
    assert ([k] + path[1..])[1..] == path[1..];
  }

  // ---------------------------------------------------------------------------
  // getIDPath
  // ---------------------------------------------------------------------------

  /**
   * `getIDPath()` of the node with id `k`: the ids from the root down to that node.
   * The source climbs parent references from the node; the value model finds the
   * node from the root instead (the first match in pre-order, the only one when ids
   * are unique).
   */
  function IdPath(t: Node, k: nat): (r: Option<seq<nat>>)
    ensures r.Some? <==> k in IdSet(t)
    ensures r.Some? ==> |r.value| >= 1 && r.value[0] == t.id && r.value[|r.value| - 1] == k
  {
    if t.id == k then Some([t.id])
    else
      match IdPathList(t.children, k)
      case None => None
      case Some(p) => Some([t.id] + p)
  }

  function IdPathList(cs: seq<Node>, k: nat): (r: Option<seq<nat>>)
    ensures r.Some? <==> k in IdSetList(cs)
    ensures r.Some? ==> |r.value| >= 1 && r.value[|r.value| - 1] == k
  {
    if cs == [] then None
    else
      match IdPath(cs[0], k)
      case Some(p) => Some(p)
      case None => IdPathList(cs[1..], k)
  }

  /** When only child `i` holds `k`, the path through the children is the path through that child. */
  lemma {:induction false} IdPathListPicks(cs: seq<Node>, i: nat, k: nat)
    requires i < |cs| && k in IdSet(cs[i])
    requires forall j | 0 <= j < i :: k !in IdSet(cs[j])
    ensures IdPathList(cs, k) == IdPath(cs[i], k)
  {
    if i > 0 {
      IdPathListPicks(cs[1..], i - 1, k);
    }
  }

  /** In a tree with unique ids, a child's id leads to that child. */
  lemma FindChildOfUnique(t: Node, i: nat)
    requires UniqueIds(t) && i < |t.children|
    ensures FindChild(t.children, t.children[i].id) == Some(i)
  {
    var cs := t.children;
    forall j | 0 <= j < |cs| && j != i
      ensures cs[j].id != cs[i].id
    {
      assert cs[j].id in IdSet(cs[j]) && cs[i].id in IdSet(cs[i]);
      if j < i {
        assert IdSet(cs[j]) !! IdSet(cs[i]);
      } else {
        assert IdSet(cs[i]) !! IdSet(cs[j]);
      }
    }
  }

  lemma {:induction false} WalkIdPath(t: Node, n: Node)
    requires UniqueIds(t) && IsSubtree(n, t)
    ensures IdPath(t, n.id).Some?
    ensures Walk(t, IdPath(t, n.id).value[1..]) == Some(n)
  {
    SubtreeId(n, t);
    if n == t {
    } else {
      var i :| 0 <= i < |t.children| && IsSubtree(n, t.children[i]);
      var c := t.children[i];
      SubtreeId(n, c);
      IdSetListMember(t.children, n.id);
      assert n.id != t.id;
      forall j | 0 <= j < i
        ensures n.id !in IdSet(t.children[j])
      {
        assert IdSet(t.children[j]) !! IdSet(c);
      }
      IdPathListPicks(t.children, i, n.id);
      WalkIdPath(c, n);
      var q := IdPath(c, n.id).value;
      assert IdPath(t, n.id).value[1..] == q;
      FindChildOfUnique(t, i);
    }
  }

  /** Path round trip: resolving the id path of any node of the tree gives back that node. */
  lemma PathRoundTrip(t: Node, n: Node)
    requires UniqueIds(t) && IsSubtree(n, t)
    ensures IdPath(t, n.id).Some?
    ensures GetNodeByPath(t, IdPath(t, n.id).value) == Some(n)
  {
    WalkIdPath(t, n);
  }

  lemma {:induction false} WalkCanonical(t: Node, ids: seq<nat>, n: Node)
    requires UniqueIds(t) && Walk(t, ids) == Some(n)
    ensures IdPath(t, n.id) == Some([t.id] + ids)
    decreases |ids|
  {
    if |ids| > 0 {
      var c := FindChild(t.children, ids[0]).value;
      var ch := t.children[c];
      assert Walk(ch, ids[1..]) == Some(n);
      WalkCanonical(ch, ids[1..], n);
      assert [ch.id] + ids[1..] == ids;
      assert n.id in IdSet(ch);
      IdSetListMember(t.children, n.id);
      assert n.id != t.id;
      forall j | 0 <= j < c
        ensures n.id !in IdSet(t.children[j])
      {
        assert IdSet(t.children[j]) !! IdSet(ch);
      }
      IdPathListPicks(t.children, c, n.id);
      assert IdPathList(t.children, n.id) == Some(ids);
    } else {
      assert [t.id] + ids == [t.id];
    }
  }

  /**
   * The converse: a path that starts at the root's id and resolves to a node is that
   * node's id path, so in a tree with unique ids each node has exactly one id path.
   */
  lemma PathIsCanonical(t: Node, path: seq<nat>, n: Node)
    requires UniqueIds(t) && |path| >= 1 && path[0] == t.id
    requires GetNodeByPath(t, path) == Some(n)
    ensures IdPath(t, n.id) == Some(path)
  {
    if |path| == 1 {
      assert path == [t.id];
    } else {
      WalkCanonical(t, path[1..], n);
      assert [t.id] + path[1..] == path;
    }
  }

  // ---------------------------------------------------------------------------
  // Edits of the selected node
  // ---------------------------------------------------------------------------

  /** What the editor does to the node its selection resolves to. */
  datatype Edit = FlipMute | Append(child: Node)

  function Apply(e: Edit, n: Node): (r: Node)
    ensures r.id == n.id && r.x == n.x && r.y == n.y
  {
    match e
    case FlipMute => n.(data := ToggleMuted(n.data))
    case Append(c) => AddChild(n, c)
  }

  /** Ids an edit brings into the tree. */
  function Added(e: Edit): set<nat>
  {
    match e
    case FlipMute => {}
    case Append(c) => IdSet(c)
  }

  function RewriteWalk(n: Node, ids: seq<nat>, e: Edit): (r: Node)
    ensures r.id == n.id && r.x == n.x && r.y == n.y
    ensures |ids| > 0 ==> r.data == n.data && |r.children| == |n.children|
    decreases |ids|
  {
    if |ids| == 0 then Apply(e, n)
    else
      match FindChild(n.children, ids[0])
      case None => n
      case Some(c) => n.(children := n.children[c := RewriteWalk(n.children[c], ids[1..], e)])
  }

  /**
   * Applies `e` to the node `getNodeByPath(path)` resolves to, in place; when the
   * path resolves to nothing the tree is left as it is (the source's `?.` chains).
   */
  function Rewrite(t: Node, path: seq<nat>, e: Edit): (r: Node)
    ensures r.id == t.id && r.x == t.x && r.y == t.y
    ensures GetNodeByPath(t, path).None? ==> r == t
  {
    if |path| == 0 then t
    else if |path| == 1 then Apply(e, t)
    else
      var r := RewriteWalk(t, path[1..], e);
      assert GetNodeByPath(t, path).None? ==> r == t by {
        if Walk(t, path[1..]).None? {
          RewriteWalkMissing(t, path[1..], e);
        }
      }
      r
  }

  lemma {:induction false} RewriteWalkMissing(n: Node, ids: seq<nat>, e: Edit)
    requires Walk(n, ids).None?
    ensures RewriteWalk(n, ids, e) == n
    decreases |ids|
  {
    match FindChild(n.children, ids[0])
    case None =>
    case Some(c) =>
      RewriteWalkMissing(n.children[c], ids[1..], e);
      assert n.children[c := n.children[c]] == n.children;
  }

  /** Replacing a child by a node with the same id does not change which child an id finds. */
  lemma FindChildAfterUpdate(cs: seq<Node>, c: nat, x: Node, k: nat)
    requires c < |cs| && x.id == cs[c].id
    ensures FindChild(cs[c := x], k) == FindChild(cs, k)
  {
    var ds := cs[c := x];
    assert forall j | 0 <= j < |cs| :: ds[j].id == cs[j].id;
  }

  lemma {:induction false} WalkRewrite(n: Node, ids: seq<nat>, e: Edit, m: Node)
    requires Walk(n, ids) == Some(m)
    ensures Walk(RewriteWalk(n, ids, e), ids) == Some(Apply(e, m))
    decreases |ids|
  {
    if |ids| > 0 {
      var c := FindChild(n.children, ids[0]).value;
      var x := RewriteWalk(n.children[c], ids[1..], e);
      FindChildAfterUpdate(n.children, c, x, ids[0]);
      WalkRewrite(n.children[c], ids[1..], e, m);
    }
  }

  /** After the edit, the same path resolves to the edited node. */
  lemma RewriteFound(t: Node, path: seq<nat>, e: Edit, m: Node)
    requires GetNodeByPath(t, path) == Some(m)
    ensures GetNodeByPath(Rewrite(t, path, e), path) == Some(Apply(e, m))
  {
    if |path| >= 2 {
      WalkRewrite(t, path[1..], e, m);
    }
  }

  lemma {:induction false} FlipTwiceWalk(n: Node, ids: seq<nat>)
    ensures RewriteWalk(RewriteWalk(n, ids, FlipMute), ids, FlipMute) == n
    decreases |ids|
  {
    if |ids| == 0 {
      assert ToggleMuted(ToggleMuted(n.data)) == n.data;
    } else {
      match FindChild(n.children, ids[0])
      case None =>
      case Some(c) =>
        var x := RewriteWalk(n.children[c], ids[1..], FlipMute);
        FindChildAfterUpdate(n.children, c, x, ids[0]);
        FlipTwiceWalk(n.children[c], ids[1..]);
        assert n.children[c := x][c := n.children[c]] == n.children;
    }
  }

  /** Flipping the mute flag of the same selection twice restores the tree. */
  lemma FlipTwice(t: Node, path: seq<nat>)
    ensures Rewrite(Rewrite(t, path, FlipMute), path, FlipMute) == t
  {
    if |path| == 1 {
      assert ToggleMuted(ToggleMuted(t.data)) == t.data;
    } else if |path| >= 2 {
      FlipTwiceWalk(t, path[1..]);
    }
  }

  lemma IdSetListUpdate(cs: seq<Node>, c: nat, x: Node, extra: set<nat>)
    requires c < |cs| && IdSet(x) == IdSet(cs[c]) + extra
    ensures IdSetList(cs[c := x]) == IdSetList(cs) + extra
  {
    var ds := cs[c := x];
    forall k
      ensures k in IdSetList(ds) <==> k in IdSetList(cs) || k in extra
    {
      IdSetListMember(ds, k);
      IdSetListMember(cs, k);
      if k in extra {
        assert k in IdSet(ds[c]);
      }
      if k in IdSetList(cs) {
        var i :| 0 <= i < |cs| && k in IdSet(cs[i]);
        assert k in IdSet(ds[i]);
      }
    }
  }

  /** Associativity, spelled out for a block nested two lists deep. */
  lemma Nest<T>(l: seq<T>, a: seq<T>, p: seq<T>, x: seq<T>, q: seq<T>, b: seq<T>)
    ensures l + (a + (p + x + q) + b) == (l + a + p) + x + (q + b)
  {
  }

  lemma Shuffle<T>(a: seq<T>, b: seq<T>, c: seq<T>, d: seq<T>)
    ensures a + (b + c) + d == a + b + (c + d)
  {
  }

  /** The pre-order listing of a child list around its `c`-th child. */
  lemma EntriesListAround(cs: seq<Node>, c: nat)
    requires c < |cs|
    ensures EntriesList(cs) == EntriesList(cs[..c]) + Entries(cs[c]) + EntriesList(cs[c + 1..])
  {
    var front, back := cs[..c], cs[c + 1..];
    var tail := [cs[c]] + back;
    SplitAt(cs, c);
    EntriesListConcat(front, tail);
    EntriesListCons(cs[c], back);
    Associate(EntriesList(cs), EntriesList(front), EntriesList(tail), Entries(cs[c]), EntriesList(back));
  }

  lemma SplitAt<T>(s: seq<T>, c: nat)
    requires c < |s|
    ensures s == s[..c] + ([s[c]] + s[c + 1..])
  {
  }

  /** `whole` is `a` then `t`, and `t` is `b` then `c`. */
  lemma Associate<T>(whole: seq<T>, a: seq<T>, t: seq<T>, b: seq<T>, c: seq<T>)
    requires whole == a + t && t == b + c
    ensures whole == a + b + c
  {
  }

  /**
   * An edit touches one block of the pre-order listing: the selected node's subtree
   * is replaced by the edited node's, and every entry before and after it stays.
   */
  lemma {:induction false} RewriteWalkBlock(n: Node, ids: seq<nat>, e: Edit, m: Node) returns (pre: seq<Entry>, post: seq<Entry>)
    requires Walk(n, ids) == Some(m)
    ensures Entries(n) == pre + Entries(m) + post
    ensures Entries(RewriteWalk(n, ids, e)) == pre + Entries(Apply(e, m)) + post
    decreases |ids|
  {
    if |ids| == 0 {
      pre, post := [], [];
      assert [] + Entries(m) + [] == Entries(m);
      assert [] + Entries(Apply(e, m)) + [] == Entries(Apply(e, m));
    } else {
      var cs := n.children;
      var c := FindChild(cs, ids[0]).value;
      var y := RewriteWalk(cs[c], ids[1..], e);
      var pre', post' := RewriteWalkBlock(cs[c], ids[1..], e, m);
      var ds := cs[c := y];
      EntriesListAround(cs, c);
      EntriesListAround(ds, c);
      assert ds[..c] == cs[..c] && ds[c + 1..] == cs[c + 1..];
      var a := EntriesList(cs[..c]);
      var b := EntriesList(cs[c + 1..]);
      pre, post := [Label(n)] + a + pre', post' + b;
      Nest([Label(n)], a, pre', Entries(m), post', b);
      Nest([Label(n)], a, pre', Entries(Apply(e, m)), post', b);
    }
  }

  /** The same block statement for an edit through a whole selection path. */
  lemma RewriteBlock(t: Node, path: seq<nat>, e: Edit, m: Node) returns (pre: seq<Entry>, post: seq<Entry>)
    requires GetNodeByPath(t, path) == Some(m)
    ensures Entries(t) == pre + Entries(m) + post
    ensures Entries(Rewrite(t, path, e)) == pre + Entries(Apply(e, m)) + post
  {
    if |path| == 1 {
      pre, post := [], [];
      assert [] + Entries(m) + [] == Entries(m);
      assert [] + Entries(Apply(e, m)) + [] == Entries(Apply(e, m));
    } else {
      pre, post := RewriteWalkBlock(t, path[1..], e, m);
    }
  }

  /**
   * Muting or unmuting the selected note changes exactly one entry of the pre-order
   * listing, the selected one, and only in its mute flag; playback gains or loses
   * exactly that note's frequency at its place.
   */
  lemma MuteFlipsOneEntry(t: Node, path: seq<nat>, m: Node) returns (pre: seq<Entry>, post: seq<Entry>)
    requires GetNodeByPath(t, path) == Some(m)
    ensures Entries(t) == pre + [Label(m)] + post
    ensures Entries(Rewrite(t, path, FlipMute)) == pre + [Label(m).(data := ToggleMuted(m.data))] + post
    ensures Frequencies(t) == Audible(pre) + (if m.data.isMuted then [] else [m.data.frequency]) + Audible(post)
    ensures Frequencies(Rewrite(t, path, FlipMute))
         == Audible(pre) + (if m.data.isMuted then [m.data.frequency] else []) + Audible(post)
  {
    var pre', post' := RewriteBlock(t, path, FlipMute, m);
    var kids := EntriesList(m.children);
    var flipped := Label(m).(data := ToggleMuted(m.data));
    assert Entries(Apply(FlipMute, m)) == [flipped] + kids;
    pre, post := pre', kids + post';
    Shuffle(pre', [Label(m)], kids, post');
    Shuffle(pre', [flipped], kids, post');
    MuteFrequencies(t, Rewrite(t, path, FlipMute), pre, Label(m), post);
  }

  lemma MuteFrequencies(t: Node, t': Node, pre: seq<Entry>, x: Entry, post: seq<Entry>)
    requires Entries(t) == pre + [x] + post
    requires Entries(t') == pre + [x.(data := ToggleMuted(x.data))] + post
    ensures Frequencies(t) == Audible(pre) + (if x.data.isMuted then [] else [x.data.frequency]) + Audible(post)
    ensures Frequencies(t') == Audible(pre) + (if x.data.isMuted then [x.data.frequency] else []) + Audible(post)
  {
    FrequenciesPreorder(t);
    FrequenciesPreorder(t');
    AudibleAround(pre, x, post);
    AudibleAround(pre, x.(data := ToggleMuted(x.data)), post);
  }

  lemma AudibleAround(pre: seq<Entry>, x: Entry, post: seq<Entry>)
    ensures Audible(pre + [x] + post)
         == Audible(pre) + (if x.data.isMuted then [] else [x.data.frequency]) + Audible(post)
  {
    AudibleAppend(pre + [x], post);
    AudibleAppend(pre, [x]);
    assert [x][1..] == [];
  }

  /**
   * Adding a note under the selected node inserts the new note's subtree right after
   * the selected node's subtree in the pre-order listing, and in playback.
   */
  lemma AppendInsertsBlock(t: Node, path: seq<nat>, m: Node, c: Node) returns (pre: seq<Entry>, post: seq<Entry>)
    requires GetNodeByPath(t, path) == Some(m)
    ensures Entries(t) == pre + Entries(m) + post
    ensures Entries(Rewrite(t, path, Append(c))) == pre + Entries(m) + Entries(c) + post
    ensures Frequencies(Rewrite(t, path, Append(c)))
         == Audible(pre) + Frequencies(m) + Frequencies(c) + Audible(post)
  {
    pre, post := RewriteBlock(t, path, Append(c), m);
    AddChildEntries(m, c);
    Ungroup(pre, Entries(m), Entries(c), post);
    FrequenciesPreorder(Rewrite(t, path, Append(c)));
    FrequenciesPreorder(m);
    FrequenciesPreorder(c);
    AudibleFour(pre, Entries(m), Entries(c), post);
  }

  lemma Ungroup<T>(a: seq<T>, b: seq<T>, c: seq<T>, d: seq<T>)
    ensures a + (b + c) + d == a + b + c + d
  {
  }

  lemma AudibleFour(a: seq<Entry>, b: seq<Entry>, c: seq<Entry>, d: seq<Entry>)
    ensures Audible(a + b + c + d) == Audible(a) + Audible(b) + Audible(c) + Audible(d)
  {
    AudibleAppend(a + b + c, d);
    AudibleAppend(a + b, c);
    AudibleAppend(a, b);
  }

  /** An edit adds exactly the ids it brings along. */
  lemma {:induction false} RewriteWalkIds(n: Node, ids: seq<nat>, e: Edit, m: Node)
    requires Walk(n, ids) == Some(m)
    requires IdSet(Apply(e, m)) == IdSet(m) + Added(e)
    ensures IdSet(RewriteWalk(n, ids, e)) == IdSet(n) + Added(e)
    decreases |ids|
  {
    if |ids| > 0 {
      var c := FindChild(n.children, ids[0]).value;
      var x := RewriteWalk(n.children[c], ids[1..], e);
      RewriteWalkIds(n.children[c], ids[1..], e, m);
      IdSetListUpdate(n.children, c, x, Added(e));
    }
  }

  lemma ChildIdsInside(n: Node, j: nat)
    requires j < |n.children|
    ensures IdSet(n.children[j]) <= IdSet(n)
  {
    forall k | k in IdSet(n.children[j])
      ensures k in IdSet(n)
    {
      IdSetListMember(n.children, k);
    }
  }

  /** An edit whose result is unique and whose new ids are fresh keeps the whole tree unique. */
  lemma {:induction false} RewriteWalkUnique(n: Node, ids: seq<nat>, e: Edit, m: Node)
    requires UniqueIds(n) && Walk(n, ids) == Some(m)
    requires IdSet(Apply(e, m)) == IdSet(m) + Added(e)
    requires UniqueIds(Apply(e, m))
    requires Added(e) !! IdSet(n)
    ensures UniqueIds(RewriteWalk(n, ids, e))
    decreases |ids|
  {
    if |ids| > 0 {
      var cs := n.children;
      var c := FindChild(cs, ids[0]).value;
      ChildIdsInside(n, c);
      var x := RewriteWalk(cs[c], ids[1..], e);
      RewriteWalkUnique(cs[c], ids[1..], e, m);
      RewriteWalkIds(cs[c], ids[1..], e, m);
      IdSetListUpdate(cs, c, x, Added(e));
      ReplaceChildApart(n, c, x, Added(e));
    }
  }

  /** No two subtrees of the list share an id. */
  predicate SiblingsApart(cs: seq<Node>)
  {
    forall i, j | 0 <= i < j < |cs| :: IdSet(cs[i]) !! IdSet(cs[j])
  }

  /** Swapping one child for one that only adds ids found nowhere in the tree keeps the children apart. */
  lemma ReplaceChildApart(n: Node, c: nat, x: Node, extra: set<nat>)
    requires c < |n.children| && IdSet(x) == IdSet(n.children[c]) + extra && extra !! IdSet(n)
    requires SiblingsApart(n.children)
    ensures SiblingsApart(n.children[c := x])
  {
    var ds := n.children[c := x];
    forall i, j | 0 <= i < j < |ds|
      ensures IdSet(ds[i]) !! IdSet(ds[j])
    {
      ChildIdsInside(n, i);
      ChildIdsInside(n, j);
    }
  }

  /** Every entry of the edited tree was already there or belongs to the edited node's new subtree. */
  lemma {:induction false} RewriteWalkEntries(n: Node, ids: seq<nat>, e: Edit, m: Node)
    requires Walk(n, ids) == Some(m)
    ensures forall x | x in Entries(RewriteWalk(n, ids, e)) :: x in Entries(n) || x in Entries(Apply(e, m))
    decreases |ids|
  {
    if |ids| > 0 {
      var cs := n.children;
      var c := FindChild(cs, ids[0]).value;
      var y := RewriteWalk(cs[c], ids[1..], e);
      RewriteWalkEntries(cs[c], ids[1..], e, m);
      var ds := cs[c := y];
      forall x | x in EntriesList(ds)
        ensures x in Entries(n) || x in Entries(Apply(e, m))
      {
        EntriesListMember(ds, x);
        var i :| 0 <= i < |ds| && x in Entries(ds[i]);
        if i != c {
          EntriesListMember(cs, x);
        } else if x in Entries(cs[c]) {
          EntriesListMember(cs, x);
        }
      }
    }
  }

  /** The same three facts for an edit through a whole selection path. */
  lemma RewriteKeeps(t: Node, path: seq<nat>, e: Edit, m: Node)
    requires GetNodeByPath(t, path) == Some(m)
    requires IdSet(Apply(e, m)) == IdSet(m) + Added(e)
    ensures IdSet(Rewrite(t, path, e)) == IdSet(t) + Added(e)
    ensures UniqueIds(t) && UniqueIds(Apply(e, m)) && Added(e) !! IdSet(t) ==> UniqueIds(Rewrite(t, path, e))
    ensures forall x | x in Entries(Rewrite(t, path, e)) :: x in Entries(t) || x in Entries(Apply(e, m))
  {
    if |path| >= 2 {
      RewriteWalkIds(t, path[1..], e, m);
      RewriteWalkEntries(t, path[1..], e, m);
      if UniqueIds(t) && UniqueIds(Apply(e, m)) && Added(e) !! IdSet(t) {
        RewriteWalkUnique(t, path[1..], e, m);
      }
    }
  }

  // ---------------------------------------------------------------------------
  // Paths under a translation
  // ---------------------------------------------------------------------------

  /** Child lists that agree on every id find the same position for any id. */
  lemma {:induction false} FindChildSameIds(cs: seq<Node>, ds: seq<Node>, k: nat)
    requires |cs| == |ds| && forall i | 0 <= i < |cs| :: ds[i].id == cs[i].id
    ensures FindChild(ds, k) == FindChild(cs, k)
  {
    if cs != [] && cs[0].id != k {
      FindChildSameIds(cs[1..], ds[1..], k);
    }
  }

  lemma {:induction false} ShiftWalk(n: Node, ids: seq<nat>, dy: int)
    ensures Walk(Shift(n, dy), ids).Some? <==> Walk(n, ids).Some?
    ensures Walk(n, ids).Some? ==> Walk(Shift(n, dy), ids) == Some(Shift(Walk(n, ids).value, dy))
    decreases |ids|
  {
    if |ids| > 0 {
      var cs := n.children;
      FindChildSameIds(cs, ShiftAll(cs, dy), ids[0]);
      match FindChild(cs, ids[0])
      case None =>
      case Some(c) =>
        ShiftWalk(cs[c], ids[1..], dy);
    }
  }

  /** Moving a diagram vertically keeps every selection path resolving, to the moved node. */
  lemma ShiftPath(t: Node, path: seq<nat>, dy: int)
    ensures GetNodeByPath(Shift(t, dy), path).Some? <==> GetNodeByPath(t, path).Some?
    ensures GetNodeByPath(t, path).Some? ==> GetNodeByPath(Shift(t, dy), path) == Some(Shift(GetNodeByPath(t, path).value, dy))
  {
    if |path| >= 2 {
      ShiftWalk(t, path[1..], dy);
    }
  }

  // ---------------------------------------------------------------------------
  // Adding a note
  // ---------------------------------------------------------------------------

  /** A child subtree whose ids are new keeps the node's ids unique. */
  lemma AppendUnique(m: Node, c: Node)
    requires UniqueIds(m) && UniqueIds(c) && IdSet(c) !! IdSet(m)
    ensures IdSet(AddChild(m, c)) == IdSet(m) + IdSet(c)
    ensures UniqueIds(AddChild(m, c))
  {
    var cs := m.children;
    var ds := AddChild(m, c).children;
    IdSetListAppend(cs, c);
    forall i, j | 0 <= i < j < |ds|
      ensures IdSet(ds[i]) !! IdSet(ds[j])
    {
      assert ds[i] == cs[i];
      if j == |cs| {
        ChildIdsInside(m, i);
      } else {
        assert ds[j] == cs[j];
      }
    }
  }

  /** Extending a resolving path by one id selects that child of the node the path resolves to. */
  lemma {:induction false} WalkExtend(n: Node, ids: seq<nat>, k: nat, m: Node)
    requires Walk(n, ids) == Some(m)
    ensures Walk(n, ids + [k]) == match FindChild(m.children, k) case None => None case Some(c) => Some(m.children[c])
    decreases |ids|
  {
    if |ids| == 0 {
      assert ids + [k] == [k];
      assert [k][1..] == [];
    } else {
      var c := FindChild(n.children, ids[0]).value;
      assert (ids + [k])[0] == ids[0];
      assert (ids + [k])[1..] == ids[1..] + [k];
      WalkExtend(n.children[c], ids[1..], k, m);
    }
  }

  lemma PathExtend(t: Node, path: seq<nat>, k: nat, m: Node)
    requires GetNodeByPath(t, path) == Some(m)
    ensures GetNodeByPath(t, path + [k]) == match FindChild(m.children, k) case None => None case Some(c) => Some(m.children[c])
  {
    assert (path + [k])[1..] == path[1..] + [k];
    if |path| == 1 {
      assert path[1..] == [];
    }
    WalkExtend(t, path[1..], k, m);
  }

}
