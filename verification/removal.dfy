/**
 * Subtree removal, src/utils/TreeNode.ts `removeNode` / `removeNodeRecursive`.
 *
 * The node to remove is named by its id (the source passes the node object, which
 * unique ids identify). Removing a child from its parent's list removes everything
 * below it too.
 */
module TreeRemoval {
  import opened Opt
  import opened NoteData
  import opened PitchTree
  import opened TreePaths

  /**
   * `removeNode(target)`: refuses the root itself; otherwise searches the children
   * depth-first and removes the first node with id `k` from its parent's list.
   * Returns whether something was removed, and the tree afterwards.
   */
  function RemoveNode(t: Node, k: nat): (r: (bool, Node))
    ensures k == t.id ==> r == (false, t)
    ensures r.0 <==> k != t.id && k in IdSetList(t.children)
    ensures !r.0 ==> r.1 == t
    ensures Label(r.1) == Label(t)
  {
    if k == t.id then (false, t)
    else
      var (found, cs) := RemoveFromChildren(t.children, k);
      if found then (true, t.(children := cs)) else (false, t)
  }

  /**
   * `removeNodeRecursive(parent, target)` over the parent's child list, in order: a
   * child with id `k` is spliced out of the list; otherwise the search descends into
   * that child before it moves on to the next one.
   */
  function RemoveFromChildren(cs: seq<Node>, k: nat): (r: (bool, seq<Node>))
    ensures r.0 <==> k in IdSetList(cs)
    ensures !r.0 ==> r.1 == cs
  {
    if cs == [] then (false, cs)
    else if cs[0].id == k then (true, cs[1..])
    else
      var (found, below) := RemoveFromChildren(cs[0].children, k);
      if found then (true, [cs[0].(children := below)] + cs[1..])
      else
        var (ok, rest) := RemoveFromChildren(cs[1..], k);
        assert !ok ==> [cs[0]] + rest == cs;
        (ok, [cs[0]] + rest)
  }

  // ---------------------------------------------------------------------------
  // What is removed: one contiguous block of the pre-order listing
  // ---------------------------------------------------------------------------

  lemma Regroup<T>(x: seq<T>, pre: seq<T>, block: seq<T>, post: seq<T>, tail: seq<T>)
    ensures x + (pre + block + post) + tail == (x + pre) + block + (post + tail)
    ensures x + (pre + post) + tail == (x + pre) + (post + tail)
  {
  }

  /** Moving a block found below the first tree's root out to the whole list. */
  lemma BlockBelowFirst(cs: seq<Node>, below: seq<Node>, pre: seq<Entry>, block: seq<Entry>, post: seq<Entry>)
    requires cs != []
    requires EntriesList(cs[0].children) == pre + block + post
    requires EntriesList(below) == pre + post
    ensures EntriesList(cs) == ([Label(cs[0])] + pre) + block + (post + EntriesList(cs[1..]))
    ensures EntriesList([cs[0].(children := below)] + cs[1..]) == ([Label(cs[0])] + pre) + (post + EntriesList(cs[1..]))
  {
    var c0 := cs[0].(children := below);
    EntriesListCons(c0, cs[1..]);
    assert Entries(c0) == [Label(cs[0])] + (pre + post);
    assert Entries(cs[0]) == [Label(cs[0])] + (pre + block + post);
    Regroup([Label(cs[0])], pre, block, post, EntriesList(cs[1..]));
  }

  lemma PrefixRegroup<T>(head: seq<T>, pre: seq<T>, block: seq<T>, post: seq<T>)
    ensures head + (pre + block + post) == (head + pre) + block + post
    ensures head + (pre + post) == (head + pre) + post
  {
  }

  /** Moving a block found in the tail of a list out to the whole list. */
  lemma BlockInTail(cs: seq<Node>, rest: seq<Node>, pre: seq<Entry>, block: seq<Entry>, post: seq<Entry>)
    requires cs != []
    requires EntriesList(cs[1..]) == pre + block + post
    requires EntriesList(rest) == pre + post
    ensures EntriesList(cs) == (Entries(cs[0]) + pre) + block + post
    ensures EntriesList([cs[0]] + rest) == (Entries(cs[0]) + pre) + post
  {
    EntriesListCons(cs[0], rest);
    PrefixRegroup(Entries(cs[0]), pre, block, post);
  }

  lemma {:induction false} RemoveFromChildrenBlock(cs: seq<Node>, k: nat) returns (pre: seq<Entry>, n: Node, post: seq<Entry>)
    requires RemoveFromChildren(cs, k).0
    ensures n.id == k
    ensures exists j | 0 <= j < |cs| :: IsSubtree(n, cs[j])
    ensures EntriesList(cs) == pre + Entries(n) + post
    ensures EntriesList(RemoveFromChildren(cs, k).1) == pre + post
  {
    if cs[0].id == k {
      pre, n, post := [], cs[0], EntriesList(cs[1..]);
      assert IsSubtree(n, cs[0]);
      assert [] + Entries(n) + post == Entries(n) + post;
    } else if RemoveFromChildren(cs[0].children, k).0 {
      var pre', n', post' := RemoveFromChildrenBlock(cs[0].children, k);
      BlockBelowFirst(cs, RemoveFromChildren(cs[0].children, k).1, pre', Entries(n'), post');
      pre, n, post := [Label(cs[0])] + pre', n', post' + EntriesList(cs[1..]);
      var j' :| 0 <= j' < |cs[0].children| && IsSubtree(n, cs[0].children[j']);
      assert IsSubtree(n, cs[0]);
    } else {
      var pre', n', post' := RemoveFromChildrenBlock(cs[1..], k);
      BlockInTail(cs, RemoveFromChildren(cs[1..], k).1, pre', Entries(n'), post');
      pre, n, post := Entries(cs[0]) + pre', n', post';
      var j' :| 0 <= j' < |cs[1..]| && IsSubtree(n, cs[1..][j']);
      assert IsSubtree(n, cs[j' + 1]);
    }
  }

  /**
   * A successful removal takes out one node `n` with id `k` together with its whole
   * subtree: the contiguous block `Entries(n)` of the pre-order listing, after at
   * least the root's entry. Every other node keeps its coordinates, payload and
   * relative order.
   */
  lemma RemoveNodeBlock(t: Node, k: nat) returns (pre: seq<Entry>, n: Node, post: seq<Entry>)
    requires RemoveNode(t, k).0
    ensures n.id == k && IsSubtree(n, t) && n != t
    ensures |pre| >= 1
    ensures Entries(t) == pre + Entries(n) + post
    ensures Entries(RemoveNode(t, k).1) == pre + post
    ensures Size(RemoveNode(t, k).1) == Size(t) - Size(n)
  {
    var pre', n', post' := RemoveFromChildrenBlock(t.children, k);
    pre, n, post := [Label(t)] + pre', n', post';
    PrefixRegroup([Label(t)], pre', Entries(n), post');
  }

  /** Removal never invents an entry. */
  lemma RemoveNodeEntries(t: Node, k: nat)
    ensures forall e | e in Entries(RemoveNode(t, k).1) :: e in Entries(t)
  {
    if RemoveNode(t, k).0 {
      var pre, n, post := RemoveNodeBlock(t, k);
      assert forall e | e in pre + post :: e in pre + Entries(n) + post;
    }
  }

  // ---------------------------------------------------------------------------
  // Ids after a removal
  // ---------------------------------------------------------------------------

  /** A list of sibling subtrees that share no id and are each unique. */
  predicate UniqueForest(cs: seq<Node>)
  {
    && (forall i | 0 <= i < |cs| :: UniqueIds(cs[i]))
    && (forall i, j | 0 <= i < j < |cs| :: IdSet(cs[i]) !! IdSet(cs[j]))
  }

  lemma ForestSplit(cs: seq<Node>)
    requires cs != [] && UniqueForest(cs)
    ensures UniqueForest(cs[1..])
    ensures IdSet(cs[0]) !! IdSetList(cs[1..])
  {
    var rest := cs[1..];
    forall k | k in IdSetList(rest)
      ensures k !in IdSet(cs[0])
    {
      IdSetListMember(rest, k);
      var j :| 0 <= j < |rest| && k in IdSet(rest[j]);
      assert IdSet(cs[0]) !! IdSet(cs[j + 1]);
    }
    forall i, j | 0 <= i < j < |rest|
      ensures IdSet(rest[i]) !! IdSet(rest[j])
    {
      assert IdSet(cs[i + 1]) !! IdSet(cs[j + 1]);
    }
  }

  lemma ListIdsInside(cs: seq<Node>, j: nat)
    requires j < |cs|
    ensures IdSet(cs[j]) <= IdSetList(cs)
  {
    forall q | q in IdSet(cs[j])
      ensures q in IdSetList(cs)
    {
      IdSetListMember(cs, q);
    }
  }

  lemma HeadApart(c: Node, rest: seq<Node>)
    requires IdSet(c) !! IdSetList(rest)
    ensures forall j | 0 <= j < |rest| :: IdSet(c) !! IdSet(rest[j])
  {
    forall j | 0 <= j < |rest|
      ensures IdSet(c) !! IdSet(rest[j])
    {
      ListIdsInside(rest, j);
    }
  }

  lemma ForestJoin(c: Node, rest: seq<Node>)
    requires UniqueIds(c) && UniqueForest(rest) && IdSet(c) !! IdSetList(rest)
    ensures UniqueForest([c] + rest)
  {
    HeadApart(c, rest);
    var cs := [c] + rest;
    assert forall i | 0 < i < |cs| :: cs[i] == rest[i - 1];
  }

  /** The node with id `k` in a unique forest lives in the one tree whose ids hold `k`. */
  lemma ForestLocate(cs: seq<Node>, n: Node, j: nat)
    requires UniqueForest(cs) && j < |cs| && IsSubtree(n, cs[j])
    ensures forall i | 0 <= i < |cs| && i != j :: n.id !in IdSet(cs[i])
  {
    SubtreeId(n, cs[j]);
    forall i | 0 <= i < |cs| && i != j
      ensures n.id !in IdSet(cs[i])
    {
      if i < j {
        assert IdSet(cs[i]) !! IdSet(cs[j]);
      } else {
        assert IdSet(cs[j]) !! IdSet(cs[i]);
      }
    }
  }

  lemma SubtreeIdsInside(n: Node, t: Node)
    requires IsSubtree(n, t)
    ensures IdSet(n) <= IdSet(t)
  {
    if n != t {
      var i :| 0 <= i < |t.children| && IsSubtree(n, t.children[i]);
      SubtreeIdsInside(n, t.children[i]);
      ChildIdsInside(t, i);
    }
  }

  /** Replacing the first tree's children by a list that lost exactly the ids of `n`. */
  lemma ShrinkFirst(cs: seq<Node>, below: seq<Node>, n: Node)
    requires cs != [] && UniqueForest(cs)
    requires IdSet(n) <= IdSetList(cs[0].children)
    requires IdSetList(below) == IdSetList(cs[0].children) - IdSet(n)
    requires UniqueForest(below)
    ensures IdSetList([cs[0].(children := below)] + cs[1..]) == IdSetList(cs) - IdSet(n)
    ensures UniqueForest([cs[0].(children := below)] + cs[1..])
  {
    var c0 := cs[0].(children := below);
    ForestSplit(cs);
    assert IdSet(c0) == IdSet(cs[0]) - IdSet(n);
    ForestJoin(c0, cs[1..]);
    assert ([c0] + cs[1..])[1..] == cs[1..];
  }

  lemma {:induction false} RemoveFromChildrenIds(cs: seq<Node>, n: Node, j: nat)
    requires UniqueForest(cs) && j < |cs| && IsSubtree(n, cs[j])
    ensures RemoveFromChildren(cs, n.id).0
    ensures IdSetList(RemoveFromChildren(cs, n.id).1) == IdSetList(cs) - IdSet(n)
    ensures UniqueForest(RemoveFromChildren(cs, n.id).1)
  {
    var k := n.id;
    SubtreeId(n, cs[j]);
    IdSetListMember(cs, k);
    ForestLocate(cs, n, j);
    ForestSplit(cs);
    SubtreeIdsInside(n, cs[j]);
    if cs[0].id == k {
      assert j == 0;
      IdsIdentifyNodes(cs[0], cs[0], n);
    } else if j == 0 {
      var c := cs[0];
      assert n != c;
      var j' :| 0 <= j' < |c.children| && IsSubtree(n, c.children[j']);
      var (found, below) := RemoveFromChildren(c.children, k);
      RemoveFromChildrenIds(c.children, n, j');
      SubtreeIdsInside(n, c.children[j']);
      ListIdsInside(c.children, j');
      ShrinkFirst(cs, below, n);
    } else {
      var c := cs[0];
      assert k !in IdSet(c);
      var (ok, rest) := RemoveFromChildren(cs[1..], k);
      assert cs[1..][j - 1] == cs[j];
      RemoveFromChildrenIds(cs[1..], n, j - 1);
      ForestJoin(c, rest);
      assert ([c] + rest)[1..] == rest;
    }
  }

  /**
   * In a tree with unique ids, removing any node other than the root succeeds and
   * takes out exactly that node's ids; the tree stays unique and shrinks by the
   * size of the removed subtree.
   */
  lemma RemoveExact(t: Node, n: Node)
    requires UniqueIds(t) && IsSubtree(n, t) && n != t
    ensures RemoveNode(t, n.id).0
    ensures IdSet(RemoveNode(t, n.id).1) == IdSet(t) - IdSet(n)
    ensures Size(RemoveNode(t, n.id).1) == Size(t) - Size(n)
    ensures UniqueIds(RemoveNode(t, n.id).1)
  {
    if n.id == t.id {
      IdsIdentifyNodes(t, t, n);
    }
    var j :| 0 <= j < |t.children| && IsSubtree(n, t.children[j]);
    RemoveFromChildrenIds(t.children, n, j);
    SubtreeIdsInside(n, t.children[j]);
    ChildIdsInside(t, j);
    ListIdsInside(t.children, j);
    var t' := RemoveNode(t, n.id).1;
    assert t' == t.(children := RemoveFromChildren(t.children, n.id).1);
    RootOutside(t.id, IdSetList(t.children), IdSet(n));
    var pre, m, post := RemoveNodeBlock(t, n.id);
    IdsIdentifyNodes(t, n, m);
  }

  /** Taking away ids that never held the root's leaves the root. */
  lemma RootOutside(a: nat, below: set<nat>, gone: set<nat>)
    requires gone <= below && a !in below
    ensures {a} + (below - gone) == ({a} + below) - gone
  {
  }

  // ---------------------------------------------------------------------------
  // Paths after a removal
  // ---------------------------------------------------------------------------

  lemma {:induction false} RemoveFromChildrenPaths(cs: seq<Node>, n: Node, j: nat, q: nat)
    requires UniqueForest(cs) && j < |cs| && IsSubtree(n, cs[j])
    requires q in IdSetList(RemoveFromChildren(cs, n.id).1)
    ensures IdPathList(RemoveFromChildren(cs, n.id).1, q) == IdPathList(cs, q)
  {
    var k := n.id;
    RemoveFromChildrenIds(cs, n, j);
    SubtreeId(n, cs[j]);
    ForestLocate(cs, n, j);
    ForestSplit(cs);
    var c := cs[0];
    if c.id == k {
      assert j == 0;
      IdsIdentifyNodes(c, c, n);
    } else if j == 0 {
      assert n != c;
      var j' :| 0 <= j' < |c.children| && IsSubtree(n, c.children[j']);
      var (found, below) := RemoveFromChildren(c.children, k);
      RemoveFromChildrenIds(c.children, n, j');
      var c0 := c.(children := below);
      var r := [c0] + cs[1..];
      assert r[1..] == cs[1..];
      if q == c.id {
      } else if q in IdSetList(below) {
        RemoveFromChildrenPaths(c.children, n, j', q);
      } else {
        assert q in IdSetList(cs[1..]);
      }
    } else {
      var (ok, rest) := RemoveFromChildren(cs[1..], k);
      var r := [c] + rest;
      assert r[1..] == rest;
      if q !in IdSet(c) {
        assert cs[1..][j - 1] == cs[j];
        RemoveFromChildrenPaths(cs[1..], n, j - 1, q);
      }
    }
  }

  /** No surviving node's id path changes when another node is removed. */
  lemma RemovePreservesPaths(t: Node, n: Node, q: nat)
    requires UniqueIds(t) && IsSubtree(n, t) && n != t
    requires q in IdSet(RemoveNode(t, n.id).1)
    ensures IdPath(RemoveNode(t, n.id).1, q) == IdPath(t, q)
  {
    RemoveExact(t, n);
    var j :| 0 <= j < |t.children| && IsSubtree(n, t.children[j]);
    if q != t.id {
      RemoveFromChildrenPaths(t.children, n, j, q);
    }
  }

}
