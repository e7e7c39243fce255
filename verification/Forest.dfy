/**
 The content forest: every content names its parent, and paths are rebuilt by
 walking the parents. Both states of trsync, the in-memory one and the database,
 are read through this view.
 */
module Forest {
  import opened Wrappers

  type ContentId = int
  type Name = string
  type Path = seq<Name>

  datatype Node = Node(name: Name, parent: Option<ContentId>)

  type Tree = map<ContentId, Node>

  lemma SomeId(ids: set<ContentId>)
    requires ids != {}
    ensures exists id :: id in ids
  {
    assert (forall id :: id !in ids) ==> ids == {};
  }

  /** The walk from `id` through the parents stops after exactly `n` steps, at a root or at an absent id. */
  ghost predicate Ends(t: Tree, id: ContentId, n: nat)
    decreases n
  {
    if id !in t || t[id].parent.None? then n == 0
    else n > 0 && Ends(t, t[id].parent.value, n - 1)
  }

  ghost predicate Stops(t: Tree, id: ContentId) {
    exists n: nat :: Ends(t, id, n)
  }

  ghost predicate Acyclic(t: Tree) {
    forall id :: id in t ==> Stops(t, id)
  }

  ghost predicate ParentClosed(t: Tree) {
    forall id :: id in t && t[id].parent.Some? ==> t[id].parent.value in t
  }

  ghost predicate IsForest(t: Tree) {
    Acyclic(t) && ParentClosed(t)
  }

  /** Contents of one folder have distinct names. */
  ghost predicate UniqueSiblings(t: Tree) {
    forall a, b :: a in t && b in t && t[a] == t[b] ==> a == b
  }

  lemma EndsUnique(t: Tree, id: ContentId, n: nat, m: nat)
    requires Ends(t, id, n) && Ends(t, id, m)
    ensures n == m
    decreases n
  {
    if id in t && t[id].parent.Some? {
      EndsUnique(t, t[id].parent.value, n - 1, m - 1);
    }
  }

  ghost function Depth(t: Tree, id: ContentId): (n: nat)
    requires Stops(t, id)
    ensures Ends(t, id, n)
  {
    var n: nat :| Ends(t, id, n); n
  }

  lemma DepthStep(t: Tree, id: ContentId)
    requires Stops(t, id) && id in t && t[id].parent.Some?
    ensures Stops(t, t[id].parent.value)
    ensures Depth(t, id) == Depth(t, t[id].parent.value) + 1
  {
    var p := t[id].parent.value;
    assert Ends(t, p, Depth(t, id) - 1);
    EndsUnique(t, p, Depth(t, id) - 1, Depth(t, p));
  }

  lemma StopsFromParent(t: Tree, id: ContentId)
    requires id in t ==> t[id].parent.None? || Stops(t, t[id].parent.value)
    ensures Stops(t, id)
  {
    if id !in t || t[id].parent.None? {
      assert Ends(t, id, 0);
    } else {
      assert Ends(t, id, Depth(t, t[id].parent.value) + 1);
    }
  }

  ghost function Walk(t: Tree, id: ContentId, n: nat): Option<Path>
    requires Ends(t, id, n)
    decreases n
  {
    if id !in t then None
    else if t[id].parent.None? then Some([t[id].name])
    else
      match Walk(t, t[id].parent.value, n - 1)
      case None => None
      case Some(p) => Some(p + [t[id].name])
  }

  /** The path of `id`, or None when an ancestor is absent or the walk never stops. */
  ghost function PathOf(t: Tree, id: ContentId): Option<Path> {
    if Stops(t, id) then Walk(t, id, Depth(t, id)) else None
  }

  /** The path of a folder that may be the root. */
  ghost function FolderPath(t: Tree, folder: Option<ContentId>): Option<Path> {
    if folder.None? then Some([]) else PathOf(t, folder.value)
  }

  function Extend(p: Option<Path>, suffix: Path): Option<Path> {
    if p.None? then None else Some(p.value + suffix)
  }

  /** The path of a child called `name` below `parent`, which may be the root. */
  ghost function ChildPath(t: Tree, parent: Option<ContentId>, name: Name): Option<Path> {
    Extend(FolderPath(t, parent), [name])
  }

  lemma PathStep(t: Tree, id: ContentId)
    requires Stops(t, id)
    ensures PathOf(t, id) == if id in t then ChildPath(t, t[id].parent, t[id].name) else None
  {
    if id in t && t[id].parent.Some? {
      DepthStep(t, id);
    } else if id in t {
      assert [] + [t[id].name] == [t[id].name];
    }
  }

  lemma {:induction false} PathDefined(t: Tree, id: ContentId)
    requires IsForest(t) && id in t
    ensures PathOf(t, id).Some? && PathOf(t, id).value != []
    ensures |PathOf(t, id).value| == Depth(t, id) + 1
    ensures PathOf(t, id).value[|PathOf(t, id).value| - 1] == t[id].name
    decreases Depth(t, id)
  {
    PathStep(t, id);
    if t[id].parent.Some? {
      DepthStep(t, id);
      PathDefined(t, t[id].parent.value);
    } else {
      EndsUnique(t, id, Depth(t, id), 0);
    }
  }

  /** The walk from `x` passes through `root`. */
  ghost predicate UnderN(t: Tree, root: ContentId, x: ContentId, n: nat)
    requires Ends(t, x, n)
    decreases n
  {
    x in t && (x == root || (t[x].parent.Some? && UnderN(t, root, t[x].parent.value, n - 1)))
  }

  ghost predicate Under(t: Tree, root: ContentId, x: ContentId) {
    Stops(t, x) && UnderN(t, root, x, Depth(t, x))
  }

  lemma UnderStep(t: Tree, root: ContentId, x: ContentId)
    requires Stops(t, x)
    ensures Under(t, root, x) <==>
            x in t && (x == root || (t[x].parent.Some? && Under(t, root, t[x].parent.value)))
  {
    if x in t && t[x].parent.Some? {
      DepthStep(t, x);
    }
  }

  /** `root` with all its descendants. */
  ghost function Subtree(t: Tree, root: ContentId): set<ContentId> {
    set x | x in t && Under(t, root, x)
  }

  lemma {:induction false} UnderDepth(t: Tree, root: ContentId, x: ContentId)
    requires Acyclic(t) && Under(t, root, x)
    ensures root in t && Depth(t, root) <= Depth(t, x)
    ensures x != root ==> Depth(t, root) < Depth(t, x)
    decreases Depth(t, x)
  {
    UnderStep(t, root, x);
    if x != root {
      DepthStep(t, x);
      UnderDepth(t, root, t[x].parent.value);
    }
  }

  lemma {:induction false} UnderTransitive(t: Tree, a: ContentId, b: ContentId, x: ContentId)
    requires Acyclic(t) && Under(t, a, b) && Under(t, b, x)
    ensures Under(t, a, x)
    decreases Depth(t, x)
  {
    UnderStep(t, b, x);
    UnderStep(t, a, x);
    if x != b {
      DepthStep(t, x);
      UnderTransitive(t, a, b, t[x].parent.value);
    }
  }

  /** Below a content, every path starts with that content's path. */
  lemma {:induction false} PathUnder(t: Tree, root: ContentId, x: ContentId)
    requires IsForest(t) && Under(t, root, x)
    ensures root in t && PathOf(t, root).Some? && PathOf(t, x).Some?
    ensures PathOf(t, root).value <= PathOf(t, x).value
    ensures x != root ==> PathOf(t, root).value < PathOf(t, x).value
    decreases Depth(t, x)
  {
    UnderStep(t, root, x);
    PathStep(t, x);
    PathDefined(t, x);
    if x != root {
      DepthStep(t, x);
      PathUnder(t, root, t[x].parent.value);
    }
  }

  /** Distinct contents have distinct paths as soon as siblings have distinct names. */
  lemma {:induction false} PathsDistinct(t: Tree, a: ContentId, b: ContentId)
    requires IsForest(t) && UniqueSiblings(t) && a in t && b in t
    requires PathOf(t, a) == PathOf(t, b)
    ensures a == b
    decreases Depth(t, a)
  {
    PathStep(t, a);
    PathStep(t, b);
    PathDefined(t, a);
    PathDefined(t, b);
    if t[a].parent.Some? && t[b].parent.Some? {
      var p, q := t[a].parent.value, t[b].parent.value;
      PathDefined(t, p);
      PathDefined(t, q);
      assert PathOf(t, p).value == PathOf(t, a).value[..Depth(t, a)];
      assert PathOf(t, q).value == PathOf(t, b).value[..Depth(t, a)];
      DepthStep(t, a);
      PathsDistinct(t, p, q);
    } else {
      assert t[a].name == PathOf(t, a).value[Depth(t, a)];
      assert t[b].name == PathOf(t, b).value[Depth(t, b)];
    }
  }

  /** Two trees agree on `s`, and `s` holds the parents of its members. */
  ghost predicate SameOn(t: Tree, u: Tree, s: set<ContentId>) {
    forall x :: x in s ==>
      x in t && x in u && t[x] == u[x] && (t[x].parent.Some? ==> t[x].parent.value in s)
  }

  /** Walks that stay where two trees agree are the same walks. */
  lemma {:induction false} Frame(t: Tree, u: Tree, s: set<ContentId>, x: ContentId)
    requires Acyclic(t) && SameOn(t, u, s) && x in s
    ensures Stops(u, x) && Depth(u, x) == Depth(t, x)
    ensures PathOf(u, x) == PathOf(t, x)
    ensures forall r :: Under(u, r, x) <==> Under(t, r, x)
    decreases Depth(t, x)
  {
    assert x in t;
    PathStep(t, x);
    if t[x].parent.Some? {
      var p := t[x].parent.value;
      DepthStep(t, x);
      Frame(t, u, s, p);
      StopsFromParent(u, x);
      DepthStep(u, x);
    } else {
      assert Ends(u, x, 0);
      EndsUnique(u, x, Depth(u, x), 0);
      EndsUnique(t, x, Depth(t, x), 0);
    }
    PathStep(u, x);
    forall r ensures Under(u, r, x) <==> Under(t, r, x) {
      UnderStep(t, r, x);
      UnderStep(u, r, x);
    }
  }

  /** Removing a content with all its descendants leaves a forest, and the paths that remain do not change. */
  lemma RemoveSubtree(t: Tree, root: ContentId)
    requires IsForest(t)
    ensures IsForest(t - Subtree(t, root))
    ensures forall x :: x in t && x !in Subtree(t, root) ==> PathOf(t - Subtree(t, root), x) == PathOf(t, x)
    ensures forall x, r :: x in t && x !in Subtree(t, root) ==>
                             (Under(t - Subtree(t, root), r, x) <==> Under(t, r, x))
  {
    var u := t - Subtree(t, root);
    var s := t.Keys - Subtree(t, root);
    forall x | x in s ensures t[x].parent.Some? ==> t[x].parent.value in s {
      UnderStep(t, root, x);
    }
    forall x | x in s
      ensures Stops(u, x) && PathOf(u, x) == PathOf(t, x)
      ensures forall r :: Under(u, r, x) <==> Under(t, r, x)
    {
      Frame(t, u, s, x);
    }
  }

  /** Adding a fresh content below a present parent leaves a forest, and no earlier path changes. */
  lemma AddLeaf(t: Tree, id: ContentId, node: Node)
    requires IsForest(t) && id !in t
    requires node.parent.Some? ==> node.parent.value in t
    ensures IsForest(t[id := node])
    ensures forall x :: x in t ==> PathOf(t[id := node], x) == PathOf(t, x)
    ensures PathOf(t[id := node], id).Some?
    ensures PathOf(t[id := node], id) == ChildPath(t, node.parent, node.name)
  {
    var u := t[id := node];
    forall x | x in t ensures Stops(u, x) && PathOf(u, x) == PathOf(t, x) {
      Frame(t, u, t.Keys, x);
    }
    StopsFromParent(u, id);
    PathStep(u, id);
    if node.parent.Some? {
      PathDefined(t, node.parent.value);
    }
  }

  /** Inside a moved subtree only the leading part of each path changes. */
  lemma {:induction false} MovedPath(t: Tree, u: Tree, id: ContentId, x: ContentId)
    requires IsForest(t) && Under(t, id, x)
    requires u.Keys == t.Keys && Stops(u, id) && PathOf(u, id).Some?
    requires forall y :: y in t && y != id ==> u[y] == t[y]
    ensures Stops(u, x) && PathOf(u, x).Some? && Under(u, id, x)
    ensures PathOf(t, id).Some? && PathOf(t, x).Some? && PathOf(t, id).value <= PathOf(t, x).value
    ensures PathOf(u, x).value == PathOf(u, id).value + PathOf(t, x).value[|PathOf(t, id).value|..]
    decreases Depth(t, x)
  {
    PathUnder(t, id, x);
    UnderStep(t, id, x);
    if x != id {
      var p := t[x].parent.value;
      DepthStep(t, x);
      MovedPath(t, u, id, p);
      StopsFromParent(u, x);
      PathStep(t, x);
      PathStep(u, x);
      PathUnder(t, id, p);
    }
    UnderStep(u, id, x);
  }

  /** Giving a content a new name or a parent outside its own subtree leaves a forest. */
  lemma Reparent(t: Tree, id: ContentId, node: Node)
    requires IsForest(t) && id in t
    requires node.parent.Some? ==> node.parent.value in t && !Under(t, id, node.parent.value)
    ensures IsForest(t[id := node])
    ensures PathOf(t[id := node], id).Some?
    ensures PathOf(t[id := node], id) == ChildPath(t, node.parent, node.name)
    ensures forall x :: x in t && !Under(t, id, x) ==>
                          PathOf(t[id := node], x) == PathOf(t, x) && !Under(t[id := node], id, x)
    ensures forall x :: x in t && Under(t, id, x) ==>
                          Under(t[id := node], id, x) &&
                          PathOf(t, id).Some? && PathOf(t, x).Some? && PathOf(t, id).value <= PathOf(t, x).value &&
                          PathOf(t[id := node], x) ==
                          Some(PathOf(t[id := node], id).value + PathOf(t, x).value[|PathOf(t, id).value|..])
  {
    var u := t[id := node];
    var s := t.Keys - Subtree(t, id);
    forall x | x in s
      ensures t[x].parent.Some? ==> t[x].parent.value in s
      ensures x != id
    {
      UnderStep(t, id, x);
    }
    forall x | x in s ensures Stops(u, x) && PathOf(u, x) == PathOf(t, x) && !Under(u, id, x) {
      Frame(t, u, s, x);
    }
    if node.parent.Some? {
      PathDefined(t, node.parent.value);
    }
    StopsFromParent(u, id);
    PathStep(u, id);
    forall x | x in t && Under(t, id, x)
      ensures Stops(u, x) && Under(u, id, x) && PathOf(t, id).Some? && PathOf(t, x).Some?
      ensures PathOf(t, id).value <= PathOf(t, x).value
      ensures PathOf(u, x) == Some(PathOf(u, id).value + PathOf(t, x).value[|PathOf(t, id).value|..])
    {
      MovedPath(t, u, id, x);
    }
  }

  /** The `k`-th ancestor. */
  ghost function Up(t: Tree, id: ContentId, k: nat): Option<ContentId>
    decreases k
  {
    if id !in t then None
    else if k == 0 then Some(id)
    else if t[id].parent.None? then None
    else Up(t, t[id].parent.value, k - 1)
  }

  lemma {:induction false} UpEnds(t: Tree, id: ContentId, k: nat, n: nat)
    requires Ends(t, id, n) && Up(t, id, k).Some?
    ensures k <= n && Ends(t, Up(t, id, k).value, n - k)
    decreases k
  {
    if k > 0 {
      UpEnds(t, t[id].parent.value, k - 1, n - 1);
    }
  }

  lemma {:induction false} UpOneMore(t: Tree, id: ContentId, k: nat)
    requires Up(t, id, k).Some?
    ensures Up(t, id, k).value in t
    ensures var a := Up(t, id, k).value;
            t[a].parent.Some? && t[a].parent.value in t ==> Up(t, id, k + 1) == t[a].parent
    decreases k
  {
    if k > 0 {
      UpOneMore(t, t[id].parent.value, k - 1);
    } else if t[id].parent.Some? && t[id].parent.value in t {
      assert Up(t, t[id].parent.value, 0) == t[id].parent;
    }
  }

  ghost predicate ProperAncestor(t: Tree, a: ContentId, x: ContentId) {
    exists k: nat :: k > 0 && Up(t, x, k) == Some(a)
  }

  /** The walks all stop exactly when no content is its own proper ancestor. */
  lemma AcyclicMeansNoLoop(t: Tree)
    ensures Acyclic(t) <==> forall id :: !ProperAncestor(t, id, id)
  {
    if Acyclic(t) {
      forall id ensures !ProperAncestor(t, id, id) {
        if ProperAncestor(t, id, id) {
          var k: nat :| k > 0 && Up(t, id, k) == Some(id);
          UpEnds(t, id, k, Depth(t, id));
          EndsUnique(t, id, Depth(t, id), Depth(t, id) - k);
        }
      }
    }
    if forall id :: !ProperAncestor(t, id, id) {
      forall id | id in t ensures Stops(t, id) {
        NoLoopStops(t, id, {});
      }
    }
  }

  /** `seen` holds contents already visited on the way up to `id`. */
  lemma {:induction false} NoLoopStops(t: Tree, id: ContentId, seen: set<ContentId>)
    requires forall x :: !ProperAncestor(t, x, x)
    requires seen <= t.Keys && id in t
    requires forall x :: x in seen ==> ProperAncestor(t, id, x)
    ensures Stops(t, id)
    decreases |t.Keys - seen|
  {
    assert id !in seen;
    if t[id].parent.Some? && t[id].parent.value in t {
      var p := t[id].parent.value;
      forall x | x in seen + {id} ensures ProperAncestor(t, p, x) {
        assert Up(t, id, 0) == Some(id);
        var k: nat :| Up(t, x, k) == Some(id);
        UpOneMore(t, x, k);
        assert Up(t, x, k + 1) == Some(p);
      }
      assert t.Keys - (seen + {id}) == (t.Keys - seen) - {id};
      NoLoopStops(t, p, seen + {id});
    } else if t[id].parent.Some? {
      assert Ends(t, t[id].parent.value, 0);
    }
    StopsFromParent(t, id);
  }

  // ---- Removing the children of a content one after the other

  ghost predicate ChildrenOf(t: Tree, id: ContentId, ids: seq<ContentId>) {
    forall x :: x in ids <==> x in t && t[x].parent == Some(id)
  }

  /** The first `n` of `ids` with all their descendants. */
  ghost function Covered(t: Tree, ids: seq<ContentId>, n: nat): set<ContentId>
    requires n <= |ids|
  {
    if n == 0 then {} else Covered(t, ids, n - 1) + Subtree(t, ids[n - 1])
  }

  lemma {:induction false} InCovered(t: Tree, ids: seq<ContentId>, n: nat, x: ContentId)
    requires n <= |ids|
    ensures x in Covered(t, ids, n) <==> x in t && exists k :: 0 <= k < n && Under(t, ids[k], x)
  {
    if n > 0 {
      InCovered(t, ids, n - 1, x);
    }
  }

  /** `u` is `t` without the first `n` children and their descendants. */
  ghost predicate Pruned(t: Tree, u: Tree, children: seq<ContentId>, n: nat) {
    && n <= |children|
    && u == t - Covered(t, children, n)
    && IsForest(u)
  }

  lemma PruneStep(t: Tree, u: Tree, id: ContentId, children: seq<ContentId>, i: nat)
    requires IsForest(t) && Pruned(t, u, children, i) && i < |children| && ChildrenOf(t, id, children)
    ensures Subtree(u, children[i]) < Subtree(t, id)
    ensures forall x :: x in u ==> (x in Subtree(u, children[i]) <==> x in Subtree(t, children[i]))
    ensures Pruned(t, u - Subtree(u, children[i]), children, i + 1)
  {
    var c := children[i];
    assert c in children;
    forall x, r | x in u ensures Under(u, r, x) <==> Under(t, r, x) {
      Frame(u, t, u.Keys, x);
    }
    SmallerSubtree(t, u, id, c);
    RemoveSubtree(u, c);
    assert u - Subtree(u, c) == t - (Covered(t, children, i) + Subtree(t, c));
  }

  /** Neither the content itself nor a child whose turn has not come is below an earlier child. */
  lemma StillThere(t: Tree, id: ContentId, children: seq<ContentId>, n: nat, x: ContentId)
    requires IsForest(t) && ChildrenOf(t, id, children) && n <= |children| && x in t
    requires x == id || (t[x].parent == Some(id) && x !in children[..n])
    ensures x !in Covered(t, children, n)
  {
    InCovered(t, children, n, x);
    forall k | 0 <= k < n && Under(t, children[k], x) ensures false {
      assert children[k] in children;
      assert children[k] == children[..n][k];
      UnderStep(t, children[k], x);
      assert Under(t, children[k], id);
      UnderDepth(t, children[k], id);
      DepthStep(t, children[k]);
    }
  }

  lemma PruneDone(t: Tree, id: ContentId, children: seq<ContentId>)
    requires IsForest(t) && ChildrenOf(t, id, children)
    ensures forall x :: x in t ==> (x in Subtree(t, id) <==> x == id || x in Covered(t, children, |children|))
  {
    forall x | x in t ensures x in Subtree(t, id) <==> x == id || x in Covered(t, children, |children|) {
      UnderChild(t, id, x);
      InCovered(t, children, |children|, x);
      forall c | c in t && t[c].parent == Some(id) && Under(t, c, x)
        ensures exists k :: 0 <= k < |children| && Under(t, children[k], x)
      {
        assert c in children;
      }
    }
  }

  /** A child's subtree, in a tree that only lost other subtrees, is smaller than its parent's. */
  lemma SmallerSubtree(t: Tree, now: Tree, id: ContentId, child: ContentId)
    requires IsForest(t) && child in t && t[child].parent == Some(id)
    requires forall x :: x in now ==> x in t
    requires forall x, r :: x in now ==> (Under(now, r, x) <==> Under(t, r, x))
    ensures Subtree(now, child) < Subtree(t, id)
  {
    UnderStep(t, id, id);
    UnderStep(t, id, child);
    forall x | x in Subtree(now, child) ensures x in Subtree(t, id) {
      UnderTransitive(t, id, child, x);
    }
    if Under(t, child, id) {
      UnderDepth(t, child, id);
      DepthStep(t, child);
    }
    assert id in Subtree(t, id) && id !in Subtree(now, child);
  }

  /** Descendants are reached through a child. */
  lemma {:induction false} UnderChild(t: Tree, id: ContentId, x: ContentId)
    requires IsForest(t) && x in t
    ensures Under(t, id, x) <==> x == id || exists c :: c in t && t[c].parent == Some(id) && Under(t, c, x)
    decreases Depth(t, x)
  {
    UnderStep(t, id, x);
    if x != id && Under(t, id, x) {
      var p := t[x].parent.value;
      DepthStep(t, x);
      UnderChild(t, id, p);
      if p == id {
        UnderStep(t, x, x);
      } else {
        var c :| c in t && t[c].parent == Some(id) && Under(t, c, p);
        UnderStep(t, c, x);
      }
    }
    forall c | c in t && t[c].parent == Some(id) && Under(t, c, x) ensures Under(t, id, x) {
      UnderStep(t, id, id);
      UnderStep(t, id, c);
      UnderTransitive(t, id, c, x);
    }
  }
}
