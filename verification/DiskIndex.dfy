/**
 The stored path of a row is an index over the path rebuilt through the parents.
 It answers like the in-memory state as long as no folder with children moves, and
 after such a move exactly the descendants' rows are stale.
 */
module DiskIndex {
  import opened Wrappers
  import opened Forest
  import opened Contents
  import opened Disk
  import opened DiskState
  import M = MemoryState

  /** Every stored path is the path rebuilt through the parents. */
  ghost predicate Agrees(rows: Rows) {
    forall id :: id in rows ==> PathOf(TreeOfRows(rows), id) == Some(rows[id].path)
  }

  ghost predicate Stale(rows: Rows, id: ContentId) {
    id in rows && PathOf(TreeOfRows(rows), id) != Some(rows[id].path)
  }

  ghost predicate Childless(rows: Rows, id: ContentId) {
    forall x :: x in rows ==> rows[x].parent != Some(id)
  }

  /**
   After moving or renaming a content, the parent walk gives every content its right
   path, while the stale rows are exactly the strict descendants of a content whose
   path changed.
   */
  lemma ExactStaleness(rows: Rows, id: ContentId, name: Name, revision: int, parent: Option<ContentId>, timestamp: nat)
    requires Sound(rows) && Agrees(rows) && id in rows && CanBeParent(rows, id, parent)
    requires UpdateRow(rows, id, name, revision, parent, timestamp).Ok?
    ensures var t := TreeOfRows(rows);
            var now := UpdateRow(rows, id, name, revision, parent, timestamp).value;
            var path := NewPath(rows, name, parent);
            && Sound(now)
            && (forall x :: x in rows && !Under(t, id, x) ==> PathOf(TreeOfRows(now), x) == Some(rows[x].path))
            && (forall x :: x in rows && Under(t, id, x) ==>
                  rows[id].path <= rows[x].path &&
                  PathOf(TreeOfRows(now), x) == Some(path + rows[x].path[|rows[id].path|..]))
            && (forall x :: x in rows ==>
                  (Stale(now, x) <==> x != id && Under(t, id, x) && path != rows[id].path))
  {
    var t := TreeOfRows(rows);
    var now := UpdateRow(rows, id, name, revision, parent, timestamp).value;
    var path := NewPath(rows, name, parent);
    UpdateKeepsSound(rows, id, name, revision, parent, timestamp);
    Reparent(t, id, Node(name, parent));
    assert PathOf(TreeOfRows(now), id) == Some(path);
    forall x | x in rows
      ensures Stale(now, x) <==> x != id && Under(t, id, x) && path != rows[id].path
    {
      UnderStep(t, id, id);
      if Under(t, id, x) && x != id {
        SuffixDecides(rows[id].path, path, rows[x].path);
      }
    }
  }

  lemma SuffixDecides(before: Path, after: Path, p: Path)
    requires before <= p
    ensures after + p[|before|..] == p <==> after == before
  {
    var q := after + p[|before|..];
    if after == before {
      assert q == p;
    }
    assert |q| == |p| <==> |after| == |before|;
    assert q[..|after|] == after;
  }

  lemma {:induction false} StrictDescendantMeansChild(rows: Rows, id: ContentId, x: ContentId)
    requires Sound(rows) && Under(TreeOfRows(rows), id, x) && x != id
    ensures !Childless(rows, id)
  {
    UnderChild(TreeOfRows(rows), id, x);
  }

  /** The index survives an update exactly when the path is unchanged or the content has no child. */
  lemma UpdateKeepsIndexExactly(
    rows: Rows, id: ContentId, name: Name, revision: int, parent: Option<ContentId>, timestamp: nat
  )
    requires Sound(rows) && Agrees(rows) && id in rows && CanBeParent(rows, id, parent)
    requires UpdateRow(rows, id, name, revision, parent, timestamp).Ok?
    ensures Agrees(UpdateRow(rows, id, name, revision, parent, timestamp).value) <==>
            NewPath(rows, name, parent) == rows[id].path || Childless(rows, id)
  {
    var t := TreeOfRows(rows);
    var now := UpdateRow(rows, id, name, revision, parent, timestamp).value;
    ExactStaleness(rows, id, name, revision, parent, timestamp);
    assert now.Keys == rows.Keys;
    if !Childless(rows, id) {
      var c :| c in rows && rows[c].parent == Some(id);
      UnderStep(t, id, id);
      UnderStep(t, id, c);
      if c == id {
        DepthStep(t, id);
      }
      assert Stale(now, c) <==> NewPath(rows, name, parent) != rows[id].path;
    } else {
      forall x | x in rows ensures !Stale(now, x) {
        if x != id && Under(t, id, x) {
          StrictDescendantMeansChild(rows, id, x);
        }
      }
    }
    if !Agrees(now) {
      var x :| x in now && PathOf(TreeOfRows(now), x) != Some(now[x].path);
      assert Stale(now, x);
    }
  }

  lemma AddKeepsIndex(rows: Rows, content: Content, path: Path, timestamp: nat)
    requires Sound(rows) && Agrees(rows)
    requires content.parent.Some? ==> content.parent.value in rows
    requires ChildPath(TreeOfRows(rows), content.parent, content.name) == Some(path)
    requires AddRow(rows, content, path, timestamp).Ok?
    ensures Sound(AddRow(rows, content, path, timestamp).value)
    ensures Agrees(AddRow(rows, content, path, timestamp).value)
  {
    assert LastName(path) == content.name;
    AddKeepsSound(rows, content, path, timestamp);
    AddLeaf(TreeOfRows(rows), content.id, Node(content.name, content.parent));
  }

  lemma ForgetKeepsIndex(rows: Rows, id: ContentId)
    requires Sound(rows) && Agrees(rows)
    ensures Sound(ForgetTree(rows, id)) && Agrees(ForgetTree(rows, id))
  {
    ForgetKeepsSound(rows, id);
    ForgetsOneTree(rows, id);
  }

  // ---- The database refines the in-memory state

  ghost function ApplyToRows(rows: Rows, op: M.Op): Result<Rows, StateError> {
    match op
    case AddContent(content, timestamp) =>
      AddRow(rows, content, NewPath(rows, content.name, content.parent), timestamp)
    case ForgetContent(id) => Ok(ForgetTree(rows, id))
    case UpdateContent(id, name, revision, parent, timestamp) =>
      UpdateRow(rows, id, name, revision, parent, timestamp)
  }

  /** A step whose statement succeeds, links only stored contents, closes no cycle and moves no folder with children. */
  ghost predicate Legal(rows: Rows, op: M.Op) {
    && ApplyToRows(rows, op).Ok?
    && match op
       case AddContent(content, _) => content.parent.Some? ==> content.parent.value in rows
       case ForgetContent(id) => id in rows
       case UpdateContent(id, name, revision, parent, timestamp) =>
         && id in rows && CanBeParent(rows, id, parent)
         && (NewPath(rows, name, parent) == rows[id].path || Childless(rows, id))
  }

  ghost predicate LegalRun(rows: Rows, ops: seq<M.Op>)
    decreases |ops|
  {
    ops == [] || (Legal(rows, ops[0]) && LegalRun(ApplyToRows(rows, ops[0]).value, ops[1..]))
  }

  ghost function RunRows(rows: Rows, ops: seq<M.Op>): Rows
    requires LegalRun(rows, ops)
    decreases |ops|
  {
    if ops == [] then rows else RunRows(ApplyToRows(rows, ops[0]).value, ops[1..])
  }

  ghost function RunMemory(memory: M.Memory, ops: seq<M.Op>): M.Memory
    decreases |ops|
  {
    if ops == [] then memory else RunMemory(M.ApplyToMemory(memory, ops[0]), ops[1..])
  }

  /** The same contents, with the same names, parents and revisions. */
  ghost predicate Represents(rows: Rows, memory: M.Memory) {
    && rows.Keys == memory.Keys
    && TreeOfRows(rows) == TreeOf(memory)
    && forall id :: id in rows ==> rows[id].revision == memory[id].revision
  }

  lemma StepRefines(rows: Rows, memory: M.Memory, op: M.Op)
    requires Sound(rows) && Agrees(rows) && Represents(rows, memory) && Legal(rows, op)
    ensures var now := ApplyToRows(rows, op).value;
            Sound(now) && Agrees(now) && Represents(now, M.ApplyToMemory(memory, op))
  {
    match op
    case AddContent(content, timestamp) => AddRefines(rows, memory, content, timestamp);
    case ForgetContent(id) => ForgetRefines(rows, memory, id);
    case UpdateContent(id, name, revision, parent, timestamp) =>
      UpdateKeepsSound(rows, id, name, revision, parent, timestamp);
      UpdateKeepsIndexExactly(rows, id, name, revision, parent, timestamp);
      UpdateRepresents(rows, memory, id, name, revision, parent, timestamp);
  }

  lemma AddRefines(rows: Rows, memory: M.Memory, content: Content, timestamp: nat)
    requires Sound(rows) && Agrees(rows) && Represents(rows, memory) && Legal(rows, M.AddContent(content, timestamp))
    ensures var now := ApplyToRows(rows, M.AddContent(content, timestamp)).value;
            Sound(now) && Agrees(now) && Represents(now, memory[content.id := content])
  {
    var path := NewPath(rows, content.name, content.parent);
    var now := AddRow(rows, content, path, timestamp).value;
    if content.parent.Some? {
      PathDefined(TreeOfRows(rows), content.parent.value);
    }
    AddKeepsIndex(rows, content, path, timestamp);
    NewPathLast(rows, content.name, content.parent);
    AddKeepsSound(rows, content, path, timestamp);
    assert TreeOf(memory[content.id := content]) == TreeOf(memory)[content.id := Node(content.name, content.parent)];
  }

  lemma ForgetRefines(rows: Rows, memory: M.Memory, id: ContentId)
    requires Sound(rows) && Agrees(rows) && Represents(rows, memory)
    ensures var now := ForgetTree(rows, id);
            Sound(now) && Agrees(now) && Represents(now, memory - Subtree(TreeOf(memory), id))
  {
    ForgetKeepsIndex(rows, id);
    StillRepresents(rows, memory, Subtree(TreeOfRows(rows), id));
  }

  lemma StillRepresents(rows: Rows, memory: M.Memory, gone: set<ContentId>)
    requires Represents(rows, memory)
    ensures Represents(rows - gone, memory - gone)
  {
    assert TreeOfRows(rows - gone) == TreeOfRows(rows) - gone;
    assert TreeOf(memory - gone) == TreeOf(memory) - gone;
  }

  lemma UpdateRepresents(
    rows: Rows, memory: M.Memory,
    id: ContentId, name: Name, revision: int, parent: Option<ContentId>, timestamp: nat
  )
    requires Represents(rows, memory) && id in rows
    requires UpdateRow(rows, id, name, revision, parent, timestamp).Ok?
    requires TreeOfRows(UpdateRow(rows, id, name, revision, parent, timestamp).value) ==
             TreeOfRows(rows)[id := Node(name, parent)]
    ensures Represents(UpdateRow(rows, id, name, revision, parent, timestamp).value,
                       memory[id := memory[id].(name := name, revision := revision, parent := parent)])
  {
    var content := memory[id].(name := name, revision := revision, parent := parent);
    assert TreeOf(memory[id := content]) == TreeOf(memory)[id := Node(name, parent)];
  }

  /** Over whole runs the index stays right and the database holds what the in-memory state holds. */
  lemma {:induction false} RunRefines(rows: Rows, memory: M.Memory, ops: seq<M.Op>)
    requires Sound(rows) && Agrees(rows) && Represents(rows, memory) && LegalRun(rows, ops)
    ensures var now := RunRows(rows, ops);
            Sound(now) && Agrees(now) && Represents(now, RunMemory(memory, ops))
    decreases |ops|
  {
    if ops != [] {
      StepRefines(rows, memory, ops[0]);
      RunRefines(ApplyToRows(rows, ops[0]).value, M.ApplyToMemory(memory, ops[0]), ops[1..]);
    }
  }

  /** On such states, a lookup in the index and a search through the rebuilt paths answer alike. */
  lemma LookupsAgree(rows: Rows, memory: M.Memory, path: Path, id: ContentId)
    requires Sound(rows) && Agrees(rows) && Represents(rows, memory)
    ensures id in rows && rows[id].path == path <==> id in memory && PathOf(TreeOf(memory), id) == Some(path)
    ensures UniqueSiblings(TreeOf(memory))
  {
    var t := TreeOfRows(rows);
    forall a, b | a in t && b in t && t[a] == t[b] ensures a == b {
      PathStep(t, a);
      PathStep(t, b);
      assert a in rows && b in rows;
    }
  }
}
