/**
 The database state: one row per content, holding its relative path, which is also
 an index with a uniqueness constraint.
 */
module DiskState {
  import opened Wrappers
  import opened Forest
  import opened Contents
  import opened Disk

  datatype Row = Row(path: Path, revision: int, parent: Option<ContentId>, timestamp: nat)

  type Rows = map<ContentId, Row>

  datatype StateError = UnknownContent(id: ContentId) | PathAlreadyExist(path: Path, id: ContentId) | Unexpected

  datatype StateModification =
    | Forgot(id: ContentId)
    | Add(content: Content, path: Path, timestamp: nat)
    | Update(id: ContentId, name: Name, revision: int, parent: Option<ContentId>, timestamp: nat)

  /** A content is named by the last component of its stored path. */
  ghost function TreeOfRows(rows: Rows): Tree {
    map id | id in rows :: Node(LastName(rows[id].path), rows[id].parent)
  }

  /** What the table enforces. */
  ghost predicate Table(rows: Rows) {
    && (forall id :: id in rows ==> rows[id].path != [])
    && (forall a, b :: a in rows && b in rows && rows[a].path == rows[b].path ==> a == b)
  }

  /** The database invariant: unique paths, parents present, no cycle. */
  ghost predicate Sound(rows: Rows) {
    Table(rows) && IsForest(TreeOfRows(rows))
  }

  predicate PathTaken(rows: Rows, p: Path) {
    exists id :: id in rows && rows[id].path == p
  }

  predicate PathTakenByOther(rows: Rows, p: Path, id: ContentId) {
    exists x :: x in rows && x != id && rows[x].path == p
  }

  function AddRow(rows: Rows, content: Content, path: Path, timestamp: nat): Result<Rows, StateError> {
    if PathTaken(rows, path) then Err(PathAlreadyExist(path, content.id))
    else if content.id in rows then Err(Unexpected)
    else Ok(rows[content.id := Row(path, content.revision, content.parent, timestamp)])
  }

  /** The new path goes through the new parent; without a path for that parent only the name is left. */
  ghost function NewPath(rows: Rows, name: Name, parent: Option<ContentId>): Path {
    match ChildPath(TreeOfRows(rows), parent, name)
    case Some(p) => p
    case None => [name]
  }

  ghost function UpdateRow(
    rows: Rows, id: ContentId, name: Name, revision: int, parent: Option<ContentId>, timestamp: nat
  ): Result<Rows, StateError> {
    var path := NewPath(rows, name, parent);
    if id !in rows then Ok(rows)
    else if PathTakenByOther(rows, path, id) then Err(Unexpected)
    else Ok(rows[id := Row(path, revision, parent, timestamp)])
  }

  ghost function ForgetTree(rows: Rows, id: ContentId): Rows {
    rows - Subtree(TreeOfRows(rows), id)
  }

  ghost function ChangeRows(rows: Rows, m: StateModification): Result<Rows, StateError> {
    match m
    case Forgot(id) => Ok(ForgetTree(rows, id))
    case Add(content, path, timestamp) => AddRow(rows, content, path, timestamp)
    case Update(id, name, revision, parent, timestamp) => UpdateRow(rows, id, name, revision, parent, timestamp)
  }

  ghost predicate AreChildren(rows: Rows, id: ContentId, ids: seq<ContentId>) {
    ChildrenOf(TreeOfRows(rows), id, ids)
  }

  class DiskState {
    var rows: Rows

    constructor ()
      ensures rows == map[]
    {
      rows := map[];
    }

    /** The type of the content is read from the disk, at the stored path; a content cannot be its own parent. */
    method Get(id: ContentId, disk: Disk) returns (r: Result<Option<Content>, StateError>)
      requires Table(rows)
      ensures r == Ok(None) <==> id !in rows
      ensures r.Err? <==> id in rows && rows[id].parent == Some(id)
      ensures r.Ok? && r.value.Some? ==>
                r.value.value ==
                Content(id, rows[id].revision, LastName(rows[id].path), rows[id].parent, TypeAt(disk, rows[id].path))
    {
      if id !in rows {
        return Ok(None);
      }
      var row := rows[id];
      if row.parent == Some(id) {
        return Err(Unexpected);
      }
      r := Ok(Some(Content(id, row.revision, LastName(row.path), row.parent, TypeAt(disk, row.path))));
    }

    method ContentIdForPath(path: Path) returns (r: Option<ContentId>)
      requires Table(rows)
      ensures forall id :: id in rows && rows[id].path == path <==> r == Some(id)
    {
      if id :| id in rows && rows[id].path == path {
        return Some(id);
      }
      r := None;
    }

    method Path(id: ContentId) returns (r: Result<Path, StateError>)
      requires Stops(TreeOfRows(rows), id)
      ensures r.Ok? <==> PathOf(TreeOfRows(rows), id).Some?
      ensures r.Ok? ==> r.value == PathOf(TreeOfRows(rows), id).value
      ensures r == Err(UnknownContent(id)) <==> id !in rows
    {
      ghost var t := TreeOfRows(rows);
      PathStep(t, id);
      if id !in rows {
        return Err(UnknownContent(id));
      }
      var parts := [LastName(rows[id].path)];
      var current := rows[id];
      ghost var at := id;
      while current.parent.Some?
        invariant at in rows && rows[at] == current && Stops(t, at)
        invariant PathOf(t, id) == Extend(FolderPath(t, current.parent), parts)
        decreases Depth(t, at)
      {
        var parentId := current.parent.value;
        DepthStep(t, at);
        PathStep(t, parentId);
        if parentId !in rows {
          return Err(Unexpected);
        }
        at, current := parentId, rows[parentId];
        var name := LastName(current.path);
        ghost var above := FolderPath(t, current.parent);
        assert above.Some? ==> above.value + [name] + parts == above.value + ([name] + parts);
        parts := [name] + parts;
      }
      assert [] + parts == parts;
      r := Ok(parts);
    }

    method DirectChildrenIds(id: ContentId) returns (r: seq<ContentId>)
      ensures AreChildren(rows, id, r)
    {
      r := [];
      var left: set<ContentId> := rows.Keys;
      while left != {}
        invariant left <= rows.Keys
        invariant forall x :: x in r <==> x in rows && x !in left && rows[x].parent == Some(id)
        decreases left
      {
        SomeId(left);
        var x :| x in left;
        left := left - {x};
        if rows[x].parent == Some(id) {
          r := r + [x];
        }
      }
    }

    method Forgot(id: ContentId)
      modifies this
      ensures rows == old(rows) - {id}
    {
      rows := rows - {id};
    }

    /** Removes exactly the content and all its descendants. */
    method ForgotWithChildren(id: ContentId)
      requires IsForest(TreeOfRows(rows))
      modifies this
      ensures rows == ForgetTree(old(rows), id)
      decreases Subtree(TreeOfRows(rows), id)
    {
      ghost var before := rows;
      var children := DirectChildrenIds(id);
      LacksNothing(rows, children);
      for i := 0 to |children|
        invariant LacksChildren(before, rows, children, i)
      {
        LacksOneMore(before, rows, id, children, i);
        ForgotWithChildren(children[i]);
      }
      LacksAll(before, rows, id, children);
      Forgot(id);
    }

    method Add(content: Content, path: Path, timestamp: nat) returns (r: Result<(), StateError>)
      modifies this
      ensures match AddRow(old(rows), content, path, timestamp)
              case Ok(now) => r == Ok(()) && rows == now
              case Err(e) => r == Err(e) && rows == old(rows)
    {
      if PathTaken(rows, path) {
        return Err(PathAlreadyExist(path, content.id));
      }
      if content.id in rows {
        return Err(Unexpected);
      }
      rows := rows[content.id := Row(path, content.revision, content.parent, timestamp)];
      r := Ok(());
    }

    method Update(id: ContentId, name: Name, revision: int, parent: Option<ContentId>, timestamp: nat)
      returns (r: Result<(), StateError>)
      requires Acyclic(TreeOfRows(rows))
      modifies this
      ensures match UpdateRow(old(rows), id, name, revision, parent, timestamp)
              case Ok(now) => r == Ok(()) && rows == now
              case Err(e) => r == Err(e) && rows == old(rows)
    {
      var newPath := [name];
      if parent.Some? {
        if parent.value !in rows {
          assert Ends(TreeOfRows(rows), parent.value, 0);
        }
        var parentPath := Path(parent.value);
        if parentPath.Ok? {
          newPath := parentPath.value + [name];
        }
      } else {
        assert [] + [name] == [name];
      }
      assert newPath == NewPath(rows, name, parent);
      if id in rows {
        if PathTakenByOther(rows, newPath, id) {
          return Err(Unexpected);
        }
        rows := rows[id := Row(newPath, revision, parent, timestamp)];
      }
      r := Ok(());
    }

    method Change(m: StateModification) returns (r: Result<(), StateError>)
      requires IsForest(TreeOfRows(rows))
      modifies this
      ensures match ChangeRows(old(rows), m)
              case Ok(now) => r == Ok(()) && rows == now
              case Err(e) => r == Err(e) && rows == old(rows)
    {
      match m {
        case Forgot(id) =>
          ForgotWithChildren(id);
          r := Ok(());
        case Add(content, path, timestamp) =>
          r := Add(content, path, timestamp);
        case Update(id, name, revision, parent, timestamp) =>
          r := Update(id, name, revision, parent, timestamp);
      }
    }
  }

  // ---- Removing a content with its descendants

  lemma ForgetsOneTree(rows: Rows, id: ContentId)
    requires IsForest(TreeOfRows(rows))
    ensures var now := ForgetTree(rows, id);
            && IsForest(TreeOfRows(now))
            && (forall x, r :: x in now ==> (Under(TreeOfRows(now), r, x) <==> Under(TreeOfRows(rows), r, x)))
            && (forall x :: x in now ==> PathOf(TreeOfRows(now), x) == PathOf(TreeOfRows(rows), x))
  {
    var t := TreeOfRows(rows);
    RemoveSubtree(t, id);
    assert TreeOfRows(ForgetTree(rows, id)) == t - Subtree(t, id);
  }

  /** `now` is `before` without the first `n` children and their descendants. */
  ghost predicate LacksChildren(before: Rows, now: Rows, children: seq<ContentId>, n: nat) {
    && n <= |children|
    && now == before - Covered(TreeOfRows(before), children, n)
    && Pruned(TreeOfRows(before), TreeOfRows(now), children, n)
  }

  lemma LacksNothing(before: Rows, children: seq<ContentId>)
    requires IsForest(TreeOfRows(before))
    ensures LacksChildren(before, before, children, 0)
  {
    assert before - {} == before;
    assert TreeOfRows(before) - {} == TreeOfRows(before);
  }

  lemma LacksOneMore(before: Rows, now: Rows, id: ContentId, children: seq<ContentId>, i: nat)
    requires IsForest(TreeOfRows(before)) && LacksChildren(before, now, children, i) && i < |children|
    requires AreChildren(before, id, children)
    ensures Subtree(TreeOfRows(now), children[i]) < Subtree(TreeOfRows(before), id)
    ensures LacksChildren(before, ForgetTree(now, children[i]), children, i + 1)
  {
    hide Subtree, IsForest, LastName;
    PruneStep(TreeOfRows(before), TreeOfRows(now), id, children, i);
    var left := ForgetTree(now, children[i]);
    assert TreeOfRows(left) == TreeOfRows(now) - Subtree(TreeOfRows(now), children[i]);
    assert left == before - Covered(TreeOfRows(before), children, i + 1);
  }

  lemma LacksAll(before: Rows, now: Rows, id: ContentId, children: seq<ContentId>)
    requires IsForest(TreeOfRows(before)) && LacksChildren(before, now, children, |children|)
    requires AreChildren(before, id, children)
    ensures now - {id} == ForgetTree(before, id)
  {
    PruneDone(TreeOfRows(before), id, children);
  }

  // ---- What a change keeps

  /** The parent is the root, or a stored content outside the subtree of `id`. */
  ghost predicate CanBeParent(rows: Rows, id: ContentId, parent: Option<ContentId>) {
    parent.Some? ==> parent.value in rows && !Under(TreeOfRows(rows), id, parent.value)
  }

  lemma AddKeepsSound(rows: Rows, content: Content, path: Path, timestamp: nat)
    requires Sound(rows) && path != [] && AddRow(rows, content, path, timestamp).Ok?
    requires content.parent.Some? ==> content.parent.value in rows
    ensures var now := AddRow(rows, content, path, timestamp).value;
            && Sound(now)
            && TreeOfRows(now) == TreeOfRows(rows)[content.id := Node(LastName(path), content.parent)]
  {
    var now := AddRow(rows, content, path, timestamp).value;
    assert TreeOfRows(now) == TreeOfRows(rows)[content.id := Node(LastName(path), content.parent)];
    AddLeaf(TreeOfRows(rows), content.id, Node(LastName(path), content.parent));
  }

  lemma NewPathLast(rows: Rows, name: Name, parent: Option<ContentId>)
    ensures NewPath(rows, name, parent) != [] && LastName(NewPath(rows, name, parent)) == name
  {
  }

  lemma UpdateKeepsSound(
    rows: Rows, id: ContentId, name: Name, revision: int, parent: Option<ContentId>, timestamp: nat
  )
    requires Sound(rows) && id in rows && CanBeParent(rows, id, parent)
    requires UpdateRow(rows, id, name, revision, parent, timestamp).Ok?
    ensures var now := UpdateRow(rows, id, name, revision, parent, timestamp).value;
            Sound(now) && TreeOfRows(now) == TreeOfRows(rows)[id := Node(name, parent)]
  {
    var now := UpdateRow(rows, id, name, revision, parent, timestamp).value;
    NewPathLast(rows, name, parent);
    assert TreeOfRows(now) == TreeOfRows(rows)[id := Node(name, parent)];
    Reparent(TreeOfRows(rows), id, Node(name, parent));
  }

  lemma ForgetKeepsSound(rows: Rows, id: ContentId)
    requires Sound(rows)
    ensures Sound(ForgetTree(rows, id))
  {
    ForgetsOneTree(rows, id);
  }

  /**
   The row as the caller gave it, at the path through its new parent, or at the root when
   that parent has no path; no other row changes. An absent content is no error, and the
   path of another row is.
   */
  lemma UpdateStores(rows: Rows, id: ContentId, name: Name, revision: int, parent: Option<ContentId>, timestamp: nat)
    ensures var r := UpdateRow(rows, id, name, revision, parent, timestamp);
            var above := FolderPath(TreeOfRows(rows), parent);
            var path := (if above.Some? then above.value else []) + [name];
            && (id !in rows ==> r == Ok(rows))
            && (r.Err? <==> id in rows && exists x :: x in rows && x != id && rows[x].path == path)
            && (r.Err? ==> r.error == Unexpected)
            && (r.Ok? && id in rows ==>
                  && r.value.Keys == rows.Keys
                  && r.value[id].path == path && r.value[id].timestamp == timestamp
                  && r.value[id].revision == revision && r.value[id].parent == parent
                  && forall x :: x in rows && x != id ==> r.value[x] == rows[x])
    ensures Sound(rows) ==>
              (FolderPath(TreeOfRows(rows), parent).Some? <==> parent.None? || parent.value in rows)
  {
    if parent.Some? && Sound(rows) && parent.value in rows {
      assert parent.value in TreeOfRows(rows);
      PathDefined(TreeOfRows(rows), parent.value);
    }
  }

  lemma AddStores(rows: Rows, content: Content, path: Path, timestamp: nat)
    ensures var r := AddRow(rows, content, path, timestamp);
            && (r.Err? <==> content.id in rows || exists x :: x in rows && rows[x].path == path)
            && (r == Err(PathAlreadyExist(path, content.id)) <==> exists x :: x in rows && rows[x].path == path)
            && (r.Ok? ==>
                  && r.value.Keys == rows.Keys + {content.id}
                  && r.value[content.id].path == path && r.value[content.id].timestamp == timestamp
                  && r.value[content.id].revision == content.revision && r.value[content.id].parent == content.parent
                  && forall x :: x in rows ==> r.value[x] == rows[x])
  {
  }
}
