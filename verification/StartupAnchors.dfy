/**
 What the startup synchronization keeps although a moved folder leaves the rows below it
 stale. Some contents are anchors: their own parents are anchors too, and none of them
 moves with contents below it. A row below an anchor holds the right path, and whatever
 happens to the other rows happens on disk in places where no such row is.
 */
module StartupAnchors {
  import opened Wrappers
  import opened Forest
  import opened Contents
  import opened Disk
  import opened DiskMoves
  import opened DiskState
  import opened DiskIndex
  import opened Executors
  import opened Startup

  // ---- Rows below an anchor

  ghost predicate Anchored(rows: Rows, anchors: set<ContentId>, x: ContentId) {
    x in rows && (rows[x].parent.Some? ==> rows[x].parent.value in anchors)
  }

  /** Anchors are themselves below anchors, and every row below an anchor holds its right path. */
  ghost predicate Rooted(rows: Rows, anchors: set<ContentId>) {
    && (forall x :: x in anchors && x in rows ==> Anchored(rows, anchors, x))
    && (forall x :: Anchored(rows, anchors, x) ==> PathOf(TreeOfRows(rows), x) == Some(rows[x].path))
  }

  /** A place on disk below a content that is no anchor. */
  ghost predicate Unsteady(rows: Rows, anchors: set<ContentId>, q: Path) {
    exists o :: Anchored(rows, anchors, o) && o !in anchors && rows[o].path < q
  }

  ghost predicate Held(rows: Rows, anchors: set<ContentId>, q: Path) {
    exists r :: Anchored(rows, anchors, r) && rows[r].path == q
  }

  lemma ParentOf(rows: Rows, x: ContentId)
    requires Sound(rows) && x in rows && rows[x].parent.Some?
    ensures var p := rows[x].parent.value;
            && p in rows && p != x
            && Depth(TreeOfRows(rows), p) < Depth(TreeOfRows(rows), x)
            && PathOf(TreeOfRows(rows), p).Some?
            && PathOf(TreeOfRows(rows), x) == Some(PathOf(TreeOfRows(rows), p).value + [LastName(rows[x].path)])
            && forall r :: Under(TreeOfRows(rows), r, x) <==> r == x || Under(TreeOfRows(rows), r, p)
  {
    var t := TreeOfRows(rows);
    assert x in t;
    DepthStep(t, x);
    PathStep(t, x);
    PathDefined(t, t[x].parent.value);
    forall r ensures Under(t, r, x) <==> r == x || Under(t, r, t[x].parent.value) {
      UnderStep(t, r, x);
    }
  }

  /** The path of a row below an anchor goes through the rows of anchors only. */
  lemma AnchoredStep(rows: Rows, anchors: set<ContentId>, x: ContentId)
    requires Sound(rows) && Rooted(rows, anchors) && Anchored(rows, anchors, x)
    ensures rows[x].parent.None? ==> rows[x].path == [LastName(rows[x].path)]
    ensures rows[x].parent.Some? ==>
              var p := rows[x].parent.value;
              p in rows && p in anchors && Anchored(rows, anchors, p) && rows[x].path == rows[p].path + [LastName(rows[x].path)]
  {
    hide IsForest;
    assert x in TreeOfRows(rows);
    if rows[x].parent.Some? {
      ParentOf(rows, x);
    } else {
      PathStep(TreeOfRows(rows), x);
    }
  }

  lemma {:induction false} AnchoredIsSteady(rows: Rows, anchors: set<ContentId>, x: ContentId)
    requires Sound(rows) && Rooted(rows, anchors) && Anchored(rows, anchors, x)
    ensures !Unsteady(rows, anchors, rows[x].path)
    decreases |rows[x].path|
  {
    hide IsForest, Rooted;
    AnchoredStep(rows, anchors, x);
    if rows[x].parent.Some? {
      var p := rows[x].parent.value;
      AnchoredIsSteady(rows, anchors, p);
      forall o | o in rows && rows[o].path < rows[x].path ensures rows[o].path <= rows[p].path {
      }
    }
  }

  /** Of two rows below anchors, the one with the longer path is below the other. */
  lemma {:induction false} AnchoredBelow(rows: Rows, anchors: set<ContentId>, y: ContentId, x: ContentId)
    requires Sound(rows) && Rooted(rows, anchors) && Anchored(rows, anchors, x) && Anchored(rows, anchors, y)
    requires rows[y].path <= rows[x].path
    ensures Under(TreeOfRows(rows), y, x)
    decreases |rows[x].path|
  {
    AnchoredStep(rows, anchors, x);
    assert x in TreeOfRows(rows);
    UnderStep(TreeOfRows(rows), y, x);
    if x != y {
      assert rows[y].path != rows[x].path && rows[y].path != [];
      var p := rows[x].parent.value;
      assert rows[y].path <= rows[p].path;
      AnchoredBelow(rows, anchors, y, p);
    }
  }

  /** Any row's rebuilt path is held by a row below an anchor, or lies below a content that is no anchor. */
  lemma {:induction false} WalkIsKnown(rows: Rows, anchors: set<ContentId>, x: ContentId)
    requires Sound(rows) && Rooted(rows, anchors) && x in rows
    ensures PathOf(TreeOfRows(rows), x).Some?
    ensures var q := PathOf(TreeOfRows(rows), x).value;
            if Anchored(rows, anchors, x) then Held(rows, anchors, q) else Unsteady(rows, anchors, q)
    decreases Depth(TreeOfRows(rows), x)
  {
    assert x in TreeOfRows(rows);
    PathDefined(TreeOfRows(rows), x);
    if !Anchored(rows, anchors, x) {
      ParentOf(rows, x);
      var p := rows[x].parent.value;
      WalkIsKnown(rows, anchors, p);
      PathBelowToo(rows, anchors, p, PathOf(TreeOfRows(rows), x).value);
    }
  }

  lemma UnsteadyBelow(rows: Rows, anchors: set<ContentId>, p: Path, q: Path)
    requires Unsteady(rows, anchors, p) && p <= q
    ensures Unsteady(rows, anchors, q)
  {
    var o :| Anchored(rows, anchors, o) && o !in anchors && rows[o].path < p;
    assert rows[o].path < q;
  }

  /** What is below the rebuilt path of a content that is no anchor is unsteady. */
  lemma PathBelowToo(rows: Rows, anchors: set<ContentId>, x: ContentId, q: Path)
    requires Rooted(rows, anchors) && x in rows && x !in anchors && PathOf(TreeOfRows(rows), x).Some?
    requires var path := PathOf(TreeOfRows(rows), x).value;
             path < q && (Anchored(rows, anchors, x) || Unsteady(rows, anchors, path))
    ensures Unsteady(rows, anchors, q)
  {
    hide IsForest, PathOf;
    var path := PathOf(TreeOfRows(rows), x).value;
    if Anchored(rows, anchors, x) {
      assert rows[x].path < q;
    } else {
      UnsteadyBelow(rows, anchors, path, q);
    }
  }

  lemma BelowNoAnchor(rows: Rows, anchors: set<ContentId>, x: ContentId, q: Path)
    requires Sound(rows) && Rooted(rows, anchors) && x in rows && x !in anchors
    requires PathOf(TreeOfRows(rows), x).Some? && PathOf(TreeOfRows(rows), x).value < q
    ensures Unsteady(rows, anchors, q)
  {
    WalkIsKnown(rows, anchors, x);
    PathBelowToo(rows, anchors, x, q);
  }

  /** What is below an anchor, or a row below one, is not at or below the rebuilt path of a content that is none. */
  lemma {:induction false} ApartFrom(rows: Rows, anchors: set<ContentId>, x: ContentId, y: ContentId)
    requires Sound(rows) && Rooted(rows, anchors) && x in rows && Anchored(rows, anchors, y) && y != x
    requires PathOf(TreeOfRows(rows), x).Some? && PathOf(TreeOfRows(rows), x).value <= rows[y].path
    ensures x in anchors && Under(TreeOfRows(rows), x, y)
  {
    hide IsForest, PathOf;
    var path := PathOf(TreeOfRows(rows), x).value;
    AnchoredIsSteady(rows, anchors, y);
    WalkIsKnown(rows, anchors, x);
    if !Anchored(rows, anchors, x) {
      UnsteadyBelow(rows, anchors, path, rows[y].path);
    } else {
      assert rows[x].path == path;
      assert rows[x].path != rows[y].path;
      AnchoredBelow(rows, anchors, x, y);
    }
  }

  // ---- The rows and the disk together

  /** The server has a folder of that name somewhere. */
  ghost predicate NamesFolder(remote: RemoteState, name: Name) {
    exists x :: x in remote && remote[x].kind == Folder && remote[x].name == name
  }

  /** No plain file stands where a folder of the server could land, unless it is stored there. */
  ghost predicate FilesKnown(rows: Rows, disk: Disk, remote: RemoteState, anchors: set<ContentId>) {
    forall q :: IsPlain(disk, q) ==>
      Held(rows, anchors, q) || Unsteady(rows, anchors, q) || !NamesFolder(remote, LastName(q))
  }

  ghost predicate FoldersOnDisk(rows: Rows, disk: Disk, anchors: set<ContentId>, needed: set<ContentId>) {
    forall p :: p in needed && p in rows ==> Anchored(rows, anchors, p) && IsDirectory(disk, rows[p].path)
  }

  ghost predicate Orderly(rows: Rows, disk: Disk, remote: RemoteState, anchors: set<ContentId>, needed: set<ContentId>) {
    && Sound(rows) && Rooted(rows, anchors) && DiskTree(disk)
    && FilesKnown(rows, disk, remote, anchors) && FoldersOnDisk(rows, disk, anchors, needed)
  }

  /** On the server too, anchors and needed folders are below anchors. */
  ghost predicate RootedOnServer(remote: RemoteState, anchors: set<ContentId>, needed: set<ContentId>) {
    forall x :: x in remote && (x in anchors || x in needed) && remote[x].parent.Some? ==> remote[x].parent.value in anchors
  }

  // ---- A creation

  lemma RowsGrow(rows: Rows, content: Content, path: Path, timestamp: nat, remote: RemoteState, anchors: set<ContentId>)
    requires Sound(rows) && Rooted(rows, anchors) && content.id in remote && remote[content.id] == content
    requires content.id in anchors && content.parent.Some? ==> content.parent.value in anchors
    requires content.parent.Some? ==> content.parent.value in rows
    requires ChildPath(TreeOfRows(rows), content.parent, content.name) == Some(path)
    requires AddRow(rows, content, path, timestamp).Ok?
    ensures var grown := AddRow(rows, content, path, timestamp).value;
            && Sound(grown) && Rooted(grown, anchors) && LastName(path) == content.name
            && PathOf(TreeOfRows(grown), content.id) == Some(path)
            && (forall x :: x in rows ==> x in grown && grown[x] == rows[x])
            && grown.Keys == rows.Keys + {content.id}
  {
    hide IsForest, PathOf;
    var grown := AddRow(rows, content, path, timestamp).value;
    assert LastName(path) == content.name;
    AddKeepsSound(rows, content, path, timestamp);
    assert Sound(rows);
    AddedPaths(rows, content, path, timestamp);
    forall x | Anchored(grown, anchors, x) ensures PathOf(TreeOfRows(grown), x) == Some(grown[x].path) {
      if x != content.id {
        assert Anchored(rows, anchors, x);
      }
    }
  }

  lemma AddedPaths(rows: Rows, content: Content, path: Path, timestamp: nat)
    requires Sound(rows) && AddRow(rows, content, path, timestamp).Ok? && LastName(path) == content.name
    requires content.parent.Some? ==> content.parent.value in rows
    requires ChildPath(TreeOfRows(rows), content.parent, content.name) == Some(path)
    ensures var grown := AddRow(rows, content, path, timestamp).value;
            && PathOf(TreeOfRows(grown), content.id) == Some(path)
            && forall x :: x in rows ==> PathOf(TreeOfRows(grown), x) == PathOf(TreeOfRows(rows), x)
  {
    var t := TreeOfRows(rows);
    AddKeepsSound(rows, content, path, timestamp);
    AddLeaf(t, content.id, Node(content.name, content.parent));
  }

  /** What was known about places stays known when rows are only added. */
  lemma GrownKnows(rows: Rows, grown: Rows, anchors: set<ContentId>, q: Path)
    requires forall x :: x in rows ==> x in grown && grown[x] == rows[x]
    ensures Held(rows, anchors, q) ==> Held(grown, anchors, q)
    ensures Unsteady(rows, anchors, q) ==> Unsteady(grown, anchors, q)
  {
    if Held(rows, anchors, q) {
      var r :| Anchored(rows, anchors, r) && rows[r].path == q;
      assert Anchored(grown, anchors, r);
    }
    if Unsteady(rows, anchors, q) {
      var o :| Anchored(rows, anchors, o) && o !in anchors && rows[o].path < q;
      assert Anchored(grown, anchors, o);
    }
  }

  lemma CreationKeepsOrder(
    rows: Rows, disk: Disk, now: Disk, content: Content, path: Path, timestamp: nat, remote: RemoteState,
    anchors: set<ContentId>, needed: set<ContentId>
  )
    requires Orderly(rows, disk, remote, anchors, needed) && RootedOnServer(remote, anchors, needed)
    requires content.id in remote && remote[content.id] == content
    requires content.id in needed ==> content.kind == Folder
    requires content.parent.Some? ==> content.parent.value in rows
    requires ChildPath(TreeOfRows(rows), content.parent, content.name) == Some(path)
    requires AddRow(rows, content, path, timestamp).Ok?
    requires Grown(disk, now, path) && (content.kind == Folder && !IsPlain(disk, path) ==> IsDirectory(now, path))
    ensures Orderly(AddRow(rows, content, path, timestamp).value, now, remote, anchors, needed)
  {
    hide IsForest, PathOf, ChildPath, TreeOfRows, Sound, Rooted, DiskTree, Held, Unsteady;
    var grown := AddRow(rows, content, path, timestamp).value;
    RowsGrow(rows, content, path, timestamp, remote, anchors);
    WalkIsKnown(grown, anchors, content.id);
    forall q ensures Held(rows, anchors, q) ==> Held(grown, anchors, q)
             ensures Unsteady(rows, anchors, q) ==> Unsteady(grown, anchors, q) {
      GrownKnows(rows, grown, anchors, q);
    }
    forall p | p in needed && p in grown ensures Anchored(grown, anchors, p) && IsDirectory(now, grown[p].path) {
      if p == content.id {
        NoFileInTheWay(rows, grown, disk, content, path, remote, anchors);
      } else {
        assert Anchored(rows, anchors, p);
      }
    }
  }

  lemma NoFileInTheWay(
    rows: Rows, grown: Rows, disk: Disk, content: Content, path: Path, remote: RemoteState, anchors: set<ContentId>
  )
    requires FilesKnown(rows, disk, remote, anchors) && content.id in remote && remote[content.id] == content
    requires content.kind == Folder && LastName(path) == content.name && !PathTaken(rows, path)
    requires Sound(grown) && Rooted(grown, anchors) && Anchored(grown, anchors, content.id) && grown[content.id].path == path
    requires forall x :: x in rows ==> x in grown && grown[x] == rows[x]
    ensures !IsPlain(disk, path)
  {
    hide Sound, Rooted;
    GrownKnows(rows, grown, anchors, path);
    AnchoredIsSteady(grown, anchors, content.id);
  }

  // ---- An update

  /** What an update that succeeds leaves on disk: the content at its new place, downloaded or not. */
  ghost predicate Updates(disk: Disk, now: Disk, local: Path, target: Path) {
    var there := if local == target then disk else MoveBelow(disk, local, target);
    && (local != target ==> RenameOnDisk(disk, local, target, true).Some?)
    && (now == there || (CreateFile(there, target, true).Some? && now == CreateFile(there, target, true).value))
  }

  /** The rows after the update of a content that goes from `local` to `target`, both rebuilt through the parents. */
  ghost predicate Relocated(rows: Rows, now: Rows, remote: RemoteState, id: ContentId, local: Path, target: Path) {
    && id in rows && id in remote
    && PathOf(TreeOfRows(rows), id) == Some(local)
    && ChildPath(TreeOfRows(rows), remote[id].parent, remote[id].name) == Some(target)
    && CanBeParent(rows, id, remote[id].parent)
    && !PathTakenByOther(rows, target, id)
    && now.Keys == rows.Keys && now[id].path == target && now[id].parent == remote[id].parent
    && forall x :: x in rows && x != id ==> now[x] == rows[x]
  }

  lemma ChildPathLast(t: Tree, parent: Option<ContentId>, name: Name)
    requires ChildPath(t, parent, name).Some?
    ensures var path := ChildPath(t, parent, name).value; path != [] && LastName(path) == name
  {
  }

  lemma RelocatedTable(rows: Rows, now: Rows, remote: RemoteState, id: ContentId, local: Path, target: Path)
    requires Table(rows) && Relocated(rows, now, remote, id, local, target)
    ensures Table(now)
  {
    hide PathOf, TreeOfRows, CanBeParent, ChildPath;
    ChildPathLast(TreeOfRows(rows), remote[id].parent, remote[id].name);
  }

  lemma RelocatedNode(rows: Rows, now: Rows, remote: RemoteState, id: ContentId, local: Path, target: Path)
    requires Relocated(rows, now, remote, id, local, target)
    ensures TreeOfRows(now) == TreeOfRows(rows)[id := Node(remote[id].name, remote[id].parent)]
  {
    hide PathOf, CanBeParent, ChildPath, PathTakenByOther, LastName;
    var t, node := TreeOfRows(rows), Node(remote[id].name, remote[id].parent);
    ChildPathLast(t, remote[id].parent, remote[id].name);
    forall x | x in rows ensures TreeOfRows(now)[x] == t[id := node][x] {
    }
    assert TreeOfRows(now).Keys == t[id := node].Keys;
  }

  lemma RelocatedTree(rows: Rows, now: Rows, remote: RemoteState, id: ContentId, local: Path, target: Path)
    requires Sound(rows) && Relocated(rows, now, remote, id, local, target)
    ensures Sound(now) && PathOf(TreeOfRows(now), id) == Some(target)
    ensures forall x :: x in rows && !Under(TreeOfRows(rows), id, x) ==>
                          PathOf(TreeOfRows(now), x) == PathOf(TreeOfRows(rows), x)
    ensures forall x :: x in rows && Under(TreeOfRows(rows), id, x) ==>
                          && PathOf(TreeOfRows(rows), x).Some? && local <= PathOf(TreeOfRows(rows), x).value
                          && PathOf(TreeOfRows(now), x) == Some(target + PathOf(TreeOfRows(rows), x).value[|local|..])
  {
    hide IsForest, PathOf, ChildPath, Table, LastName, PathTakenByOther;
    RelocatedTable(rows, now, remote, id, local, target);
    RelocatedNode(rows, now, remote, id, local, target);
    var t := TreeOfRows(rows);
    Reparent(t, id, Node(remote[id].name, remote[id].parent));
    forall x | x in rows && Under(t, id, x) ensures PathOf(t, x).Some? && local <= PathOf(t, x).value {
      PathUnder(t, id, x);
    }
  }

  /** Only contents with nothing below them move among the anchors. */
  ghost predicate MovesFreely(rows: Rows, anchors: set<ContentId>, id: ContentId, local: Path, target: Path) {
    id in anchors ==> local == target || Childless(rows, id)
  }

  /** Moving a content leaves the rows below anchors alone. */
  lemma NothingAnchoredBelow(rows: Rows, anchors: set<ContentId>, id: ContentId, local: Path, target: Path, y: ContentId)
    requires Sound(rows) && Rooted(rows, anchors) && PathOf(TreeOfRows(rows), id) == Some(local) && id in rows
    requires MovesFreely(rows, anchors, id, local, target) && local != target && Anchored(rows, anchors, y) && y != id
    ensures !(local <= rows[y].path)
  {
    hide IsForest, PathOf;
    if local <= rows[y].path {
      ApartFrom(rows, anchors, id, y);
      StrictDescendantMeansChild(rows, id, y);
    }
  }

  lemma UpdateKeepsRooted(
    rows: Rows, now: Rows, remote: RemoteState, anchors: set<ContentId>, needed: set<ContentId>, id: ContentId,
    local: Path, target: Path
  )
    requires Sound(rows) && Rooted(rows, anchors) && RootedOnServer(remote, anchors, needed)
    requires Relocated(rows, now, remote, id, local, target) && MovesFreely(rows, anchors, id, local, target)
    ensures Sound(now) && Rooted(now, anchors) && PathOf(TreeOfRows(now), id) == Some(target)
  {
    hide IsForest, PathOf, Sound, ChildPath;
    RelocatedTree(rows, now, remote, id, local, target);
    forall x | Anchored(now, anchors, x) ensures PathOf(TreeOfRows(now), x) == Some(now[x].path) {
      if x != id {
        assert Anchored(rows, anchors, x);
        if Under(TreeOfRows(rows), id, x) {
          var path := rows[x].path;
          if local == target {
            assert local + path[|local|..] == path;
          } else {
            NothingAnchoredBelow(rows, anchors, id, local, target, x);
          }
        }
      }
    }
  }

  /** Where the content of the update is on disk, before anything is downloaded. */
  lemma FoldersFollow(
    rows: Rows, now: Rows, disk: Disk, there: Disk, remote: RemoteState, anchors: set<ContentId>, needed: set<ContentId>,
    id: ContentId, local: Path, target: Path
  )
    requires Orderly(rows, disk, remote, anchors, needed) && RootedOnServer(remote, anchors, needed)
    requires Relocated(rows, now, remote, id, local, target) && MovesFreely(rows, anchors, id, local, target)
    requires there == if local == target then disk else MoveBelow(disk, local, target)
    requires local != target ==> RenameOnDisk(disk, local, target, true).Some?
    ensures DiskTree(there) && FoldersOnDisk(now, there, anchors, needed)
  {
    hide IsForest, PathOf, Sound, ChildPath, MoveBelow, Replaceable, DiskTree, FilesKnown, CanBeParent;
    if local != target {
      Moved(disk, local, target);
    }
    forall p | p in needed && p in now ensures Anchored(now, anchors, p) && IsDirectory(there, now[p].path) {
      assert Anchored(rows, anchors, p) && IsDirectory(disk, rows[p].path);
      if p == id {
        assert rows[id].path == local;
      } else if local != target {
        NothingAnchoredBelow(rows, anchors, id, local, target, p);
      }
    }
  }

  /** What the other rows say about a place stays true. */
  lemma OthersKnow(rows: Rows, now: Rows, anchors: set<ContentId>, id: ContentId, q: Path)
    requires id in rows && now.Keys == rows.Keys && forall x :: x in rows && x != id ==> now[x] == rows[x]
    ensures Held(rows, anchors, q) ==> Held(now, anchors, q) || (Anchored(rows, anchors, id) && rows[id].path == q)
    ensures Unsteady(rows, anchors, q) ==>
              Unsteady(now, anchors, q) || (Anchored(rows, anchors, id) && id !in anchors && rows[id].path < q)
  {
    if r :| Anchored(rows, anchors, r) && rows[r].path == q && r != id {
      assert Anchored(now, anchors, r);
    }
    if o :| Anchored(rows, anchors, o) && o !in anchors && rows[o].path < q && o != id {
      assert Anchored(now, anchors, o);
    }
  }

  /** An anchor without children has nothing of note below it. */
  lemma NothingBelowBare(rows: Rows, anchors: set<ContentId>, id: ContentId, q: Path)
    requires Sound(rows) && Rooted(rows, anchors) && id in rows && id in anchors && Childless(rows, id)
    requires rows[id].path < q
    ensures !Held(rows, anchors, q) && !Unsteady(rows, anchors, q)
  {
    hide IsForest, PathOf;
    forall r | Anchored(rows, anchors, r) ensures !(rows[id].path < rows[r].path) {
      if rows[id].path < rows[r].path {
        AnchoredBelow(rows, anchors, id, r);
        StrictDescendantMeansChild(rows, id, r);
      }
    }
    AnchoredIsSteady(rows, anchors, id);
    forall o | Anchored(rows, anchors, o) && rows[o].path < q ensures o == id || rows[o].path < rows[id].path {
    }
  }

  lemma FilesFollow(
    rows: Rows, now: Rows, disk: Disk, there: Disk, remote: RemoteState, anchors: set<ContentId>, needed: set<ContentId>,
    id: ContentId, local: Path, target: Path, q: Path
  )
    requires Orderly(rows, disk, remote, anchors, needed) && Sound(now) && Rooted(now, anchors)
    requires Relocated(rows, now, remote, id, local, target) && MovesFreely(rows, anchors, id, local, target)
    requires PathOf(TreeOfRows(now), id) == Some(target)
    requires there == if local == target then disk else MoveBelow(disk, local, target)
    requires local != target ==> RenameOnDisk(disk, local, target, true).Some?
    requires IsPlain(there, q) || q == target
    ensures Held(now, anchors, q) || Unsteady(now, anchors, q) || !NamesFolder(remote, LastName(q))
  {
    hide IsForest, PathOf, ChildPath, TreeOfRows, MoveBelow, RenameOnDisk, DiskTree, FoldersOnDisk, CanBeParent, Held, Unsteady,
      Sound, NamesFolder, PathTakenByOther, Childless;
    WalkIsKnown(now, anchors, id);
    if target < q && id !in anchors {
      BelowNoAnchor(now, anchors, id, q);
    } else if q != target {
      assert local == target ==> IsPlain(disk, q);
      if local != target {
        Moved(disk, local, target);
      }
      if local == target || (IsPlain(disk, q) && !(local <= q)) {
        OthersKnow(rows, now, anchors, id, q);
      } else {
        var k := local + q[|target|..];
        assert IsPlain(disk, k) && LastName(k) == LastName(q) && local < k;
        NothingBelowBare(rows, anchors, id, k);
      }
    }
  }

  lemma UpdateKeepsOrder(
    rows: Rows, disk: Disk, now: Rows, disk2: Disk, remote: RemoteState, anchors: set<ContentId>, needed: set<ContentId>,
    id: ContentId, local: Path, target: Path
  )
    requires Orderly(rows, disk, remote, anchors, needed) && RootedOnServer(remote, anchors, needed)
    requires Relocated(rows, now, remote, id, local, target) && MovesFreely(rows, anchors, id, local, target)
    requires Updates(disk, disk2, local, target)
    ensures Orderly(now, disk2, remote, anchors, needed)
  {
    hide IsForest, PathOf, ChildPath, TreeOfRows, MoveBelow, RenameOnDisk, DiskTree, Rooted, Held, Unsteady, Sound,
      NamesFolder, Relocated, MovesFreely, CreateFile, Anchored;
    var there := if local == target then disk else MoveBelow(disk, local, target);
    UpdateKeepsRooted(rows, now, remote, anchors, needed, id, local, target);
    FoldersFollow(rows, now, disk, there, remote, anchors, needed, id, local, target);
    if disk2 != there {
      FileCreated(there, target, true);
    }
    forall q | IsPlain(disk2, q) ensures Held(now, anchors, q) || Unsteady(now, anchors, q) || !NamesFolder(remote, LastName(q)) {
      FilesFollow(rows, now, disk, there, remote, anchors, needed, id, local, target, q);
    }
  }

  // ---- A disappearance

  lemma ForgetKeepsRooted(rows: Rows, id: ContentId, anchors: set<ContentId>)
    requires Sound(rows) && Rooted(rows, anchors)
    ensures Sound(ForgetTree(rows, id)) && Rooted(ForgetTree(rows, id), anchors)
    ensures forall x :: x in ForgetTree(rows, id) <==> x in rows && !Under(TreeOfRows(rows), id, x)
  {
    hide IsForest, PathOf;
    ForgetKeepsSound(rows, id);
    assert Sound(rows);
    ForgottenPaths(rows, id);
    forall x | Anchored(ForgetTree(rows, id), anchors, x) ensures Anchored(rows, anchors, x) {
    }
  }

  lemma ForgottenPaths(rows: Rows, id: ContentId)
    requires Sound(rows)
    ensures forall x :: x in ForgetTree(rows, id) <==> x in rows && !Under(TreeOfRows(rows), id, x)
    ensures forall x :: x in ForgetTree(rows, id) ==> PathOf(TreeOfRows(ForgetTree(rows, id)), x) == PathOf(TreeOfRows(rows), x)
  {
    ForgetsOneTree(rows, id);
  }

  /** A row below an anchor that is forgotten with `id` was at a place that the removal cleared. */
  lemma ForgottenIsCleared(rows: Rows, disk: Disk, id: ContentId, path: Path, anchors: set<ContentId>, r: ContentId, q: Path)
    requires Sound(rows) && Rooted(rows, anchors) && DiskTree(disk) && id in rows && PathOf(TreeOfRows(rows), id) == Some(path)
    requires Anchored(rows, anchors, r) && Under(TreeOfRows(rows), id, r) && rows[r].path <= q
    ensures path != [] && q !in RemoveFromDisk(disk, path, TypeAt(disk, rows[id].path), true)
  {
    hide IsForest, PathOf, RemoveFromDisk, TypeAt, DiskTree, Unsteady;
    ForgottenBelow(rows, id, r);
    WalkIsKnown(rows, anchors, id);
    AnchoredIsSteady(rows, anchors, r);
    if !Anchored(rows, anchors, id) {
      UnsteadyBelow(rows, anchors, path, rows[r].path);
    }
    RemovalClears(disk, path);
  }

  lemma ForgottenBelow(rows: Rows, id: ContentId, r: ContentId)
    requires Sound(rows) && id in rows && Under(TreeOfRows(rows), id, r)
    ensures PathOf(TreeOfRows(rows), id).Some? && PathOf(TreeOfRows(rows), r).Some?
    ensures PathOf(TreeOfRows(rows), id).value <= PathOf(TreeOfRows(rows), r).value
    ensures PathOf(TreeOfRows(rows), id).value != []
  {
    var t := TreeOfRows(rows);
    assert id in t;
    PathUnder(t, id, r);
    PathDefined(t, id);
  }

  lemma ForgetKeepsOrder(
    rows: Rows, disk: Disk, id: ContentId, path: Path, remote: RemoteState, anchors: set<ContentId>, needed: set<ContentId>
  )
    requires Orderly(rows, disk, remote, anchors, needed) && id in rows && PathOf(TreeOfRows(rows), id) == Some(path)
    ensures Orderly(ForgetTree(rows, id), RemoveFromDisk(disk, path, TypeAt(disk, rows[id].path), true), remote, anchors, needed)
  {
    hide IsForest, PathOf, RemoveFromDisk, TypeAt, DiskTree, Sound, Rooted, ForgetTree, NamesFolder;
    var left, now := ForgetTree(rows, id), RemoveFromDisk(disk, path, TypeAt(disk, rows[id].path), true);
    ForgetKeepsRooted(rows, id, anchors);
    LeftAsTheyWere(rows, id);
    RootIsUnder(rows, id);
    ClearsOrNot(disk, path, TypeAt(disk, rows[id].path));
    ClearedIsTree(disk, path);
    forall p | p in needed && p in left ensures Anchored(left, anchors, p) && IsDirectory(now, left[p].path) {
      assert Anchored(rows, anchors, p) && IsDirectory(disk, rows[p].path);
      if path <= rows[p].path {
        ApartFrom(rows, anchors, id, p);
      }
    }
    forall q | IsPlain(now, q) ensures Held(left, anchors, q) || Unsteady(left, anchors, q) || !NamesFolder(remote, LastName(q)) {
      KnownIsLeft(rows, disk, id, path, anchors, q);
    }
  }

  lemma LeftAsTheyWere(rows: Rows, id: ContentId)
    ensures forall x :: x in ForgetTree(rows, id) ==> x in rows && ForgetTree(rows, id)[x] == rows[x]
  {
  }

  lemma RootIsUnder(rows: Rows, id: ContentId)
    requires Sound(rows) && id in rows
    ensures Under(TreeOfRows(rows), id, id) && PathOf(TreeOfRows(rows), id).Some? && PathOf(TreeOfRows(rows), id).value != []
  {
    var t := TreeOfRows(rows);
    assert id in t;
    UnderStep(t, id, id);
    PathDefined(t, id);
  }

  lemma KnownIsLeft(rows: Rows, disk: Disk, id: ContentId, path: Path, anchors: set<ContentId>, q: Path)
    requires Sound(rows) && Rooted(rows, anchors) && DiskTree(disk) && id in rows && PathOf(TreeOfRows(rows), id) == Some(path)
    requires q in RemoveFromDisk(disk, path, TypeAt(disk, rows[id].path), true)
    ensures Held(rows, anchors, q) ==> Held(ForgetTree(rows, id), anchors, q)
    ensures Unsteady(rows, anchors, q) ==> Unsteady(ForgetTree(rows, id), anchors, q)
  {
    hide IsForest, PathOf, RemoveFromDisk, TypeAt, DiskTree, Sound, Rooted;
    ForgetKeepsRooted(rows, id, anchors);
    var left := ForgetTree(rows, id);
    if Held(rows, anchors, q) {
      var r :| Anchored(rows, anchors, r) && rows[r].path == q;
      if Under(TreeOfRows(rows), id, r) {
        ForgottenIsCleared(rows, disk, id, path, anchors, r, q);
      }
      assert Anchored(left, anchors, r);
    }
    if Unsteady(rows, anchors, q) {
      var o :| Anchored(rows, anchors, o) && o !in anchors && rows[o].path < q;
      if Under(TreeOfRows(rows), id, o) {
        ForgottenIsCleared(rows, disk, id, path, anchors, o, q);
      }
      assert Anchored(left, anchors, o);
    }
  }
}
