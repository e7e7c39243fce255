/**
 Creating a list of new contents: whatever the order of the list, the rounds store
 exactly the contents whose parents lead to the root or to the stored state.
 */
module Creation {
  import opened Wrappers
  import opened Forest
  import opened Contents
  import opened Disk
  import opened DiskState
  import opened DiskIndex
  import opened Executors
  import opened Operator
  import opened OperatorRuns
  import opened OperateChanges

  type Server = map<ContentId, RemoteContent>

  /** Every call succeeds and the server does not change. */
  ghost predicate AllSucceed(oracle: Oracle, server: Server) {
    forall n: nat ::
      oracle(n).contents == server && oracle(n).ioOk && oracle(n).fillOk && oracle(n).timestamp.Some?
  }

  /** The list reaches `id` from the root or the stored state through `n` listed contents, `id` included. */
  ghost predicate Level(stored: set<ContentId>, listed: set<ContentId>, server: Server, id: ContentId, n: nat)
    decreases n
  {
    && id in listed && id in server && n > 0
    && if server[id].parent.None? || server[id].parent.value in stored then n == 1
       else Level(stored, listed, server, server[id].parent.value, n - 1)
  }

  /** A chain of listed parents leads to the root or to a stored content. */
  ghost predicate Grounded(stored: set<ContentId>, listed: set<ContentId>, server: Server, id: ContentId) {
    exists n: nat :: Level(stored, listed, server, id, n)
  }

  ghost function GroundedSet(stored: set<ContentId>, listed: set<ContentId>, server: Server): set<ContentId> {
    set id | id in listed && Grounded(stored, listed, server, id)
  }

  ghost function NodeOf(r: RemoteContent): Node {
    Node(r.name, r.parent)
  }

  /** The stored contents together with every grounded content of the list. */
  ghost function Target(rows: Rows, listed: set<ContentId>, server: Server): Tree {
    TreeOfRows(rows) +
    map id | id in GroundedSet(rows.Keys, listed, server) && id in server :: NodeOf(server[id])
  }

  ghost function EntryFor(kind: Option<ContentType>): Entry {
    if kind == Some(Folder) then Directory else Plain
  }

  /** Nothing is there, or what is left there is of the right kind. */
  ghost predicate Fits(disk: Disk, path: Path, kind: Option<ContentType>) {
    path in disk ==> disk[path] == EntryFor(kind)
  }

  /** The places of the contents still to come can take them. */
  ghost predicate PlacesFit(disk: Disk, target: Tree, server: Server, ids: set<ContentId>) {
    forall id :: id in ids && id in server && PathOf(target, id).Some? ==> Fits(disk, PathOf(target, id).value, server[id].kind)
  }

  ghost predicate ParentIsFolder(w: World, listed: set<ContentId>, server: Server, parent: ContentId)
    requires listed <= server.Keys
  {
    && (parent in w.rows ==> IsDirectory(w.disk, w.rows[parent].path))
    && (parent in listed ==> server[parent].kind == Some(Folder))
  }

  /** New contents that can be created: fresh, below folders, with names that are free and places that can take them. */
  ghost predicate Creatable(w: World, changes: seq<RemoteChange>, server: Server) {
    var listed := Listed(changes);
    var target := Target(w.rows, listed, server);
    && Sound(w.rows) && Agrees(w.rows) && DiskTree(w.disk)
    && AllLocal(w.ignored)
    && (forall c :: c in changes ==> c.New?)
    && (forall i, j :: 0 <= i < j < |changes| ==> changes[i].id != changes[j].id)
    && listed <= server.Keys && listed !! w.rows.Keys
    && (forall id :: id in listed ==> server[id].id == id && FromRemote(server[id]).Some?)
    && (forall id :: id in listed && server[id].parent.Some? ==> ParentIsFolder(w, listed, server, server[id].parent.value))
    && UniqueSiblings(target)
    && PlacesFit(w.disk, target, server, GroundedSet(w.rows.Keys, listed, server))
  }

  // ---- The target is a forest

  lemma LevelUnique(stored: set<ContentId>, listed: set<ContentId>, server: Server, id: ContentId, n: nat, m: nat)
    requires Level(stored, listed, server, id, n) && Level(stored, listed, server, id, m)
    ensures n == m
    decreases n
  {
    if n > 1 && m > 1 {
      LevelUnique(stored, listed, server, server[id].parent.value, n - 1, m - 1);
    }
  }

  lemma {:induction false} LevelStops(rows: Rows, listed: set<ContentId>, server: Server, id: ContentId, n: nat)
    requires Sound(rows) && listed !! rows.Keys
    requires Level(rows.Keys, listed, server, id, n)
    ensures Stops(Target(rows, listed, server), id)
    decreases n
  {
    var t := Target(rows, listed, server);
    assert id in GroundedSet(rows.Keys, listed, server);
    var parent := server[id].parent;
    if parent.Some? {
      if parent.value in rows {
        Frame(TreeOfRows(rows), t, rows.Keys, parent.value);
      } else {
        LevelStops(rows, listed, server, parent.value, n - 1);
      }
    }
    StopsFromParent(t, id);
  }

  lemma TargetIsForest(rows: Rows, listed: set<ContentId>, server: Server)
    requires Sound(rows) && listed !! rows.Keys && listed <= server.Keys
    ensures IsForest(Target(rows, listed, server))
    ensures forall id :: id in rows ==> PathOf(Target(rows, listed, server), id) == PathOf(TreeOfRows(rows), id)
  {
    var t := Target(rows, listed, server);
    forall id | id in rows ensures Stops(t, id) && PathOf(t, id) == PathOf(TreeOfRows(rows), id) {
      Frame(TreeOfRows(rows), t, rows.Keys, id);
    }
    forall id | id in t && id !in rows
      ensures Stops(t, id) && (t[id].parent.Some? ==> t[id].parent.value in t)
    {
      var n: nat :| Level(rows.Keys, listed, server, id, n);
      LevelStops(rows, listed, server, id, n);
      if t[id].parent.Some? && t[id].parent.value !in rows {
        assert Level(rows.Keys, listed, server, t[id].parent.value, n - 1);
      }
    }
  }

  // ---- One creation

  lemma TargetHolds(rows: Rows, listed: set<ContentId>, server: Server)
    requires listed <= server.Keys
    ensures GroundedSet(rows.Keys, listed, server) <= listed
    ensures GroundedSet(rows.Keys, listed, server) <= Target(rows, listed, server).Keys
    ensures forall id :: id in GroundedSet(rows.Keys, listed, server) ==>
              Target(rows, listed, server)[id] == NodeOf(server[id])
  {
  }

  lemma DirectoriesAbove(disk: Disk, path: Path)
    requires DiskTree(disk) && path != [] && IsDirectory(disk, ParentPath(path))
    ensures forall q :: q in Prefixes(path) && q != path ==> q in disk && disk[q] == Directory
  {
    forall q | q in Prefixes(path) && q != path ensures q in disk && disk[q] == Directory {
      var k :| 1 <= k <= |path| && q == path[..k];
      assert k < |path|;
      AboveIsDirectory(disk, ParentPath(path), k);
      assert ParentPath(path)[..k] == q;
    }
  }

  /** Creating a content at a free place below a directory adds exactly that entry. */
  lemma PlacedAt(disk: Disk, content: Content, path: Path, a: Answers)
    requires DiskTree(disk) && path != [] && Fits(disk, path, Some(content.kind)) && IsDirectory(disk, ParentPath(path))
    requires a.ioOk && a.fillOk && a.timestamp.Some?
    ensures var attempt := PlaceAttempt(disk, content, path, a);
            && attempt.outcome == Ok([Add(content, path, a.timestamp.value)])
            && attempt.disk == disk[path := EntryFor(Some(content.kind))]
  {
    if content.kind == Folder {
      hide DiskTree, Fits, HasSuffix;
      DirectoriesAbove(disk, path);
      assert path in Prefixes(path) by {
        assert path[..|path|] == path;
      }
      assert disk + (map q | q in Prefixes(path) :: Directory) == disk[path := Directory];
    }
  }

  /** `rows` are those of `before` together with the contents of `done`, each at its place in the target. */
  ghost predicate RowsAdded(before: Rows, rows: Rows, target: Tree, server: Server, done: set<ContentId>)
    requires done <= server.Keys
  {
    && Sound(rows)
    && rows.Keys == before.Keys + done
    && (forall id :: id in before ==> rows[id] == before[id])
    && (forall id :: id in done ==>
          && PathOf(target, id) == Some(rows[id].path)
          && rows[id].revision == server[id].revision && rows[id].parent == server[id].parent)
  }

  /** The disk holds what it held and one entry for each content of `done`. */
  ghost predicate DiskHolds(before: Disk, disk: Disk, rows: Rows, server: Server, done: set<ContentId>)
    requires done <= server.Keys && done <= rows.Keys
  {
    && (forall q :: q in before ==> q in disk && disk[q] == before[q])
    && (forall id :: id in done ==>
          && rows[id].path in disk
          && disk[rows[id].path] == EntryFor(server[id].kind))
    && (forall q :: q in disk && q !in before ==> exists id :: id in done && rows[id].path == q)
  }

  /** The world once the contents of `done` are stored, on the way to `target` where all of `grounded` are. */
  ghost predicate Stage(w0: World, w: World, target: Tree, grounded: set<ContentId>, server: Server, done: set<ContentId>) {
    && done <= grounded <= server.Keys
    && RowsAdded(w0.rows, w.rows, target, server, done)
    && DiskTree(w.disk) && DiskHolds(w0.disk, w.disk, w.rows, server, done) && PlacesFit(w.disk, target, server, grounded - done)
    && AllLocal(w.ignored)
  }

  ghost predicate PartlyCreated(w0: World, w: World, listed: set<ContentId>, server: Server, done: set<ContentId>) {
    && listed <= server.Keys
    && Stage(w0, w, Target(w0.rows, listed, server), GroundedSet(w0.rows.Keys, listed, server), server, done)
  }

  lemma StoredNode(w0: World, w: World, listed: set<ContentId>, server: Server, done: set<ContentId>, y: ContentId)
    requires Sound(w0.rows) && listed !! w0.rows.Keys
    requires PartlyCreated(w0, w, listed, server, done) && y in w.rows
    ensures var target := Target(w0.rows, listed, server);
            y in target && TreeOfRows(w.rows)[y] == target[y]
  {
    hide DiskTree, DiskHolds, PlacesFit, UniqueSiblings, PathOf, Sound, Grounded, Target;
    var target := Target(w0.rows, listed, server);
    if y in w0.rows {
      TargetKeeps(w0.rows, listed, server, y);
    } else {
      TargetHolds(w0.rows, listed, server);
      TargetIsForest(w0.rows, listed, server);
      PathDefined(target, y);
    }
  }

  lemma TargetKeeps(rows: Rows, listed: set<ContentId>, server: Server, y: ContentId)
    requires y in rows && listed !! rows.Keys
    ensures y in Target(rows, listed, server) && Target(rows, listed, server)[y] == TreeOfRows(rows)[y]
  {
  }

  /** The stored rows are a part of the target: same nodes, same paths. */
  lemma RowsFollowTarget(w0: World, w: World, listed: set<ContentId>, server: Server, done: set<ContentId>, x: ContentId)
    requires Sound(w0.rows) && Agrees(w0.rows) && listed !! w0.rows.Keys
    requires PartlyCreated(w0, w, listed, server, done) && x in w.rows
    ensures var target := Target(w0.rows, listed, server);
            && PathOf(TreeOfRows(w.rows), x) == Some(w.rows[x].path)
            && PathOf(target, x) == Some(w.rows[x].path)
  {
    hide DiskTree, DiskHolds, PlacesFit, UniqueSiblings, PathOf, Grounded, Target;
    var target, t := Target(w0.rows, listed, server), TreeOfRows(w.rows);
    TargetIsForest(w0.rows, listed, server);
    forall y | y in w.rows ensures y in target && t[y] == target[y] {
      StoredNode(w0, w, listed, server, done, y);
    }
    Frame(t, target, w.rows.Keys, x);
  }

  lemma ParentIsDirectory(
    w0: World, w: World, listed: set<ContentId>, target: Tree, grounded: set<ContentId>, server: Server, done: set<ContentId>,
    parent: ContentId
  )
    requires grounded <= listed <= server.Keys && ParentIsFolder(w0, listed, server, parent)
    requires Stage(w0, w, target, grounded, server, done) && parent in w.rows
    ensures IsDirectory(w.disk, w.rows[parent].path)
  {
    hide PathOf, Sound, DiskTree, PlacesFit;
  }

  lemma NotAnAttachment(w0: World, w: World, changes: seq<RemoteChange>, server: Server, done: set<ContentId>, id: ContentId)
    requires Creatable(w0, changes, server) && PartlyCreated(w0, w, Listed(changes), server, done)
    requires id in Listed(changes)
    ensures !WithParentType(w.rows, w.disk, server[id].parent)
  {
    hide Stage, IsDirectory, Target, UniqueSiblings, PathOf, Sound, Agrees, DiskTree, GroundedSet;
    var listed := Listed(changes);
    TargetHolds(w0.rows, listed, server);
    if server[id].parent.Some? && server[id].parent.value in w.rows {
      ParentIsDirectory(
        w0, w, listed, Target(w0.rows, listed, server), GroundedSet(w0.rows.Keys, listed, server), server, done,
        server[id].parent.value);
    }
  }

  ghost predicate ParentStored(w: World, r: RemoteContent) {
    r.parent.Some? ==> r.parent.value in w.rows
  }

  lemma StoredParentGrounds(w0: World, w: World, listed: set<ContentId>, server: Server, done: set<ContentId>, id: ContentId)
    requires PartlyCreated(w0, w, listed, server, done) && id in listed && ParentStored(w, server[id])
    ensures Grounded(w0.rows.Keys, listed, server, id)
    ensures id in GroundedSet(w0.rows.Keys, listed, server)
  {
    if server[id].parent.None? || server[id].parent.value in w0.rows {
      assert Level(w0.rows.Keys, listed, server, id, 1);
    } else {
      var p := server[id].parent.value;
      var n: nat :| Level(w0.rows.Keys, listed, server, p, n);
      assert Level(w0.rows.Keys, listed, server, id, n + 1);
    }
  }

  /** Where the content will be, seen from the rows stored so far and from the target. */
  lemma PlaceOf(w0: World, w: World, changes: seq<RemoteChange>, server: Server, done: set<ContentId>, id: ContentId)
    returns (path: Path)
    requires Creatable(w0, changes, server) && PartlyCreated(w0, w, Listed(changes), server, done)
    requires id in Listed(changes) && id !in done && ParentStored(w, server[id])
    ensures ChildPath(TreeOfRows(w.rows), server[id].parent, server[id].name) == Some(path)
    ensures PathOf(Target(w0.rows, Listed(changes), server), id) == Some(path)
    ensures path != [] && IsDirectory(w.disk, ParentPath(path))
  {
    hide GroundedSet, UniqueSiblings, Agrees, DiskTree, DiskHolds, PlacesFit, AllLocal, Sound, Target;
    var listed := Listed(changes);
    var target := Target(w0.rows, listed, server);
    TargetIsForest(w0.rows, listed, server);
    TargetHolds(w0.rows, listed, server);
    StoredParentGrounds(w0, w, listed, server, done, id);
    PathStep(target, id);
    PathDefined(target, id);
    path := PathOf(target, id).value;
    if server[id].parent.Some? {
      ParentIsDirectory(
        w0, w, listed, target, GroundedSet(w0.rows.Keys, listed, server), server, done, server[id].parent.value);
      RowsFollowTarget(w0, w, listed, server, done, server[id].parent.value);
      assert ParentPath(path) == w.rows[server[id].parent.value].path;
    } else {
      assert ParentPath(path) == [];
    }
  }

  lemma PlaceIsFree(
    w0: World, w: World, changes: seq<RemoteChange>, server: Server, done: set<ContentId>, id: ContentId, path: Path
  )
    requires Creatable(w0, changes, server) && PartlyCreated(w0, w, Listed(changes), server, done)
    requires id in GroundedSet(w0.rows.Keys, Listed(changes), server) && id !in done
    requires PathOf(Target(w0.rows, Listed(changes), server), id) == Some(path)
    ensures Fits(w.disk, path, server[id].kind) && !PathTaken(w.rows, path) && id !in w.rows
  {
    hide GroundedSet, UniqueSiblings, Agrees, DiskTree, DiskHolds, AllLocal, IsDirectory, Sound;
    var listed := Listed(changes);
    var target := Target(w0.rows, listed, server);
    TargetIsForest(w0.rows, listed, server);
    TargetHolds(w0.rows, listed, server);
    forall x | x in w.rows ensures w.rows[x].path != path {
      if w.rows[x].path == path {
        RowsFollowTarget(w0, w, listed, server, done, x);
        PathsDistinct(target, x, id);
      }
    }
  }

  /** A creation that is neither skipped nor taken for an attachment is one attempt to make it present. */
  lemma PresentStep(w: World, id: ContentId, oracle: Oracle)
    requires Sound(w.rows) && Remote(RemoteEvent.Created(id)) !in w.ignored
    requires IsAttachment(w.rows, w.disk, Remote(RemoteEvent.Created(id)), oracle(w.clock)) == Some(false)
    ensures var asked := w.(clock := w.clock + 1);
            OperateOn(w, Remote(RemoteEvent.Created(id)), oracle) ==
            Finish(asked, PresentAttempt(w.rows, w.disk, id, oracle(asked.clock)))
  {
    hide OperateOn, Sound, PresentAttempt, Finish, IsAttachment;
    RemoteStepIsOperate(w, Remote(RemoteEvent.Created(id)), oracle);
  }

  lemma FinishAdd(w: World, a: Attempt, content: Content, path: Path, timestamp: nat)
    requires a.outcome == Ok([Add(content, path, timestamp)])
    requires content.id !in w.rows && !PathTaken(w.rows, path)
    ensures Finish(w, a) ==
            (Ok(()), After(w, a).(rows := w.rows[content.id := Row(path, content.revision, content.parent, timestamp)]))
  {
  }

  /** The attempt itself, once the place is known. */
  lemma PresentIsPlace(rows: Rows, disk: Disk, id: ContentId, path: Path, a: Answers)
    requires id in a.contents && FromRemote(a.contents[id]).Some?
    requires var c := a.contents[id]; (c.parent.Some? ==> c.parent.value in rows) &&
                                      ChildPath(TreeOfRows(rows), c.parent, c.name) == Some(path)
    ensures PresentAttempt(rows, disk, id, a) == PlaceAttempt(disk, FromRemote(a.contents[id]).value, path, a)
  {
    hide PlaceAttempt, ChildPath, TreeOfRows;
  }

  /** A creation below a stored folder, at a free place, adds one row and one entry. */
  lemma CreateStep(w: World, server: Server, oracle: Oracle, id: ContentId, path: Path)
    requires Sound(w.rows) && DiskTree(w.disk) && AllLocal(w.ignored) && AllSucceed(oracle, server)
    requires id in server && server[id].id == id && FromRemote(server[id]).Some? && id !in w.rows
    requires ParentStored(w, server[id]) && !WithParentType(w.rows, w.disk, server[id].parent)
    requires ChildPath(TreeOfRows(w.rows), server[id].parent, server[id].name) == Some(path)
    requires path != [] && Fits(w.disk, path, server[id].kind) && IsDirectory(w.disk, ParentPath(path)) && !PathTaken(w.rows, path)
    ensures var (r, now) := OperateOn(w, Remote(RemoteEvent.Created(id)), oracle);
            && r.Ok? && Sound(now.rows) && AllLocal(now.ignored)
            && now.disk == w.disk[path := EntryFor(server[id].kind)]
            && now.rows.Keys == w.rows.Keys + {id}
            && now.rows == w.rows[id := Row(path, server[id].revision, server[id].parent, now.rows[id].timestamp)]
  {
    hide OperateOn, PresentAttempt, PlaceAttempt, Finish, PathTaken, DiskTree, Sound, ChildPath, TreeOfRows, WithParentType;
    var asked := w.(clock := w.clock + 1);
    var a := oracle(asked.clock);
    assert a.contents == server && oracle(w.clock).contents == server;
    PresentStep(w, id, oracle);
    var attempt := PresentAttempt(w.rows, w.disk, id, a);
    PresentIsPlace(w.rows, w.disk, id, path, a);
    var content := FromRemote(server[id]).value;
    PlacedAt(w.disk, content, path, a);
    PlacePlansLocal(w.disk, content, path, a);
    FinishAdd(asked, attempt, content, path, a.timestamp.value);
    RemoteEventKeepsSound(w, Remote(RemoteEvent.Created(id)), oracle);
  }

  lemma CreateReady(
    w0: World, w: World, changes: seq<RemoteChange>, server: Server, done: set<ContentId>, oracle: Oracle, id: ContentId
  )
    requires Creatable(w0, changes, server) && PartlyCreated(w0, w, Listed(changes), server, done)
    requires AllSucceed(oracle, server)
    requires id in Listed(changes) && id !in done && ParentStored(w, server[id])
    ensures var (r, now) := OperateOn(w, Remote(RemoteEvent.Created(id)), oracle);
            r.Ok? && PartlyCreated(w0, now, Listed(changes), server, done + {id})
  {
    hide OperateOn, PathOf, GroundedSet, Target, UniqueSiblings, Agrees, PathTaken, ChildPath, IsDirectory, AllSucceed;
    StoredParentGrounds(w0, w, Listed(changes), server, done, id);
    var path := PlaceOf(w0, w, changes, server, done, id);
    PlaceIsFree(w0, w, changes, server, done, id, path);
    NotAnAttachment(w0, w, changes, server, done, id);
    CreateStep(w, server, oracle, id, path);
    var now := OperateOn(w, Remote(RemoteEvent.Created(id)), oracle).1;
    TargetIsForest(w0.rows, Listed(changes), server);
    TargetHolds(w0.rows, Listed(changes), server);
    StageAdvances(
      w0, w, now, Target(w0.rows, Listed(changes), server), GroundedSet(w0.rows.Keys, Listed(changes), server), server, done,
      id, path);
  }

  /** The new row and the new entry disturb nothing that was there. */
  lemma StageAdvances(
    w0: World, w: World, now: World, target: Tree, grounded: set<ContentId>, server: Server, done: set<ContentId>,
    id: ContentId, path: Path
  )
    requires IsForest(target) && UniqueSiblings(target) && grounded <= target.Keys
    requires Stage(w0, w, target, grounded, server, done)
    requires id in grounded && id !in done && PathOf(target, id) == Some(path)
    requires path != [] && Fits(w.disk, path, server[id].kind) && IsDirectory(w.disk, ParentPath(path))
    requires now.disk == w.disk[path := EntryFor(server[id].kind)] && Sound(now.rows)
    requires now.rows.Keys == w.rows.Keys + {id} && now.rows[id].path == path
    requires now.rows[id].revision == server[id].revision && now.rows[id].parent == server[id].parent
    requires forall x :: x in w.rows ==> now.rows[x] == w.rows[x]
    requires AllLocal(now.ignored)
    ensures Stage(w0, now, target, grounded, server, done + {id})
  {
    hide PathOf, Sound, UniqueSiblings, DiskTree, DiskHolds, PlacesFit, IsDirectory, AllLocal, RowsAdded;
    RowAdded(w0.rows, w.rows, now.rows, target, server, done, id);
    EntryAdded(w.disk, path, server[id].kind);
    DiskHoldsMore(w0.disk, w.disk, w.rows, now.rows, server, done, id, path);
    PlacesStillFit(w.disk, target, server, grounded - done, id, path, EntryFor(server[id].kind));
    assert grounded - (done + {id}) == grounded - done - {id};
  }

  lemma RowAdded(before: Rows, rows: Rows, now: Rows, target: Tree, server: Server, done: set<ContentId>, id: ContentId)
    requires done + {id} <= server.Keys && id !in done && RowsAdded(before, rows, target, server, done)
    requires Sound(now) && now.Keys == rows.Keys + {id} && forall x :: x in rows ==> now[x] == rows[x]
    requires PathOf(target, id) == Some(now[id].path)
    requires now[id].revision == server[id].revision && now[id].parent == server[id].parent
    ensures RowsAdded(before, now, target, server, done + {id}) && done <= rows.Keys
  {
    hide Sound, PathOf;
    assert now.Keys == before.Keys + (done + {id});
  }

  lemma EntryAdded(disk: Disk, path: Path, kind: Option<ContentType>)
    requires DiskTree(disk) && path != [] && Fits(disk, path, kind) && IsDirectory(disk, ParentPath(path))
    ensures DiskTree(disk[path := EntryFor(kind)])
  {
    forall q | q in disk && q != path ensures q != [] && IsDirectory(disk[path := EntryFor(kind)], ParentPath(q)) {
      assert IsDirectory(disk, ParentPath(q));
    }
  }

  lemma DiskHoldsMore(
    before: Disk, disk: Disk, rows: Rows, now: Rows, server: Server, done: set<ContentId>, id: ContentId, path: Path
  )
    requires done + {id} <= server.Keys * now.Keys && done <= rows.Keys && id !in done
    requires DiskHolds(before, disk, rows, server, done)
    requires Fits(disk, path, server[id].kind) && now[id].path == path
    requires forall x :: x in rows ==> x in now && now[x] == rows[x]
    ensures DiskHolds(before, disk[path := EntryFor(server[id].kind)], now, server, done + {id})
  {
    var grown := disk[path := EntryFor(server[id].kind)];
    forall q | q in grown && q !in before ensures exists x :: x in done + {id} && now[x].path == q {
      if q == path {
        assert id in done + {id} && now[id].path == q;
      } else {
        var x :| x in done && rows[x].path == q;
        assert x in done + {id} && now[x].path == q;
      }
    }
  }

  lemma PlacesStillFit(disk: Disk, target: Tree, server: Server, ids: set<ContentId>, id: ContentId, path: Path, entry: Entry)
    requires IsForest(target) && UniqueSiblings(target) && ids <= target.Keys && id in ids
    requires PlacesFit(disk, target, server, ids) && PathOf(target, id) == Some(path)
    ensures PlacesFit(disk[path := entry], target, server, ids - {id})
  {
    forall x | x in ids - {id} ensures PathOf(target, x) != Some(path) {
      if PathOf(target, x) == Some(path) {
        PathsDistinct(target, x, id);
      }
    }
  }

  lemma CreateMissing(
    w0: World, w: World, changes: seq<RemoteChange>, server: Server, done: set<ContentId>, oracle: Oracle, id: ContentId
  )
    requires Creatable(w0, changes, server) && PartlyCreated(w0, w, Listed(changes), server, done)
    requires AllSucceed(oracle, server)
    requires id in Listed(changes) && !ParentStored(w, server[id])
    ensures var (r, now) := OperateOn(w, Remote(RemoteEvent.Created(id)), oracle);
            LacksParent(r) && now == w.(clock := w.clock + 2)
  {
    hide OperateOn, PathOf, GroundedSet, Target, UniqueSiblings, Agrees, DiskTree, DiskHolds, PlacesFit, PlaceAttempt;
    var asked := w.(clock := w.clock + 1);
    var a := oracle(asked.clock);
    assert oracle(w.clock).contents == server && a.contents == server;
    PresentStep(w, id, oracle);
    assert PresentAttempt(w.rows, w.disk, id, a) ==
           Attempt(Err(ExecutorError.MissingParent(id, server[id].parent.value)), w.disk, []);
    assert w.ignored + [] == w.ignored;
  }
}
