/**
 What the executors acting on the disk do, entry by entry: when they succeed, what they
 leave on disk, and which events they plan because they cause them.
 */
module DiskAttempts {
  import opened Wrappers
  import opened Forest
  import opened Contents
  import opened Disk
  import opened DiskMoves
  import opened DiskState
  import opened Reducer
  import opened Executors

  /** The planned events are exactly those. */
  ghost predicate Plans(planned: seq<Event>, events: set<DiskEvent>) {
    forall e :: e in planned <==> exists d :: d in events && e == Local(Wrap(d))
  }

  lemma InPrefixes(p: Path, q: Path)
    ensures q in Prefixes(p) <==> q != [] && q <= p
  {
    if q != [] && q <= p {
      assert p[..|q|] == q;
    }
  }

  lemma PlansOne(e: Event, d: DiskEvent)
    requires e == Local(Wrap(d))
    ensures Plans([], {}) && Plans([e], {d})
  {
  }

  lemma PlansBoth(a: seq<Event>, b: seq<Event>, s: set<DiskEvent>, t: set<DiskEvent>)
    requires Plans(a, s) && Plans(b, t)
    ensures Plans(a + b, s + t)
  {
    forall e ensures e in a + b <==> exists d :: d in s + t && e == Local(Wrap(d)) {
      if e in a {
        var d :| d in s && e == Local(Wrap(d));
        assert d in s + t;
      }
      if e in b {
        var d :| d in t && e == Local(Wrap(d));
        assert d in s + t;
      }
    }
  }

  /** What is known of a content: what the server describes, of a type that is handled, and not below itself. */
  lemma KnownContent(a: Answers, id: ContentId, c: Content)
    ensures GetAsContent(a, id) == Some(c) <==>
            && id in a.contents && a.contents[id].parent != Some(a.contents[id].id)
            && c.id == a.contents[id].id && c.revision == a.contents[id].revision && c.name == a.contents[id].name
            && c.parent == a.contents[id].parent && Some(c.kind) == a.contents[id].kind
  {
  }

  // ---- A disappearance

  ghost predicate AbsentBehaves(rows: Rows, disk: Disk, id: ContentId, a: Answers, attempt: Attempt) {
    if id !in rows then attempt == Attempt(Err(ExecutorError.Unexpected), disk, [])
    else
      PathOf(TreeOfRows(rows), id).Some? &&
      var path := PathOf(TreeOfRows(rows), id).value;
      && attempt.outcome == Ok([Forgot(id)])
      && Plans(attempt.planned, if path in disk then {DiskEvent.Deleted(path)} else {})
      && attempt.disk == if a.ioOk && path in disk && (IsDirectory(disk, rows[id].path) <==> disk[path] == Directory)
                         then Cleared(disk, path) else disk
  }

  /**
   The content is forgotten whatever becomes of the removal, which clears its whole place
   exactly when what is there has the type found at the stored path.
   */
  lemma AbsentIsExact(rows: Rows, disk: Disk, id: ContentId, a: Answers)
    requires Sound(rows) && DiskTree(disk)
    ensures AbsentBehaves(rows, disk, id, a, AbsentAttempt(rows, disk, id, a))
  {
    hide DiskTree, IsForest, PathOf;
    if id in rows {
      assert id in TreeOfRows(rows);
      PathDefined(TreeOfRows(rows), id);
      var path := PathOf(TreeOfRows(rows), id).value;
      PlansOne(PlanLocal(DiskEvent.Deleted(path)), DiskEvent.Deleted(path));
      if path in disk && disk[path] == Plain {
        RemovalClears(disk, path);
      }
    }
  }

  // ---- A creation

  /** No plain file is at the path or above it. */
  ghost predicate NoFileOnTheWay(disk: Disk, path: Path) {
    forall q :: q <= path ==> !IsPlain(disk, q)
  }

  /** The disk with a folder at the path and at every path above it. */
  ghost predicate WithFolders(disk: Disk, now: Disk, path: Path) {
    forall q :: if q != [] && q <= path then q in now && now[q] == Directory
                else (q in now <==> q in disk) && (q in now ==> now[q] == disk[q])
  }

  /** The folders above the path that the process does not find from its own directory; the empty path is never found. */
  ghost function Unfound(path: Path, cwd: set<Path>): set<DiskEvent> {
    set k | 0 <= k < |path| && (k == 0 || path[..k] !in cwd) :: DiskEvent.Created(path[..k])
  }

  ghost predicate FolderBehaves(disk: Disk, content: Content, path: Path, a: Answers, attempt: Attempt) {
    && (if a.ioOk && NoFileOnTheWay(disk, path) then WithFolders(disk, attempt.disk, path) else attempt.disk == disk)
    && attempt.outcome ==
       (if path in attempt.disk && a.timestamp.Some?
        then Ok([Add(content, path, a.timestamp.value)]) else Err(ExecutorError.Unexpected))
    && Plans(attempt.planned, (if path in disk then {} else {DiskEvent.Created(path)}) + Unfound(path, a.cwd))
  }

  ghost predicate FileBehaves(disk: Disk, content: Content, path: Path, a: Answers, attempt: Attempt)
    requires path != []
  {
    var created := a.ioOk && IsDirectory(disk, ParentPath(path)) && !IsDirectory(disk, path);
    && attempt.disk == (if created then disk[path := Plain] else disk)
    && attempt.outcome ==
       (if created && a.fillOk && a.timestamp.Some?
        then Ok([Add(content, path, a.timestamp.value)]) else Err(ExecutorError.Unexpected))
    && Plans(attempt.planned,
             (if path in disk then {} else {DiskEvent.Created(path)}) +
             (if created && a.fillOk then {DiskEvent.Modified(path)} else {}))
  }

  ghost predicate PresentBehaves(rows: Rows, disk: Disk, id: ContentId, a: Answers, attempt: Attempt) {
    var answer := GetAsContent(a, id);
    if answer.None? then attempt == Attempt(Err(ExecutorError.Unexpected), disk, [])
    else
      var content := answer.value;
      if content.parent.Some? && content.parent.value !in rows
      then attempt == Attempt(Err(MissingParent(id, content.parent.value)), disk, [])
      else
        var path := ChildPath(TreeOfRows(rows), content.parent, content.name);
        && path.Some? && path.value != []
        && if content.kind == Folder then FolderBehaves(disk, content, path.value, a, attempt)
           else FileBehaves(disk, content, path.value, a, attempt)
  }

  lemma {:induction false} PlansUnfound(path: Path, cwd: set<Path>)
    ensures Plans(PlannedAbove(path, cwd), Unfound(path, cwd))
    decreases |path|
  {
    if path == [] {
      assert Unfound(path, cwd) == {};
    } else {
      var above := ParentPath(path);
      PlansUnfound(above, cwd);
      var last := if above != [] && above in cwd then {} else {DiskEvent.Created(above)};
      PlansOne(PlanLocal(DiskEvent.Created(above)), DiskEvent.Created(above));
      PlansBoth(if last == {} then [] else [PlanLocal(DiskEvent.Created(above))], PlannedAbove(above, cwd), last, Unfound(above, cwd));
      UnfoundStep(path, cwd);
    }
  }

  lemma UnfoundStep(path: Path, cwd: set<Path>)
    requires path != []
    ensures var above := ParentPath(path);
            Unfound(path, cwd) == (if above != [] && above in cwd then {} else {DiskEvent.Created(above)}) + Unfound(above, cwd)
  {
    var above := ParentPath(path);
    assert path[..|path| - 1] == above;
    forall k | 0 <= k < |above| ensures above[..k] == path[..k] {
    }
    forall d | d in Unfound(above, cwd) ensures d in Unfound(path, cwd) {
      var k :| 0 <= k < |above| && (k == 0 || above[..k] !in cwd) && d == DiskEvent.Created(above[..k]);
      assert d == DiskEvent.Created(path[..k]);
    }
    forall d | d in Unfound(path, cwd) && d != DiskEvent.Created(above) ensures d in Unfound(above, cwd) {
      var k :| 0 <= k < |path| && (k == 0 || path[..k] !in cwd) && d == DiskEvent.Created(path[..k]);
      assert d == DiskEvent.Created(above[..k]);
    }
    if above == [] || above !in cwd {
      assert path[..|above|] == above;
      assert DiskEvent.Created(above) in Unfound(path, cwd);
    }
  }

  lemma CreatesFolders(disk: Disk, path: Path, ok: bool)
    requires DiskTree(disk)
    ensures CreateDirAll(disk, path, ok).Some? <==> ok && NoFileOnTheWay(disk, path)
    ensures CreateDirAll(disk, path, ok).Some? ==> WithFolders(disk, CreateDirAll(disk, path, ok).value, path)
  {
    hide Prefixes, DiskTree;
    NothingAtRoot(disk);
    forall q ensures q in Prefixes(path) <==> q != [] && q <= path {
      InPrefixes(path, q);
    }
    forall q | q in disk && q in Prefixes(path) ensures disk[q] == Directory <==> !IsPlain(disk, q) {
    }
    assert NoFileOnTheWay(disk, path) <==> forall q :: q in Prefixes(path) && q in disk ==> disk[q] == Directory;
    if CreateDirAll(disk, path, ok).Some? {
      var now := CreateDirAll(disk, path, ok).value;
      forall q | q <= path ensures !IsPlain(disk, q) {
        assert q != [] ==> q in Prefixes(path);
      }
      assert forall q :: q in now <==> q in disk || q in Prefixes(path);
    }
  }

  lemma FolderOnDisk(disk: Disk, content: Content, path: Path, a: Answers)
    requires DiskTree(disk) && path != []
    ensures var attempt := FolderAttempt(disk, content, path, a);
            && (if a.ioOk && NoFileOnTheWay(disk, path) then WithFolders(disk, attempt.disk, path) else attempt.disk == disk)
            && attempt.outcome ==
               (if path in attempt.disk && a.timestamp.Some?
                then Ok([Add(content, path, a.timestamp.value)]) else Err(ExecutorError.Unexpected))
  {
    hide PlannedAbove, Prefixes, DiskTree, CreateDirAll, NoFileOnTheWay;
    CreatesFolders(disk, path, a.ioOk);
    assert path <= path;
  }

  lemma NothingAtRoot(disk: Disk)
    requires DiskTree(disk)
    ensures [] !in disk
  {
  }

  lemma PresentIsExact(rows: Rows, disk: Disk, id: ContentId, a: Answers)
    requires Sound(rows) && DiskTree(disk)
    ensures PresentBehaves(rows, disk, id, a, PresentAttempt(rows, disk, id, a))
  {
    hide DiskTree, IsForest, PathOf, PlaceAttempt, FolderBehaves, FileBehaves;
    var answer := GetAsContent(a, id);
    if answer.Some? && (answer.value.parent.Some? ==> answer.value.parent.value in rows) {
      var content := answer.value;
      ParentHasPath(rows, content.parent, content.name);
      PlaceIsExact(disk, content, ChildPath(TreeOfRows(rows), content.parent, content.name).value, a);
    }
  }

  lemma PlaceIsExact(disk: Disk, content: Content, path: Path, a: Answers)
    requires DiskTree(disk) && path != []
    ensures var attempt := PlaceAttempt(disk, content, path, a);
            if content.kind == Folder then FolderBehaves(disk, content, path, a, attempt)
            else FileBehaves(disk, content, path, a, attempt)
  {
    hide DiskTree, FolderAttempt, WithFolders, NoFileOnTheWay, Plans, PlannedAbove, Unfound;
    var created, modified := DiskEvent.Created(path), DiskEvent.Modified(path);
    PlansOne(PlanLocal(created), created);
    PlansOne(PlanLocal(modified), modified);
    var first := if Exists(disk, path) then [] else [PlanLocal(created)];
    var own := if Exists(disk, path) then {} else {created};
    if content.kind == Folder {
      PlansUnfound(path, a.cwd);
      FolderOnDisk(disk, content, path, a);
      FolderPlans(disk, content, path, a);
      PlansBoth(first, PlannedAbove(path, a.cwd), own, Unfound(path, a.cwd));
    } else {
      PlansBoth(first, [PlanLocal(modified)], own, {modified});
      PlansBoth(first, first + [PlanLocal(modified)], own, own + {modified});
      PlansBoth(first, first, own, own);
      PlansBoth(first, [], own, {});
      assert own + own == own && own + {} == own && own + (own + {modified}) == own + {modified};
    }
  }

  lemma FolderPlans(disk: Disk, content: Content, path: Path, a: Answers)
    ensures FolderAttempt(disk, content, path, a).planned == PlannedAbove(path, a.cwd)
  {
  }

  lemma ParentHasPath(rows: Rows, parent: Option<ContentId>, name: Name)
    requires Sound(rows) && (parent.Some? ==> parent.value in rows)
    ensures ChildPath(TreeOfRows(rows), parent, name).Some?
    ensures var path := ChildPath(TreeOfRows(rows), parent, name).value; path != [] && LastName(path) == name
  {
    if parent.Some? {
      assert parent.value in TreeOfRows(rows);
      PathDefined(TreeOfRows(rows), parent.value);
    }
  }

  // ---- An update

  /** Whether the content can be renamed: its own target is free or replaceable, and lies in a folder outside of it. */
  ghost predicate CanMove(disk: Disk, local: Path, target: Path) {
    && local in disk && target != [] && !(local <= target) && IsDirectory(disk, ParentPath(target))
    && (target in disk ==>
          disk[target] == disk[local] && (disk[target] == Directory ==> forall q :: q in disk ==> !(target < q)))
  }

  /** The disk with what was at or below `local` at or below `target`, which replaces what was there. */
  ghost predicate MovedTo(disk: Disk, now: Disk, local: Path, target: Path) {
    forall q ::
      if target <= q then
        (q in now <==> local + q[|target|..] in disk) && (q in now ==> now[q] == disk[local + q[|target|..]])
      else
        (q in now <==> q in disk && !(local <= q)) && (q in now ==> now[q] == disk[q])
  }

  ghost predicate CanFill(there: Disk, content: Content, target: Path, download: bool, a: Answers)
    requires target != []
  {
    !download || content.kind == Folder ||
    (a.fillOk && IsDirectory(there, ParentPath(target)) && !IsDirectory(there, target))
  }

  /** What the update does from `there` on. */
  ghost predicate DownloadBehaves(
    there: Disk, id: ContentId, download: bool, content: Content, local: Path, target: Path, a: Answers, attempt: Attempt,
    renamed: set<DiskEvent>
  )
    requires target != []
  {
    var filled := CanFill(there, content, target, download, a);
    && attempt.disk == (if filled && download && content.kind != Folder then there[target := Plain] else there)
    && attempt.outcome ==
       (if filled && a.timestamp.Some? && target in attempt.disk
        then Ok([Update(id, content.name, content.revision, content.parent, a.timestamp.value)])
        else Err(ExecutorError.Unexpected))
    && Plans(attempt.planned, renamed + (if filled && download then {DiskEvent.Modified(local)} else {}))
  }

  ghost predicate UpdatedBehaves(rows: Rows, disk: Disk, id: ContentId, download: bool, a: Answers, attempt: Attempt) {
    var local, answer := PathOf(TreeOfRows(rows), id), GetAsContent(a, id);
    if id !in rows || answer.None? || (answer.value.parent.Some? && answer.value.parent.value !in rows)
    then attempt == Attempt(Err(ExecutorError.Unexpected), disk, [])
    else
      var content := answer.value;
      var target := ChildPath(TreeOfRows(rows), content.parent, content.name);
      && local.Some? && target.Some? && target.value != []
      && if local == target then
           DownloadBehaves(disk, id, download, content, local.value, target.value, a, attempt, {})
         else if !a.ioOk || !CanMove(disk, local.value, target.value) then
           attempt == Attempt(Err(ExecutorError.Unexpected), disk, [])
         else
           exists there ::
             MovedTo(disk, there, local.value, target.value) &&
             DownloadBehaves(there, id, download, content, local.value, target.value, a, attempt,
                             {DiskEvent.Renamed(local.value, target.value)})
  }

  lemma RenameIsExact(disk: Disk, local: Path, target: Path, ok: bool)
    requires DiskTree(disk)
    ensures RenameOnDisk(disk, local, target, ok).Some? <==> ok && CanMove(disk, local, target)
    ensures RenameOnDisk(disk, local, target, ok).Some? ==>
              MovedTo(disk, RenameOnDisk(disk, local, target, ok).value, local, target)
  {
    hide DiskTree, MoveBelow;
    forall q | q in disk ensures target <= q <==> q == target || target < q {
    }
    if RenameOnDisk(disk, local, target, ok).Some? {
      var now := MoveBelow(disk, local, target);
      forall q ensures
        if target <= q then
          (q in now <==> local + q[|target|..] in disk) && (q in now ==> now[q] == disk[local + q[|target|..]])
        else
          (q in now <==> q in disk && !(local <= q)) && (q in now ==> now[q] == disk[q])
      {
        MovedAt(disk, local, target, q);
      }
    }
  }

  lemma DownloadIsExact(
    there: Disk, id: ContentId, download: bool, content: Content, local: Path, target: Path, a: Answers
  )
    requires target != []
    ensures DownloadBehaves(there, id, download, content, local, target, a,
                            DownloadAttempt(there, id, download, content, local, target, a), {})
  {
    PlansOne(PlanLocal(DiskEvent.Modified(local)), DiskEvent.Modified(local));
    assert {} + {DiskEvent.Modified(local)} == {DiskEvent.Modified(local)};
  }

  /** Every failure before the renaming leaves everything as it was; after it, the content stays at its new place. */
  lemma UpdatedIsExact(rows: Rows, disk: Disk, id: ContentId, download: bool, a: Answers)
    requires Sound(rows) && DiskTree(disk)
    ensures UpdatedBehaves(rows, disk, id, download, a, UpdatedAttempt(rows, disk, id, download, a))
  {
    hide DiskTree, IsForest, PathOf, ChildPath, DownloadAttempt, RenameOnDisk, MovedTo, CanMove, DownloadBehaves, TreeOfRows;
    var answer := GetAsContent(a, id);
    StoredHasPath(rows, id);
    if id in rows && answer.Some? {
      var content := answer.value;
      if content.parent.Some? && content.parent.value !in rows {
        AbsentHasNone(rows, content.parent.value, content.name);
      } else {
        ParentHasPath(rows, content.parent, content.name);
        var local := PathOf(TreeOfRows(rows), id).value;
        var target := ChildPath(TreeOfRows(rows), content.parent, content.name).value;
        RenameIsExact(disk, local, target, a.ioOk);
        if local == target {
          DownloadIsExact(disk, id, download, content, local, target, a);
        } else if RenameOnDisk(disk, local, target, a.ioOk).Some? {
          var there := RenameOnDisk(disk, local, target, a.ioOk).value;
          DownloadIsExact(there, id, download, content, local, target, a);
          RenamedFirst(there, id, download, content, local, target, a);
        }
      }
    }
  }

  lemma RenamedFirst(
    there: Disk, id: ContentId, download: bool, content: Content, local: Path, target: Path, a: Answers
  )
    requires target != []
    ensures var attempt := DownloadAttempt(there, id, download, content, local, target, a);
            var renamed := DiskEvent.Renamed(local, target);
            DownloadBehaves(there, id, download, content, local, target, a,
                            attempt.(planned := [PlanLocal(renamed)] + attempt.planned), {renamed})
  {
    hide DownloadAttempt;
    var renamed := DiskEvent.Renamed(local, target);
    var attempt := DownloadAttempt(there, id, download, content, local, target, a);
    var more := if CanFill(there, content, target, download, a) && download then {DiskEvent.Modified(local)} else {};
    DownloadIsExact(there, id, download, content, local, target, a);
    assert {} + more == more;
    PlansOne(PlanLocal(renamed), renamed);
    PlansBoth([PlanLocal(renamed)], attempt.planned, {renamed}, more);
  }

  lemma StoredHasPath(rows: Rows, id: ContentId)
    requires Sound(rows)
    ensures PathOf(TreeOfRows(rows), id).Some? <==> id in rows
  {
    if id in rows {
      assert id in TreeOfRows(rows);
      PathDefined(TreeOfRows(rows), id);
    }
  }

  lemma AbsentHasNone(rows: Rows, parent: ContentId, name: Name)
    requires parent !in rows
    ensures ChildPath(TreeOfRows(rows), Some(parent), name).None?
  {
  }

  lemma OldPlaceEmpty(disk: Disk, there: Disk, b: Path, p: Path)
    requires DiskTree(disk) && b != p && CanMove(disk, b, p) && MovedTo(disk, there, b, p)
    ensures b in disk && b !in there
  {
    if p < b {
      DirectoryAbove(disk, b, p);
    }
  }

  /** A renaming is planned exactly when the content was at its old place before and is no more after. */
  lemma RenamedIffMoved(rows: Rows, disk: Disk, id: ContentId, download: bool, a: Answers, b: Path, p: Path)
    requires Sound(rows) && DiskTree(disk) && PathOf(TreeOfRows(rows), id) == Some(b) && GetAsContent(a, id).Some?
    requires var c := GetAsContent(a, id).value; ChildPath(TreeOfRows(rows), c.parent, c.name) == Some(p)
    ensures var attempt := UpdatedAttempt(rows, disk, id, download, a);
            && (Local(Wrap(DiskEvent.Renamed(b, p))) in attempt.planned <==> b in disk && b !in attempt.disk)
            && (attempt.outcome.Ok? && download ==> Local(Wrap(DiskEvent.Modified(b))) in attempt.planned)
  {
    hide DiskTree, IsForest, PathOf, ChildPath, UpdatedAttempt, TreeOfRows;
    UpdatedIsExact(rows, disk, id, download, a);
    StoredHasPath(rows, id);
    var c := GetAsContent(a, id).value;
    if c.parent.Some? && c.parent.value !in rows {
      AbsentHasNone(rows, c.parent.value, c.name);
    }
    var renamed, modified, attempt := DiskEvent.Renamed(b, p), DiskEvent.Modified(b), UpdatedAttempt(rows, disk, id, download, a);
    if b != p && a.ioOk && CanMove(disk, b, p) {
      var there :| MovedTo(disk, there, b, p) && DownloadBehaves(there, id, download, c, b, p, a, attempt, {renamed});
      assert renamed in {renamed} + (if CanFill(there, c, p, download, a) && download then {modified} else {});
      OldPlaceEmpty(disk, there, b, p);
    }
  }
}
