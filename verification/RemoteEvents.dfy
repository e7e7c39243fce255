/**
 One event of the server from the outside: when it is passed over, what it does otherwise,
 and that the events the watcher then reports for it are skipped.
 */
module RemoteEvents {
  import opened Wrappers
  import opened Forest
  import opened Contents
  import opened Disk
  import opened DiskState
  import opened Reducer
  import opened Executors
  import opened DiskAttempts
  import opened Operator
  import opened OperatorRuns

  /** The one attempt made for the event. */
  ghost function AttemptFor(w: World, event: RemoteEvent, a: Answers): Attempt {
    match event
    case Deleted(id) => AbsentAttempt(w.rows, w.disk, id, a)
    case Created(id) => PresentAttempt(w.rows, w.disk, id, a)
    case Updated(id) =>
      if id in w.rows then UpdatedAttempt(w.rows, w.disk, id, true, a) else PresentAttempt(w.rows, w.disk, id, a)
    case Renamed(id) => UpdatedAttempt(w.rows, w.disk, id, false, a)
  }

  /** The parent that the server lists for a created content, or else the stored one. */
  function ParentAsked(rows: Rows, event: RemoteEvent, a: Answers): Option<ContentId> {
    if event.Created? then if event.id in a.contents then a.contents[event.id].parent else None
    else if event.id in rows then rows[event.id].parent else None
  }

  /** The attempt's effects on disk, its plans and its one change of the rows, and the result. */
  ghost predicate AttemptThenChange(w: World, attempt: Attempt, r: Result<(), OperatorError>, now: World) {
    && now.disk == attempt.disk && now.ignored == w.ignored + attempt.planned
    && match attempt.outcome
       case Err(error) => r == Err(ExecutorFailed(error)) && now.rows == w.rows
       case Ok(changes) =>
         |changes| == 1 &&
         match ChangeRows(w.rows, changes[0])
         case Ok(rows) => r == Ok(()) && now.rows == rows
         case Err(cause) => r == Err(StateFailed(cause)) && now.rows == w.rows
  }

  ghost predicate LeavesAlone(w: World, now: World) {
    now.rows == w.rows && now.disk == w.disk && now.ignored == w.ignored
  }

  /**
   An event that is not owed a skip fails when the server does not know the content said
   to be created. Otherwise, when the parent is stored and no folder is on disk at the
   parent's stored path, it succeeds and nothing happens. In all other cases it is one
   attempt and its change.
   */
  lemma RemoteEventIsExact(w: World, event: RemoteEvent, oracle: Oracle)
    requires Sound(w.rows) && Remote(event) !in w.ignored
    ensures var (r, now) := OperateOn(w, Remote(event), oracle);
            var parent := ParentAsked(w.rows, event, oracle(w.clock));
            if event.Created? && event.id !in oracle(w.clock).contents then r == Err(ClientFailed) && LeavesAlone(w, now)
            else if parent.Some? && parent.value in w.rows && !IsDirectory(w.disk, w.rows[parent.value].path)
            then r == Ok(()) && LeavesAlone(w, now)
            else AttemptThenChange(w, AttemptFor(w, event, oracle(w.clock + 1)), r, now)
  {
    hide OperateOn, Handle, AbsentAttempt, PresentAttempt, UpdatedAttempt, IsForest, IsDirectory, ChangeRows;
    RemoteStepIsOperate(w, Remote(event), oracle);
    RemoteDrive(w.(clock := w.clock + 1), Remote(event), oracle);
  }

  /** The row is the server's description, at the rebuilt path, with the time read on disk afterwards; no other row changes. */
  ghost predicate FollowsServer(rows: Rows, now: Rows, id: ContentId, a: Answers) {
    id in a.contents && a.timestamp.Some? && id in now &&
    var c := a.contents[id];
    && now.Keys == rows.Keys + {id}
    && (forall x :: x in rows && x != id ==> now[x] == rows[x])
    && Some(now[id].path) == ChildPath(TreeOfRows(rows), c.parent, c.name)
    && now[id].revision == c.revision && now[id].parent == c.parent && now[id].timestamp == a.timestamp.value
  }

  lemma UpdateFollows(rows: Rows, disk: Disk, id: ContentId, download: bool, a: Answers)
    requires Sound(rows) && UpdatedAttempt(rows, disk, id, download, a).outcome.Ok?
    requires ChangeRows(rows, UpdatedAttempt(rows, disk, id, download, a).outcome.value[0]).Ok?
    ensures FollowsServer(rows, ChangeRows(rows, UpdatedAttempt(rows, disk, id, download, a).outcome.value[0]).value, id, a)
  {
    hide UpdatedAttempt, PathOf, Sound;
    UpdateParentOutside(rows, disk, id, download, a);
    var c := GetAsContent(a, id).value;
    ParentHasPath(rows, c.parent, c.name);
    UpdateStores(rows, id, c.name, c.revision, c.parent, a.timestamp.value);
  }

  lemma CreationFollows(rows: Rows, disk: Disk, id: ContentId, a: Answers)
    requires PresentAttempt(rows, disk, id, a).outcome.Ok? && GetAsContent(a, id).value.id == id
    requires ChangeRows(rows, PresentAttempt(rows, disk, id, a).outcome.value[0]).Ok?
    ensures FollowsServer(rows, ChangeRows(rows, PresentAttempt(rows, disk, id, a).outcome.value[0]).value, id, a)
  {
    hide PresentAttempt, PathOf, ChildPath;
    var c := GetAsContent(a, id).value;
    AddStores(rows, c, ChildPath(TreeOfRows(rows), c.parent, c.name).value, a.timestamp.value);
  }

  /** The answers about a content carry its id. */
  ghost predicate AnswersById(oracle: Oracle) {
    forall n: nat, id :: id in oracle(n).contents ==> oracle(n).contents[id].id == id
  }

  /** Any other event than a disappearance that succeeds leaves everything alone, or makes the one row follow the server. */
  lemma SuccessFollowsServer(w: World, event: RemoteEvent, oracle: Oracle)
    requires Sound(w.rows) && Remote(event) !in w.ignored && !event.Deleted? && AnswersById(oracle)
    requires OperateOn(w, Remote(event), oracle).0.Ok?
    ensures var now := OperateOn(w, Remote(event), oracle).1;
            LeavesAlone(w, now) || FollowsServer(w.rows, now.rows, event.id, oracle(w.clock + 1))
  {
    hide OperateOn, UpdatedAttempt, PresentAttempt, Sound, ChangeRows, FollowsServer;
    RemoteEventIsExact(w, event, oracle);
    var id, a := event.id, oracle(w.clock + 1);
    var now := OperateOn(w, Remote(event), oracle).1;
    if !LeavesAlone(w, now) {
      if event.Renamed? || (event.Updated? && id in w.rows) {
        UpdateFollows(w.rows, w.disk, id, event.Updated?, a);
      } else {
        CreationFollows(w.rows, w.disk, id, a);
      }
    }
  }

  // ---- The watcher's own events

  /** Until it occurs, a planned event stays planned. */
  lemma {:induction false} StaysPlanned(w: World, events: seq<Event>, e: Event, oracle: Oracle)
    requires e in w.ignored && e !in events
    ensures e in RunEvents(w, events, oracle).ignored
    decreases |events|
  {
    hide OperateOn, Reported;
    if events != [] {
      var x := events[0];
      if x in w.ignored {
        SkipDrops(w, x, oracle);
      } else {
        HandledPlans(w, x, oracle);
      }
      StaysPlanned(OperateOn(w, x, oracle).1, events[1..], e, oracle);
    }
  }

  /** What happens to a disk event when it comes, after any other events: it is skipped. */
  ghost predicate IsAwaited(w: World, d: DiskEvent, oracle: Oracle) {
    forall events :: Local(Wrap(d)) !in events ==>
      var before := RunEvents(w, events, oracle); IsSkip(Local(Wrap(d)), before, OperateOn(before, Local(Wrap(d)), oracle))
  }

  lemma PlannedIsAwaited(w: World, d: DiskEvent, oracle: Oracle)
    requires Local(Wrap(d)) in w.ignored
    ensures IsAwaited(w, d, oracle)
  {
    hide OperateOn, IsSkip, RunEvents;
    forall events | Local(Wrap(d)) !in events
      ensures var before := RunEvents(w, events, oracle); IsSkip(Local(Wrap(d)), before, OperateOn(before, Local(Wrap(d)), oracle))
    {
      StaysPlanned(w, events, Local(Wrap(d)), oracle);
      SkipDrops(RunEvents(w, events, oracle), Local(Wrap(d)), oracle);
    }
  }

  lemma PlansAdded(w: World, attempt: Attempt, r: Result<(), OperatorError>, now: World)
    requires AttemptThenChange(w, attempt, r, now)
    ensures now.disk == attempt.disk && forall e :: e in now.ignored <==> e in w.ignored || e in attempt.planned
    ensures r.Ok? ==> attempt.outcome.Ok?
  {
  }

  /** An update that is not passed over asks for the row of the server's description. */
  lemma UpdateRows(w: World, id: ContentId, attempt: Attempt, r: Result<(), OperatorError>, now: World, a: Answers, download: bool)
    requires Sound(w.rows) && attempt == UpdatedAttempt(w.rows, w.disk, id, download, a)
    requires AttemptThenChange(w, attempt, r, now) && r.Ok?
    ensures id in w.rows && GetAsContent(a, id).Some? && Sound(now.rows) && id in now.rows
    ensures var c := GetAsContent(a, id).value;
            PathOf(TreeOfRows(now.rows), id) == ChildPath(TreeOfRows(w.rows), c.parent, c.name)
  {
    hide UpdatedAttempt, PathOf, ChildPath, IsForest;
    UpdateParentOutside(w.rows, w.disk, id, download, a);
    var c := GetAsContent(a, id).value;
    UpdateKeepsSound(w.rows, id, c.name, c.revision, c.parent, a.timestamp.value);
    Reparent(TreeOfRows(w.rows), id, Node(c.name, c.parent)) by { SoundForest(w.rows, id); }
  }

  lemma SoundForest(rows: Rows, id: ContentId)
    requires Sound(rows) && id in rows
    ensures IsForest(TreeOfRows(rows)) && id in TreeOfRows(rows)
  {
  }

  /**
   A remote change that moves a content on disk has the watcher report the move; whenever
   that event comes, it is skipped. So is a modification of the old path, which a download
   plans.
   */
  lemma OwnMoveIsSkipped(w: World, event: RemoteEvent, oracle: Oracle)
    requires Sound(w.rows) && DiskTree(w.disk) && (event.Updated? || event.Renamed?) && event.id in w.rows
    requires Remote(event) !in w.ignored && OperateOn(w, Remote(event), oracle).0.Ok?
    ensures var now := OperateOn(w, Remote(event), oracle).1;
            var before, after := PathOf(TreeOfRows(w.rows), event.id), PathOf(TreeOfRows(now.rows), event.id);
            && before.Some? && after.Some?
            && (before.value in w.disk && before.value !in now.disk ==>
                  && IsAwaited(now, DiskEvent.Renamed(before.value, after.value), oracle)
                  && (event.Updated? ==> IsAwaited(now, DiskEvent.Modified(before.value), oracle)))
  {
    hide OperateOn, Sound, DiskTree, PathOf, ChildPath, TreeOfRows, UpdatedAttempt, IsAwaited, AttemptThenChange;
    var id, a := event.id, oracle(w.clock + 1);
    var (r, now) := OperateOn(w, Remote(event), oracle);
    RemoteEventIsExact(w, event, oracle);
    StoredHasPath(w.rows, id);
    var attempt := UpdatedAttempt(w.rows, w.disk, id, event.Updated?, a);
    if AttemptThenChange(w, attempt, r, now) {
      UpdateRows(w, id, attempt, r, now, a, event.Updated?);
      StoredHasPath(now.rows, id);
      var b, p := PathOf(TreeOfRows(w.rows), id).value, PathOf(TreeOfRows(now.rows), id).value;
      RenamedIffMoved(w.rows, w.disk, id, event.Updated?, a, b, p);
      PlansAdded(w, attempt, r, now);
      if b in w.disk && b !in now.disk {
        PlannedIsAwaited(now, DiskEvent.Renamed(b, p), oracle);
        if event.Updated? {
          PlannedIsAwaited(now, DiskEvent.Modified(b), oracle);
        }
      }
    }
  }

  lemma NewPlaceUnplanned(rows: Rows, disk: Disk, id: ContentId, a: Answers, b: Path, p: Path)
    requires Sound(rows) && DiskTree(disk) && b != p && UpdatedAttempt(rows, disk, id, true, a).outcome.Ok?
    requires PathOf(TreeOfRows(rows), id) == Some(b) && GetAsContent(a, id).Some?
    requires var c := GetAsContent(a, id).value; ChildPath(TreeOfRows(rows), c.parent, c.name) == Some(p)
    ensures Local(Wrap(DiskEvent.Modified(p))) !in UpdatedAttempt(rows, disk, id, true, a).planned
  {
    hide DiskTree, IsForest, PathOf, ChildPath, UpdatedAttempt, TreeOfRows, CanMove, MovedTo;
    UpdatedIsExact(rows, disk, id, true, a);
    StoredHasPath(rows, id);
  }

  /**
   But the modification of the new path, which is what the watcher reports of that
   download, is not: when it comes next, it is skipped only if it was owed a skip before.
   */
  lemma OwnDownloadIsNotSkipped(w: World, id: ContentId, oracle: Oracle)
    requires Sound(w.rows) && DiskTree(w.disk) && id in w.rows && Remote(RemoteEvent.Updated(id)) !in w.ignored
    requires OperateOn(w, Remote(RemoteEvent.Updated(id)), oracle).0.Ok?
    ensures var now := OperateOn(w, Remote(RemoteEvent.Updated(id)), oracle).1;
            var before, after := PathOf(TreeOfRows(w.rows), id), PathOf(TreeOfRows(now.rows), id);
            && before.Some? && after.Some?
            && var e := Local(Wrap(DiskEvent.Modified(after.value)));
               before.value in w.disk && before.value !in now.disk ==>
                 (IsSkip(e, now, OperateOn(now, e, oracle)) <==> e in w.ignored)
  {
    hide OperateOn, Sound, DiskTree, PathOf, ChildPath, TreeOfRows, UpdatedAttempt, IsSkip, AttemptThenChange;
    var event, a := RemoteEvent.Updated(id), oracle(w.clock + 1);
    var (r, now) := OperateOn(w, Remote(event), oracle);
    RemoteEventIsExact(w, event, oracle);
    StoredHasPath(w.rows, id);
    var attempt := UpdatedAttempt(w.rows, w.disk, id, true, a);
    if AttemptThenChange(w, attempt, r, now) {
      UpdateRows(w, id, attempt, r, now, a, true);
      StoredHasPath(now.rows, id);
      PlansAdded(w, attempt, r, now);
      var b, p := PathOf(TreeOfRows(w.rows), id).value, PathOf(TreeOfRows(now.rows), id).value;
      if b in w.disk && b !in now.disk {
        RenamedIffMoved(w.rows, w.disk, id, true, a, b, p);
        MoveChangesPath(w.rows, w.disk, id, a, b, p);
        NewPlaceUnplanned(w.rows, w.disk, id, a, b, p);
        SkippedIfPlanned(now, Local(Wrap(DiskEvent.Modified(p))), oracle);
      }
    }
  }

  /** Nothing leaves its place when the path stays the same. */
  lemma MoveChangesPath(rows: Rows, disk: Disk, id: ContentId, a: Answers, b: Path, p: Path)
    requires Sound(rows) && DiskTree(disk) && b in disk && b !in UpdatedAttempt(rows, disk, id, true, a).disk
    requires PathOf(TreeOfRows(rows), id) == Some(b) && GetAsContent(a, id).Some?
    requires var c := GetAsContent(a, id).value; ChildPath(TreeOfRows(rows), c.parent, c.name) == Some(p)
    ensures b != p
  {
    hide DiskTree, IsForest, PathOf, ChildPath, UpdatedAttempt, TreeOfRows, CanMove, MovedTo;
    UpdatedIsExact(rows, disk, id, true, a);
    StoredHasPath(rows, id);
  }

  /** A content that disappears from the server and from the database is reported by the watcher if it was on disk; that is skipped. */
  lemma OwnRemovalIsSkipped(w: World, id: ContentId, oracle: Oracle)
    requires Sound(w.rows) && DiskTree(w.disk) && id in w.rows && Remote(RemoteEvent.Deleted(id)) !in w.ignored
    ensures var now := OperateOn(w, Remote(RemoteEvent.Deleted(id)), oracle).1;
            var path := PathOf(TreeOfRows(w.rows), id);
            path.Some? && (id !in now.rows && path.value in w.disk ==> IsAwaited(now, DiskEvent.Deleted(path.value), oracle))
  {
    hide OperateOn, Sound, DiskTree, PathOf, TreeOfRows, AbsentAttempt, IsAwaited, AttemptThenChange;
    var event, a := RemoteEvent.Deleted(id), oracle(w.clock + 1);
    var (r, now) := OperateOn(w, Remote(event), oracle);
    RemoteEventIsExact(w, event, oracle);
    StoredHasPath(w.rows, id);
    var path := PathOf(TreeOfRows(w.rows), id).value;
    var attempt := AbsentAttempt(w.rows, w.disk, id, a);
    if AttemptThenChange(w, attempt, r, now) {
      AbsentIsExact(w.rows, w.disk, id, a);
      PlansAdded(w, attempt, r, now);
      if path in w.disk {
        PlannedIsAwaited(now, DiskEvent.Deleted(path), oracle);
      }
    }
  }

  /** A content that becomes stored where nothing was is reported by the watcher; that is skipped. */
  lemma OwnCreationIsSkipped(w: World, id: ContentId, oracle: Oracle)
    requires Sound(w.rows) && DiskTree(w.disk) && id !in w.rows && Remote(RemoteEvent.Created(id)) !in w.ignored
    requires AnswersById(oracle)
    ensures var now := OperateOn(w, Remote(RemoteEvent.Created(id)), oracle).1;
            id in now.rows && now.rows[id].path !in w.disk ==> IsAwaited(now, DiskEvent.Created(now.rows[id].path), oracle)
  {
    hide OperateOn, Sound, DiskTree, PathOf, TreeOfRows, PresentAttempt, IsAwaited, ChildPath, FolderBehaves, FileBehaves;
    var event, a := RemoteEvent.Created(id), oracle(w.clock + 1);
    var (r, now) := OperateOn(w, Remote(event), oracle);
    RemoteEventIsExact(w, event, oracle);
    var attempt := PresentAttempt(w.rows, w.disk, id, a);
    if id in now.rows {
      PresentIsExact(w.rows, w.disk, id, a);
      var content := GetAsContent(a, id).value;
      var path := now.rows[id].path;
      if path !in w.disk {
        CreationPlanned(w.disk, content, path, a, attempt);
        PlannedIsAwaited(now, DiskEvent.Created(path), oracle);
      }
    }
  }

  lemma CreationPlanned(disk: Disk, content: Content, path: Path, a: Answers, attempt: Attempt)
    requires path != [] && path !in disk
    requires if content.kind == Folder then FolderBehaves(disk, content, path, a, attempt)
             else FileBehaves(disk, content, path, a, attempt)
    ensures Local(Wrap(DiskEvent.Created(path))) in attempt.planned
  {
  }
}
