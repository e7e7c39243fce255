/**
 A startup that succeeds without converging: the server renames a folder "a" to "b" and
 adds a file "n" to the folder "s" stored below it. The database itself is in the folder.
 */
module StartupWitness {
  import opened Wrappers
  import opened Forest
  import opened Contents
  import opened Disk
  import opened DiskMoves
  import opened DiskState
  import opened DiskIndex
  import opened Executors
  import opened Operator
  import opened OperateChanges
  import RemoteSync
  import opened Startup
  import opened StartupAnchors
  import opened StartupFolders
  import opened StartupStale

  const ROWS: Rows := map[1 := Row(["a"], 1, None, 0), 2 := Row(["a", "s"], 1, Some(1), 0)]

  const DISK: Disk := map[["a"] := Directory, ["a", "s"] := Directory, [".trsync.db"] := Plain]

  const REMOTE: RemoteState :=
    map[1 := Content(1, 2, "b", None, Folder), 2 := Content(2, 1, "s", Some(1), Folder), 3 := Content(3, 1, "n", Some(2), File)]

  const SERVER: map<ContentId, RemoteContent> :=
    map[1 := RemoteContent(1, 2, "b", None, Some(Folder), false, false),
        2 := RemoteContent(2, 1, "s", Some(1), Some(Folder), false, false),
        3 := RemoteContent(3, 1, "n", Some(2), Some(File), false, false)]

  const ANSWERS: Answers := Answers(SERVER, true, true, Some(0), {}, Ok([]), [])

  const CHANGES: seq<RemoteChange> := [RemoteChange.Updated(1, ["b"]), New(3, ["b", "s", "n"])]

  function Always(): Oracle {
    (n: nat) => ANSWERS
  }

  const START: World := World(ROWS, DISK, [], 0)

  /** A content without parent, and one below it. */
  lemma TwoLevels(t: Tree, root: ContentId, child: ContentId)
    requires root in t && t[root].parent.None? && child in t && t[child].parent == Some(root)
    ensures PathOf(t, root) == Some([t[root].name]) && PathOf(t, child) == Some([t[root].name, t[child].name])
    ensures Stops(t, root) && Stops(t, child) && (root != child ==> Under(t, root, child))
  {
    StopsFromParent(t, root);
    PathStep(t, root);
    assert [] + [t[root].name] == [t[root].name];
    StopsFromParent(t, child);
    PathStep(t, child);
    assert [t[root].name] + [t[child].name] == [t[root].name, t[child].name];
    UnderStep(t, root, root);
    UnderStep(t, root, child);
  }

  lemma StartDisk()
    ensures DiskTree(DISK)
  {
    assert ParentPath(["a"]) == [] && ParentPath(["a", "s"]) == ["a"] && ParentPath([".trsync.db"]) == [];
  }

  lemma Start()
    ensures Sound(ROWS) && Agrees(ROWS) && DiskTree(DISK) && Under(TreeOfRows(ROWS), 1, 2)
  {
    hide PathOf, Under, Stops;
    StartDisk();
    var t := TreeOfRows(ROWS);
    assert ROWS[1].path[0] == "a" && |ROWS[1].path| == 1 && |ROWS[2].path| == 2;
    assert LastName(ROWS[1].path) == "a" && LastName(ROWS[2].path) == "s";
    TwoLevels(t, 1, 2);
  }

  lemma Remote()
    ensures IsForest(TreeOf(REMOTE)) && Keyed(REMOTE)
    ensures PathOf(TreeOf(REMOTE), 1) == Some(["b"]) && PathOf(TreeOf(REMOTE), 3) == Some(["b", "s", "n"])
  {
    var t := TreeOf(REMOTE);
    TwoLevels(t, 1, 2);
    StopsFromParent(t, 3);
    PathStep(t, 3);
    assert ["b", "s"] + ["n"] == ["b", "s", "n"];
  }

  lemma ShortNames(x: ContentId)
    requires x in REMOTE
    ensures |REMOTE[x].name| == 1 && (REMOTE[x].parent.Some? ==> REMOTE[x].parent.value in {1, 2})
    ensures x in {1, 2} ==> REMOTE[x].kind == Folder
  {
  }

  lemma OnlyFile(q: Path)
    ensures IsPlain(DISK, q) ==> |LastName(q)| == 10
    ensures IsDirectory(DISK, ["a"]) && IsDirectory(DISK, ["a", "s"])
  {
  }

  lemma StoredAs()
    ensures ROWS.Keys == {1, 2} && ROWS[1].path == ["a"] && ROWS[2].path == ["a", "s"]
    ensures ROWS[1].parent == None && ROWS[2].parent == Some(1)
  {
  }

  /** The folder is in order when the synchronization starts. */
  lemma TidyStart()
    ensures Tidy(START, REMOTE) && ParentsAreFolders(REMOTE) && DiskWorks(Always())
  {
    hide Sound, Agrees, DiskTree, Under, ROWS, REMOTE, DISK, IsDirectory;
    Start();
    StoredAs();
    OnlyFile([]);
    forall x | x in REMOTE
      ensures |REMOTE[x].name| == 1 && (REMOTE[x].parent.Some? ==> REMOTE[x].parent.value in {1, 2})
      ensures x in {1, 2} ==> REMOTE[x].kind == Folder
    {
      ShortNames(x);
    }
    forall q | IsPlain(DISK, q) ensures !NamesFolder(REMOTE, LastName(q)) {
      OnlyFile(q);
    }
  }

  lemma Differences()
    ensures ROWS.Keys == {1, 2} && REMOTE.Keys == {1, 2, 3}
    ensures REMOTE[1].revision != ROWS[1].revision && REMOTE[2].revision == ROWS[2].revision
    ensures REMOTE[1].parent == ROWS[1].parent && REMOTE[2].parent == ROWS[2].parent
  {
  }

  lemma ListedIn(c: RemoteChange)
    ensures c in CHANGES <==> c == RemoteChange.Updated(1, ["b"]) || c == New(3, ["b", "s", "n"])
  {
  }

  lemma Listed()
    ensures RemoteSync.IsDiff(CHANGES, ROWS, REMOTE, []) && MovesAreListed(ROWS, REMOTE, [])
  {
    hide PathOf, TreeOf, IsForest, ROWS, REMOTE;
    Remote();
    Differences();
    forall c ensures c in CHANGES <==> c == RemoteChange.Updated(1, ["b"]) || c == New(3, ["b", "s", "n"]) {
      ListedIn(c);
    }
  }

  /** The folder moves, and its row follows. */
  lemma Renamed()
    ensures OperateOn(START, EventOf(CHANGES[0]), Always()).0.Ok?
    ensures !PassedOver(START, CHANGES[0], Always()) && Relocates(CHANGES[0], ROWS, REMOTE)
  {
    hide OperateOn, Finish, UpdatedAttempt, Sound, Agrees;
    Start();
    var event := EventOf(CHANGES[0]);
    RemoteStepIsOperate(START, event, Always());
    MoveSucceeds();
    var asked := START.(clock := 1);
    assert ExecutorsOf(Qualify(ROWS, event))[0] == UpdatedOnDisk(1, true);
    RowFollows(asked, UpdatedAttempt(ROWS, DISK, 1, true, ANSWERS));
  }

  lemma Target()
    ensures PathOf(TreeOfRows(ROWS), 1) == Some(["a"])
    ensures ChildPath(TreeOfRows(ROWS), None, "b") == Some(["b"]) && ["a"] != ["b"]
  {
    Start();
    assert [] + ["b"] == ["b"];
    assert ["a"][0] != ["b"][0] by { assert "a"[0] != "b"[0]; }
  }

  lemma MoveSucceeds()
    ensures UpdatedAttempt(ROWS, DISK, 1, true, ANSWERS).outcome == Ok([Update(1, "b", 2, None, 0)])
    ensures Relocates(CHANGES[0], ROWS, REMOTE)
  {
    hide PathOf, ChildPath, TreeOfRows, MoveBelow, ROWS;
    Start();
    Target();
    Differences();
    ServerTells(1);
    assert ParentPath(["b"]) == [] && ["b"] !in DISK;
    assert RenameOnDisk(DISK, ["a"], ["b"], true).Some?;
    Moved(DISK, ["a"], ["b"]);
  }

  lemma RowFollows(asked: World, attempt: Attempt)
    requires asked.rows == ROWS && attempt.outcome == Ok([Update(1, "b", 2, None, 0)])
    ensures Finish(asked, attempt).0.Ok?
  {
    Target();
    assert ROWS[2].path != ["b"] by { assert |ROWS[2].path| == 2; }
  }

  lemma TwoChanges(w: World, changes: seq<RemoteChange>, oracle: Oracle)
    requires |changes| == 2
    requires Try(w, changes[0], [], oracle).0 == Ok([])
    requires Try(Try(w, changes[0], [], oracle).1, changes[1], [], oracle).0 == Ok([])
    ensures Rounds(w, changes, oracle).result.Ok?
  {
    hide Try;
    var next := Try(w, changes[0], [], oracle).1;
    var end := Try(next, changes[1], [], oracle).1;
    assert Round(end, changes, 2, [], oracle) == (Ok([]), end);
    assert Round(next, changes, 1, [], oracle) == (Ok([]), end);
    assert Round(w, changes, 0, [], oracle) == (Ok([]), end);
  }

  lemma TrySucceeds(w: World, c: RemoteChange, remaining: seq<RemoteChange>, oracle: Oracle)
    requires OperateOn(w, EventOf(c), oracle).0.Ok?
    ensures Try(w, c, remaining, oracle).0 == Ok(remaining)
    ensures Try(w, c, remaining, oracle).1 == OperateOn(w, EventOf(c), oracle).1
  {
    hide OperateOn;
  }

  lemma ServerTells(id: ContentId)
    requires id in REMOTE
    ensures id in SERVER && FromRemote(SERVER[id]) == Some(REMOTE[id])
  {
  }

  lemma Stage()
    ensures Awaiting(START) && Fair(Always(), REMOTE)
    ensures Consistent(CHANGES[0], ROWS, REMOTE) && Consistent(CHANGES[1], ROWS, REMOTE)
  {
    hide Sound, ROWS, REMOTE, SERVER, FromRemote, DISK;
    Start();
    Remote();
    Differences();
    forall id | id in REMOTE ensures id in SERVER && FromRemote(SERVER[id]) == Some(REMOTE[id]) {
      ServerTells(id);
    }
  }

  lemma HiddenIsPassedOver(w: World)
    requires IsHidden(w, 2)
    ensures PassedOver(w, CHANGES[1], Always())
  {
    hide WithParentType;
  }

  /** The second change is passed over. */
  lemma NewIsPassedOver()
    ensures var now := Try(START, CHANGES[0], [], Always()).1;
            OperateOn(now, EventOf(CHANGES[1]), Always()).0.Ok?
  {
    hide OperateOn, Sound, Agrees, DiskTree, Relocates, PassedOver, Under, Effect, IsHidden, TreeOf, TreeOfRows, Fair, Consistent, Try;
    Stage();
    Start();
    Renamed();
    TrySucceeds(START, CHANGES[0], [], Always());
    OneChange(START, CHANGES[0], [], Always(), REMOTE);
    var now := Try(START, CHANGES[0], [], Always()).1;
    MoveHides(START, CHANGES[0], 2, [], Always(), REMOTE);
    HiddenIsPassedOver(now);
    PassedOverStep(now, CHANGES[1], Always());
  }

  /** Everything succeeds, and the new file is still missing. */
  lemma SucceedsWithoutConverging()
    ensures RemoteSync.IsDiff(CHANGES, START.rows, REMOTE, [])
    ensures Rounds(START, CHANGES, Always()).result.Ok?
    ensures !Converged(Rounds(START, CHANGES, Always()).world.rows, REMOTE, [])
  {
    hide OperateOn, Sound, Agrees, DiskTree, IsForest, RemoteSync.IsDiff, MovesAreListed, Relocates, Tidy, DiskWorks, ParentsAreFolders, PassedOver, Converged, Under,
      Try, Rounds, TreeOf, TreeOfRows, Fair, Consistent, Awaiting;
    Stage();
    Start();
    Remote();
    Listed();
    Renamed();
    TrySucceeds(START, CHANGES[0], [], Always());
    NewIsPassedOver();
    TrySucceeds(Try(START, CHANGES[0], [], Always()).1, CHANGES[1], [], Always());
    TwoChanges(START, CHANGES, Always());
    TidyStart();
    MovedFolderPreventsConvergence(START, CHANGES, 0, 1, 2, Always(), REMOTE, []);
  }
}
