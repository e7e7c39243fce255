/**
 The other way round: once a folder has moved with stored contents below it, whatever is
 new below one of them is passed over, so that startup does not converge even when it
 succeeds.
 */
module StartupStale {
  import opened Wrappers
  import opened Forest
  import opened Contents
  import opened Disk
  import opened DiskState
  import opened DiskIndex
  import opened Executors
  import opened Operator
  import opened OperateChanges
  import RemoteSync
  import opened Startup
  import opened StartupAnchors
  import opened StartupFolders

  // ---- The move

  /** In a database that agrees, another name or another parent means another path. */
  lemma OutOfPlaceMeansOtherPath(rows: Rows, remote: RemoteState, id: ContentId)
    requires Sound(rows) && Agrees(rows) && id in rows && id in remote && !InPlace(rows, remote, id)
    ensures ChildPath(TreeOfRows(rows), remote[id].parent, remote[id].name) != PathOf(TreeOfRows(rows), id)
  {
    hide IsForest;
    var t, c := TreeOfRows(rows), remote[id];
    var there, path := ChildPath(t, c.parent, c.name), rows[id].path;
    assert PathOf(t, id) == Some(path);
    assert id in t;
    PathStep(t, id);
    if there == Some(path) {
      assert LastName(path) == c.name;
      if rows[id].parent.Some? {
        ParentOf(rows, id);
        if c.parent.Some? {
          SamePathBelow(rows, rows[id].parent.value, c.parent.value, path);
        }
      }
    }
  }

  lemma SamePathBelow(rows: Rows, p: ContentId, r: ContentId, path: Path)
    requires Table(rows) && Agrees(rows) && p in rows && path != []
    requires PathOf(TreeOfRows(rows), p).Some? && PathOf(TreeOfRows(rows), r).Some?
    requires path == PathOf(TreeOfRows(rows), p).value + [path[|path| - 1]] == PathOf(TreeOfRows(rows), r).value + [path[|path| - 1]]
    ensures p == r
  {
    hide PathOf;
    StoredIfWalked(rows, r);
    assert path[..|path| - 1] == PathOf(TreeOfRows(rows), p).value;
    assert path[..|path| - 1] == PathOf(TreeOfRows(rows), r).value;
  }

  lemma StoredIfWalked(rows: Rows, p: ContentId)
    requires PathOf(TreeOfRows(rows), p).Some?
    ensures p in rows
  {
  }

  /** After the move, `below` is hidden. */
  lemma MoveHides(
    w: World, move: RemoteChange, below: ContentId, remaining: seq<RemoteChange>, oracle: Oracle, remote: RemoteState
  )
    requires Awaiting(w) && Agrees(w.rows) && DiskTree(w.disk) && Fair(oracle, remote)
    requires Consistent(move, w.rows, remote) && Relocates(move, w.rows, remote)
    requires Under(TreeOfRows(w.rows), move.id, below) && below != move.id
    requires Try(w, move, remaining, oracle).0.Ok? && !PassedOver(w, move, oracle)
    ensures IsHidden(Try(w, move, remaining, oracle).1, below)
  {
    hide OperateOn, UpdatedAttempt, Sound, Agrees, DiskTree, Under, PathOf, ChildPath, TreeOfRows, WithParentType, InPlace;
    var id := move.id;
    HandledStep(w, move, oracle);
    var asked := w.(clock := w.clock + 1);
    var a := oracle(asked.clock);
    AttemptsOfChange(w, move, a);
    UpdateSettles(asked, id, true, a, remote);
    OutOfPlaceMeansOtherPath(w.rows, remote, id);
    UpdateNeedsPlace(w.rows, w.disk, id, true, a);
    assert FromRemote(a.contents[id]) == Some(remote[id]);
    MovedFolderHidesSubfolders(asked, id, true, a, below);
  }

  // ---- What leaves a hidden content hidden

  /** A change that makes no folder appear: a new content that is no folder, or an update in place, of another content. */
  ghost predicate Harmless(c: RemoteChange, rows: Rows, remote: RemoteState, below: ContentId) {
    && c.id != below && c.id in remote
    && ((c.New? && remote[c.id].kind != Folder) || (c.Updated? && c.id in rows && InPlace(rows, remote, c.id)))
  }

  ghost predicate NoNewFolder(disk: Disk, now: Disk) {
    forall q :: IsDirectory(now, q) ==> IsDirectory(disk, q)
  }

  lemma CreationMakesNoFolder(rows: Rows, disk: Disk, id: ContentId, a: Answers)
    requires GetAsContent(a, id).Some? ==> GetAsContent(a, id).value.kind != Folder
    ensures NoNewFolder(disk, PresentAttempt(rows, disk, id, a).disk)
  {
    hide ChildPath, TreeOfRows;
  }

  lemma UpdateMakesNoFolder(rows: Rows, disk: Disk, id: ContentId, download: bool, a: Answers)
    requires var c := GetAsContent(a, id);
             c.Some? ==> ChildPath(TreeOfRows(rows), c.value.parent, c.value.name) == PathOf(TreeOfRows(rows), id)
    ensures NoNewFolder(disk, UpdatedAttempt(rows, disk, id, download, a).disk)
  {
    hide ChildPath, TreeOfRows, PathOf, RenameOnDisk;
  }

  lemma FinishKeepsDisk(w: World, attempt: Attempt)
    ensures Finish(w, attempt).1.disk == attempt.disk
  {
  }

  lemma PassingKeepsDisk(w: World, c: RemoteChange, oracle: Oracle)
    requires Awaiting(w) && PassedOver(w, c, oracle)
    ensures OperateOn(w, EventOf(c), oracle).1.disk == w.disk
  {
    hide OperateOn, RemoteHandle;
    OperatedStep(w, c, oracle);
  }

  lemma StaysHidden(
    w: World, c: RemoteChange, remaining: seq<RemoteChange>, oracle: Oracle, remote: RemoteState, below: ContentId
  )
    requires Awaiting(w) && Fair(oracle, remote) && Consistent(c, w.rows, remote)
    requires IsHidden(w, below) && Harmless(c, w.rows, remote, below)
    ensures var (r, now) := Try(w, c, remaining, oracle); r.Ok? ==> IsHidden(now, below)
  {
    hide OperateOn, Finish, AttemptOf, PassedOver, Sound, PresentAttempt, UpdatedAttempt, AbsentAttempt, InPlace, Effect;
    OneChange(w, c, remaining, oracle, remote);
    var (r, now) := OperateOn(w, EventOf(c), oracle);
    if PassedOver(w, c, oracle) {
      PassedOverStep(w, c, oracle);
      PassingKeepsDisk(w, c, oracle);
    } else if r.Ok? || LacksParent(r) {
      HandledStep(w, c, oracle);
      var asked := w.(clock := w.clock + 1);
      var a := oracle(asked.clock);
      AttemptsOfChange(w, c, a);
      assert c.id in a.contents ==> FromRemote(a.contents[c.id]) == Some(remote[c.id]);
      if c.New? {
        CreationMakesNoFolder(w.rows, w.disk, c.id, a);
        FinishKeepsDisk(asked, PresentAttempt(w.rows, w.disk, c.id, a));
      } else {
        InPlaceMeansSamePath(w.rows, remote, c.id);
        UpdateMakesNoFolder(w.rows, w.disk, c.id, true, a);
        FinishKeepsDisk(asked, UpdatedAttempt(w.rows, w.disk, c.id, true, a));
      }
      assert NoNewFolder(w.disk, now.disk);
      if Effect(w.rows, now.rows, c, remote) {
        OthersKept(w.rows, now.rows, c, remote);
      }
      HiddenStays(w, now, below);
    }
  }

  lemma HiddenStays(w: World, now: World, below: ContentId)
    requires IsHidden(w, below) && below in now.rows && now.rows[below] == w.rows[below] && NoNewFolder(w.disk, now.disk)
    ensures IsHidden(now, below)
  {
  }

  // ---- Before the move

  /** A descendant stays one while the contents on the way keep their parents. */
  lemma {:induction false} UnderKept(t: Tree, u: Tree, except: ContentId, m: ContentId, x: ContentId)
    requires IsForest(t) && IsForest(u) && x in t && Under(t, m, x)
    requires forall y :: y in t && y != except ==> y in u && u[y].parent == t[y].parent
    requires (except in u && except in t && u[except].parent == t[except].parent) ||
             (x != except && forall y :: y in t ==> t[y].parent != Some(except))
    ensures Under(u, m, x)
    decreases Depth(t, x)
  {
    UnderStep(t, m, x);
    UnderStep(u, m, x);
    if x != m {
      DepthStep(t, x);
      UnderKept(t, u, except, m, t[x].parent.value);
    }
  }

  lemma ChangeKeepsUnder(rows: Rows, now: Rows, c: RemoteChange, remote: RemoteState, m: ContentId, below: ContentId)
    requires Sound(rows) && Sound(now) && Effect(rows, now, c, remote) && !c.Disappear?
    requires c.id != below && (c.Updated? && c.id in rows ==> rows[c.id].parent == remote[c.id].parent || Childless(rows, c.id))
    requires Consistent(c, rows, remote) && below in rows && Under(TreeOfRows(rows), m, below)
    ensures Under(TreeOfRows(now), m, below)
  {
    hide IsForest, PathOf;
    OthersKept(rows, now, c, remote);
    if c.New? {
      forall y | y in rows ensures rows[y].parent != Some(c.id) {
        if rows[y].parent.Some? {
          ParentOf(rows, y);
        }
      }
    }
    UnderKept(TreeOfRows(rows), TreeOfRows(now), c.id, m, below);
  }

  /** Everything counts as an anchor as long as no content moves with others below it. */
  ghost function Everything(rows: Rows, remote: RemoteState): set<ContentId> {
    rows.Keys + remote.Keys
  }

  /** The rows of contents that no change from `i` to `n` is about are as they were. */
  ghost predicate Untouched(rows: Rows, now: Rows, changes: seq<RemoteChange>, i: nat, n: nat)
    requires n <= |changes|
  {
    forall x :: x in rows && (forall k :: i <= k < n ==> changes[k].id != x) ==> x in now && now[x] == rows[x]
  }

  lemma {:induction false} KeptBelow(
    w: World, changes: seq<RemoteChange>, i: nat, n: nat, remaining: seq<RemoteChange>, oracle: Oracle, remote: RemoteState,
    anchors: set<ContentId>, needed: set<ContentId>, below: ContentId
  )
    requires InOrder(w, changes, i, n, remaining, remote, anchors, needed) && n < |changes| && changes[n].Updated?
    requires RootedOnServer(remote, anchors, needed) && Fair(oracle, remote) && DiskWorks(oracle)
    requires remote.Keys <= anchors && w.rows.Keys <= anchors && forall k :: i <= k < n ==> changes[k].id != below
    requires below in w.rows && changes[n].id in w.rows && Under(TreeOfRows(w.rows), changes[n].id, below)
    ensures var (r, now) := Reached(w, changes, i, n, remaining, oracle);
            r.Ok? ==>
              && Untouched(w.rows, now.rows, changes, i, n) && now.rows.Keys <= anchors
              && Under(TreeOfRows(now.rows), changes[n].id, below)
    decreases n - i
  {
    hide Fair, Try, PassedOver, RootedOnServer, Ready, ListForeseen, BareAmong, DiskWorks, Under, Orderly, Effect, Childless, InPlace,
      Sound;
    if i < n {
      var c := changes[i];
      InOrderStep(w, changes, i, n, remaining, oracle, remote, anchors, needed);
      FirstIsReady(changes, i, n, remaining, w.rows, remote);
      OneChange(w, c, remaining, oracle, remote);
      BareNow(changes, i, n, w.rows, remote, anchors);
      var (r, now) := Try(w, c, remaining, oracle);
      if r.Ok? {
        if Effect(w.rows, now.rows, c, remote) {
          OthersKept(w.rows, now.rows, c, remote);
          InPlaceKeepsParent(w.rows, remote, c.id);
          ChangeKeepsUnder(w.rows, now.rows, c, remote, changes[n].id, below);
        }
        KeptBelow(now, changes, i + 1, n, r.value, oracle, remote, anchors, needed, below);
      }
    }
  }

  lemma InPlaceKeepsParent(rows: Rows, remote: RemoteState, id: ContentId)
    ensures id in rows && id in remote && InPlace(rows, remote, id) ==> rows[id].parent == remote[id].parent
  {
  }

  lemma FirstIsReady(
    changes: seq<RemoteChange>, i: nat, n: nat, remaining: seq<RemoteChange>, rows: Rows, remote: RemoteState
  )
    requires i < n < |changes| && Ready(changes, i, remaining, rows, remote) && changes[n].Updated?
    ensures Consistent(changes[i], rows, remote) && !changes[i].Disappear? && changes[i].id != changes[n].id
  {
  }

  lemma StartsBare(w: World, changes: seq<RemoteChange>, n: nat, remote: RemoteState, ignored: seq<ContentId>)
    requires Tidy(w, remote) && IsForest(TreeOf(remote)) && ParentsAreFolders(remote) && n <= |changes|
    requires RemoteSync.IsDiff(changes, w.rows, remote, ignored) && MovesAreBare(changes, n, w.rows, remote)
    ensures var anchors, needed := Everything(w.rows, remote), NeededBy(changes, w.rows, remote);
            InOrder(w, changes, 0, n, [], remote, anchors, needed) && RootedOnServer(remote, anchors, needed)
  {
    hide IsForest, PathOf, Table, NeededBy, DiskTree, ParentsOnDisk, StrayFilesApart, ParentsAreFolders, Ready, ListForeseen,
      FilesKnown, RemoteSync.IsDiff, IsDirectory, Bare, InPlace;
    var anchors, needed := Everything(w.rows, remote), NeededBy(changes, w.rows, remote);
    DiffIsReady(changes, w.rows, remote, ignored);
    forall x | x in w.rows && w.rows[x].parent.Some? ensures w.rows[x].parent.value in anchors {
      ParentOf(w.rows, x);
    }
    forall x | x in remote && remote[x].parent.Some? ensures remote[x].parent.value in anchors {
      OnServer(remote, x);
    }
    NeededOnDisk(changes, w, remote);
    StrayFilesKnown(w, remote, anchors);
    AllForeseen(changes, w.rows, remote);
  }

  /** While everything is an anchor, every stored path is right. */
  lemma RootedAgrees(rows: Rows, anchors: set<ContentId>)
    requires Sound(rows) && Rooted(rows, anchors) && rows.Keys <= anchors
    ensures Agrees(rows)
  {
  }

  // ---- After the move

  lemma {:induction false} HiddenUntil(
    w: World, changes: seq<RemoteChange>, i: nat, n: nat, remaining: seq<RemoteChange>, oracle: Oracle, remote: RemoteState,
    below: ContentId
  )
    requires Awaiting(w) && Fair(oracle, remote) && i <= n <= |changes| && Ready(changes, i, remaining, w.rows, remote)
    requires IsHidden(w, below) && forall k :: i <= k < n ==> Harmless(changes[k], w.rows, remote, below)
    ensures var (r, now) := Reached(w, changes, i, n, remaining, oracle); r.Ok? ==> Awaiting(now) && IsHidden(now, below)
    decreases n - i
  {
    hide Awaiting, Fair, Try, PassedOver, Effect, IsHidden, Harmless, Consistent;
    if i < n {
      var c := changes[i];
      StaysHidden(w, c, remaining, oracle, remote, below);
      ReadyStep(w, changes, i, remaining, oracle, remote);
      OneChange(w, c, remaining, oracle, remote);
      var (r, now) := Try(w, c, remaining, oracle);
      if r.Ok? {
        if Effect(w.rows, now.rows, c, remote) {
          OthersKept(w.rows, now.rows, c, remote);
        }
        HarmlessForgetsNothing(c, w.rows, remote, below);
        forall k | i + 1 <= k < n ensures Harmless(changes[k], now.rows, remote, below) {
          assert Harmless(changes[k], w.rows, remote, below);
          StillHarmless(changes[k], c, w.rows, now.rows, remote, below);
        }
        HiddenUntil(now, changes, i + 1, n, r.value, oracle, remote, below);
      }
    }
  }

  lemma HarmlessForgetsNothing(c: RemoteChange, rows: Rows, remote: RemoteState, below: ContentId)
    requires Harmless(c, rows, remote, below)
    ensures !c.Disappear?
  {
  }

  lemma StillHarmless(
    c: RemoteChange, done: RemoteChange, rows: Rows, now: Rows, remote: RemoteState, below: ContentId
  )
    requires Harmless(c, rows, remote, below) && c.id != done.id
    requires c.id in rows ==> c.id in now && now[c.id] == rows[c.id]
    ensures Harmless(c, now, remote, below)
  {
  }

  lemma HiddenPassesOver(
    w: World, added: RemoteChange, below: ContentId, remaining: seq<RemoteChange>, oracle: Oracle, remote: RemoteState
  )
    requires Awaiting(w) && Fair(oracle, remote) && IsHidden(w, below)
    requires added.New? && added.id in remote && remote[added.id].parent == Some(below)
    requires Try(w, added, remaining, oracle).0.Ok?
    ensures PassedOver(w, added, oracle)
  {
    hide OperateOn, Sound, RemoteHandle, WithParentType;
    OperatedStep(w, added, oracle);
    var a := oracle(w.clock);
    if added.id in a.contents {
      assert FromRemote(a.contents[added.id]) == Some(remote[added.id]);
      assert a.contents[added.id].parent == Some(below);
    }
  }

  // ---- The main result

  /** The round goes on successfully at change `n`, in this world. */
  lemma AtChange(w: World, changes: seq<RemoteChange>, i: nat, n: nat, remaining: seq<RemoteChange>, oracle: Oracle)
    requires i <= n < |changes| && Round(w, changes, i, remaining, oracle).0.Ok?
    ensures var (r, now) := Reached(w, changes, i, n, remaining, oracle);
            && r.Ok? && Try(now, changes[n], r.value, oracle).0.Ok?
            && (PassedOver(now, changes[n], oracle) ==> changes[n].id in RoundPassed(w, changes, i, remaining, oracle))
            && var (after, next) := Try(now, changes[n], r.value, oracle);
               && Round(next, changes, n + 1, after.value, oracle).0.Ok?
               && RoundPassed(next, changes, n + 1, after.value, oracle) <= RoundPassed(w, changes, i, remaining, oracle)
  {
    hide Try, PassedOver;
    RoundGoesOn(w, changes, i, n, remaining, oracle);
    var (r, now) := Reached(w, changes, i, n, remaining, oracle);
    assert r.Ok?;
    var (after, next) := Try(now, changes[n], r.value, oracle);
    assert Round(now, changes, n, r.value, oracle) ==
           if after.Ok? then Round(next, changes, n + 1, after.value, oracle) else (after, next);
  }

  /**
   Startup does not converge although it succeeds: after moves of bare contents only, the
   first folder that moves with contents stored below it hides them, and something new
   below one of them is passed over, wherever it comes next among harmless changes.
   */
  lemma {:induction false} MovedFolderPreventsConvergence(
    w: World, changes: seq<RemoteChange>, k: nat, n: nat, below: ContentId, oracle: Oracle, remote: RemoteState,
    ignored: seq<ContentId>
  )
    requires Tidy(w, remote) && Fair(oracle, remote) && DiskWorks(oracle)
    requires IsForest(TreeOf(remote)) && ParentsAreFolders(remote)
    requires RemoteSync.IsDiff(changes, w.rows, remote, ignored) && MovesAreListed(w.rows, remote, ignored)
    requires k < n < |changes| && MovesAreBare(changes, k, w.rows, remote) && Relocates(changes[k], w.rows, remote)
    requires below in w.rows && below != changes[k].id && Under(TreeOfRows(w.rows), changes[k].id, below)
    requires forall i :: 0 <= i < k ==> changes[i].id != below
    requires forall i :: k < i < n ==> Harmless(changes[i], w.rows, remote, below)
    requires changes[n].New? && changes[n].id in remote && remote[changes[n].id].parent == Some(below)
    requires Rounds(w, changes, oracle).result.Ok?
    ensures !Converged(Rounds(w, changes, oracle).world.rows, remote, ignored)
  {
    hide Tidy, Fair, DiskWorks, IsForest, Relocates, Under, PassedOver, Try, Converged, MovesAreListed, MovesAreBare, Everything,
      NeededBy, InOrder, RootedOnServer, Harmless, Awaiting, IsHidden, RemoteSync.IsDiff, ParentsAreFolders, Round, RoundPassed;
    RoundOfRounds(w, changes, oracle);
    PassedAfterMove(w, changes, k, n, below, oracle, remote, ignored);
    TidyAwaits(w, remote);
    ConvergenceIsExact(w, changes, oracle, remote, ignored);
  }

  lemma ReadyAtMove(
    w: World, now: World, changes: seq<RemoteChange>, k: nat, remaining: seq<RemoteChange>, oracle: Oracle, remote: RemoteState,
    anchors: set<ContentId>, needed: set<ContentId>
  )
    requires InOrder(now, changes, k, k, remaining, remote, anchors, needed) && k < |changes| && Fair(oracle, remote)
    requires now.rows.Keys <= anchors && Relocates(changes[k], w.rows, remote)
    requires Ready(changes, 0, [], w.rows, remote) && Untouched(w.rows, now.rows, changes, 0, k)
    ensures Awaiting(now) && Agrees(now.rows) && DiskTree(now.disk) && Ready(changes, k, remaining, now.rows, remote)
    ensures !PassedOver(now, changes[k], oracle)
    ensures Consistent(changes[k], now.rows, remote) && Relocates(changes[k], now.rows, remote)
  {
    hide PassedOver, IsForest, PathOf, Fair, Foreseen, DiskTree, FilesKnown, FoldersOnDisk;
    SteadyPassesNothing(now, changes[k], oracle, remote, anchors, needed);
    RootedAgrees(now.rows, anchors);
  }

  /** After the move, the changes to come are still harmless. */
  lemma HarmlessAhead(
    w: World, now: World, next: World, changes: seq<RemoteChange>, k: nat, n: nat, remote: RemoteState, below: ContentId
  )
    requires k < n <= |changes| && Ready(changes, 0, [], w.rows, remote) && Untouched(w.rows, now.rows, changes, 0, k)
    requires forall x :: x in now.rows && x != changes[k].id ==> x in next.rows && next.rows[x] == now.rows[x]
    requires forall i :: k < i < n ==> Harmless(changes[i], w.rows, remote, below)
    ensures forall i :: k + 1 <= i < n ==> Harmless(changes[i], next.rows, remote, below)
  {
    forall i | k + 1 <= i < n ensures Harmless(changes[i], next.rows, remote, below) {
      StillHarmless(changes[i], changes[k], w.rows, next.rows, remote, below);
    }
  }

  lemma {:induction false} PassedAfterMove(
    w: World, changes: seq<RemoteChange>, k: nat, n: nat, below: ContentId, oracle: Oracle, remote: RemoteState,
    ignored: seq<ContentId>
  )
    requires Tidy(w, remote) && Fair(oracle, remote) && DiskWorks(oracle)
    requires IsForest(TreeOf(remote)) && ParentsAreFolders(remote) && RemoteSync.IsDiff(changes, w.rows, remote, ignored)
    requires k < n < |changes| && MovesAreBare(changes, k, w.rows, remote) && Relocates(changes[k], w.rows, remote)
    requires below in w.rows && below != changes[k].id && Under(TreeOfRows(w.rows), changes[k].id, below)
    requires forall i :: 0 <= i < k ==> changes[i].id != below
    requires forall i :: k < i < n ==> Harmless(changes[i], w.rows, remote, below)
    requires changes[n].New? && changes[n].id in remote && remote[changes[n].id].parent == Some(below)
    requires Round(w, changes, 0, [], oracle).0.Ok?
    ensures changes[n].id in RoundPassed(w, changes, 0, [], oracle)
  {
    hide Tidy, Fair, DiskWorks, IsForest, Under, PassedOver, Try, MovesAreBare, NeededBy, InOrder, RootedOnServer, Harmless, Awaiting,
      IsHidden, RemoteSync.IsDiff, ParentsAreFolders, Round, RoundPassed, Reached, Ready, InPlace, Agrees, DiskTree, Effect, Untouched;
    var anchors, needed := Everything(w.rows, remote), NeededBy(changes, w.rows, remote);
    var move := changes[k];
    DiffIsReady(changes, w.rows, remote, ignored);
    StartsBare(w, changes, k, remote, ignored);
    AtChange(w, changes, 0, k, [], oracle);
    StaysInOrder(w, changes, 0, k, [], oracle, remote, anchors, needed);
    KeptBelow(w, changes, 0, k, [], oracle, remote, anchors, needed, below);
    var (r, now) := Reached(w, changes, 0, k, [], oracle);
    ReadyAtMove(w, now, changes, k, r.value, oracle, remote, anchors, needed);
    MoveHides(now, move, below, r.value, oracle, remote);
    OneChange(now, move, r.value, oracle, remote);
    ReadyStep(now, changes, k, r.value, oracle, remote);
    var (after, next) := Try(now, move, r.value, oracle);
    OthersKept(now.rows, next.rows, move, remote);
    HarmlessAhead(w, now, next, changes, k, n, remote, below);
    AtChange(next, changes, k + 1, n, after.value, oracle);
    HiddenUntil(next, changes, k + 1, n, after.value, oracle, remote, below);
    var (s, last) := Reached(next, changes, k + 1, n, after.value, oracle);
    HiddenPassesOver(last, changes[n], below, s.value, oracle, remote);
  }

  lemma RoundOfRounds(w: World, changes: seq<RemoteChange>, oracle: Oracle)
    ensures Rounds(w, changes, oracle).result.Ok? ==> Round(w, changes, 0, [], oracle).0.Ok?
    ensures RoundPassed(w, changes, 0, [], oracle) <= RoundsPassed(w, changes, oracle)
  {
    hide Round, RoundPassed;
  }

  lemma TidyAwaits(w: World, remote: RemoteState)
    requires Tidy(w, remote)
    ensures Awaiting(w)
  {
  }
}
