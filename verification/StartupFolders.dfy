/**
 When the startup synchronization passes nothing over: as long as parents are folders on
 disk, and no change looks up a folder below one that moves with stored contents, no
 change is taken for one of an attachment, so that startup converges.
 */
module StartupFolders {
  import opened Wrappers
  import opened Forest
  import opened Contents
  import opened Disk
  import opened DiskMoves
  import opened DiskState
  import opened DiskIndex
  import opened Executors
  import opened Operator
  import opened OperateChanges
  import RemoteSync
  import opened Startup
  import opened StartupAnchors

  // ---- What can be looked up before the synchronization starts

  ghost predicate FolderAt(rows: Rows, disk: Disk, id: ContentId) {
    id in rows ==> IsDirectory(disk, rows[id].path)
  }

  /** Every stored parent is a folder on disk, and so is every stored content below which the server has something. */
  ghost predicate ParentsOnDisk(rows: Rows, disk: Disk, remote: RemoteState) {
    && (forall x :: x in rows && rows[x].parent.Some? ==> FolderAt(rows, disk, rows[x].parent.value))
    && (forall x :: x in remote && remote[x].parent.Some? ==> FolderAt(rows, disk, remote[x].parent.value))
  }

  /** A plain file on disk that is not stored, like the database itself, has no name of a folder of the server. */
  ghost predicate StrayFilesApart(rows: Rows, disk: Disk, remote: RemoteState) {
    forall q :: IsPlain(disk, q) ==> PathTaken(rows, q) || !NamesFolder(remote, LastName(q))
  }

  /** The database and the disk fit each other and the server's folders. */
  ghost predicate Tidy(w: World, remote: RemoteState) {
    && Awaiting(w) && Agrees(w.rows) && DiskTree(w.disk)
    && ParentsOnDisk(w.rows, w.disk, remote) && StrayFilesApart(w.rows, w.disk, remote)
  }

  ghost predicate ParentsAreFolders(remote: RemoteState) {
    forall x :: x in remote && remote[x].parent.Some? && remote[x].parent.value in remote ==>
      remote[remote[x].parent.value].kind == Folder
  }

  ghost predicate DiskWorks(oracle: Oracle) {
    forall n: nat :: oracle(n).ioOk
  }

  /** The server has the content where it is stored. */
  ghost predicate InPlace(rows: Rows, remote: RemoteState, id: ContentId)
    requires id in rows && id in remote
  {
    rows[id].parent == remote[id].parent && LastName(rows[id].path) == remote[id].name
  }

  /** The change moves or renames a stored content. */
  ghost predicate Relocates(c: RemoteChange, rows: Rows, remote: RemoteState) {
    c.Updated? && c.id in rows && c.id in remote && !InPlace(rows, remote, c.id)
  }

  /** The change puts or keeps a content below `id`. */
  ghost predicate PutsBelow(c: RemoteChange, remote: RemoteState, id: ContentId) {
    !c.Disappear? && c.id in remote && remote[c.id].parent == Some(id)
  }

  /** From `i` on, nothing is stored or put below the content of change `k` until that change. */
  ghost predicate Bare(changes: seq<RemoteChange>, i: nat, k: nat, rows: Rows, remote: RemoteState)
    requires k < |changes|
  {
    Childless(rows, changes[k].id) && forall j :: i <= j <= k ==> !PutsBelow(changes[j], remote, changes[k].id)
  }

  /** Of the changes from `i` to `n`, those that move one of `among` move it with nothing below it. */
  ghost predicate BareAmong(
    changes: seq<RemoteChange>, i: nat, n: nat, rows: Rows, remote: RemoteState, among: set<ContentId>
  )
    requires n <= |changes|
  {
    forall k :: i <= k < n && changes[k].id in among && Relocates(changes[k], rows, remote) ==> Bare(changes, i, k, rows, remote)
  }

  /** The parent whose type decides whether the change is passed over. */
  ghost function LookedUp(c: RemoteChange, rows: Rows, remote: RemoteState): Option<ContentId> {
    if c.New? then if c.id in remote then remote[c.id].parent else None
    else if c.id in rows then rows[c.id].parent else None
  }

  /** The content is stored at or below one that moves while something is below it. */
  ghost predicate Uprooted(changes: seq<RemoteChange>, rows: Rows, remote: RemoteState, x: ContentId) {
    exists k :: 0 <= k < |changes| && Relocates(changes[k], rows, remote) && !Bare(changes, 0, k, rows, remote) &&
                Under(TreeOfRows(rows), changes[k].id, x)
  }

  /** The content is stored, or is on the server, at or below an uprooted one. */
  ghost predicate Shaken(changes: seq<RemoteChange>, rows: Rows, remote: RemoteState, x: ContentId) {
    || Uprooted(changes, rows, remote, x)
    || exists y :: y in remote && Under(TreeOf(remote), y, x) && Uprooted(changes, rows, remote, y)
  }

  /** No folder is looked up that is stored, or is on the server, strictly below an uprooted one. */
  ghost predicate LookupsHold(changes: seq<RemoteChange>, rows: Rows, remote: RemoteState) {
    forall k :: 0 <= k < |changes| && LookedUp(changes[k], rows, remote).Some? ==>
      SteadyParents(changes, rows, remote, LookedUp(changes[k], rows, remote).value)
  }

  ghost predicate SteadyParents(changes: seq<RemoteChange>, rows: Rows, remote: RemoteState, p: ContentId) {
    && (p in rows && rows[p].parent.Some? ==> !Shaken(changes, rows, remote, rows[p].parent.value))
    && (p in remote && remote[p].parent.Some? ==> !Shaken(changes, rows, remote, remote[p].parent.value))
  }

  // ---- One change keeps things in order

  ghost predicate Steady(w: World, remote: RemoteState, anchors: set<ContentId>, needed: set<ContentId>) {
    Awaiting(w) && Orderly(w.rows, w.disk, remote, anchors, needed)
  }

  /** What the change looks up is needed, and what it creates is a folder if it is needed. */
  ghost predicate Foreseen(c: RemoteChange, rows: Rows, remote: RemoteState, needed: set<ContentId>) {
    && (LookedUp(c, rows, remote).Some? ==> LookedUp(c, rows, remote).value in needed)
    && (c.New? && c.id in needed && c.id in remote ==> remote[c.id].kind == Folder)
  }

  lemma SteadyPassesNothing(
    w: World, c: RemoteChange, oracle: Oracle, remote: RemoteState, anchors: set<ContentId>, needed: set<ContentId>
  )
    requires Steady(w, remote, anchors, needed) && Fair(oracle, remote) && Consistent(c, w.rows, remote)
    requires Foreseen(c, w.rows, remote, needed)
    ensures !PassedOver(w, c, oracle)
  {
    hide Sound, Rooted, DiskTree, FilesKnown;
    var a := oracle(w.clock);
    if c.New? && c.id in a.contents {
      assert FromRemote(a.contents[c.id]) == Some(remote[c.id]);
      assert a.contents[c.id].parent == remote[c.id].parent;
    }
    var looked := LookedUp(c, w.rows, remote);
    if looked.Some? && looked.value in w.rows {
      assert Anchored(w.rows, anchors, looked.value);
    }
  }

  /** A creation that succeeds, by its effects. */
  lemma CreationEffects(rows: Rows, disk: Disk, id: ContentId, a: Answers)
    requires DiskTree(disk) && PresentAttempt(rows, disk, id, a).outcome.Ok?
    ensures var content := GetAsContent(a, id).value;
            var path := ChildPath(TreeOfRows(rows), content.parent, content.name).value;
            var now := PresentAttempt(rows, disk, id, a).disk;
            Grown(disk, now, path) && (content.kind == Folder && !IsPlain(disk, path) ==> IsDirectory(now, path))
  {
    hide ChildPath, PathOf, TreeOfRows, CreateDirAll, CreateFile, DiskTree;
    var content := GetAsContent(a, id).value;
    var path := ChildPath(TreeOfRows(rows), content.parent, content.name).value;
    if content.kind == Folder {
      if CreateDirAll(disk, path, a.ioOk).Some? {
        FolderCreated(disk, path, a.ioOk);
      }
    } else {
      FileCreated(disk, path, a.ioOk);
    }
  }

  lemma MissingKeepsDisk(rows: Rows, disk: Disk, id: ContentId, a: Answers)
    ensures var attempt := PresentAttempt(rows, disk, id, a);
            attempt.outcome.Err? && attempt.outcome.error.MissingParent? ==> attempt.disk == disk
  {
    hide ChildPath, TreeOfRows;
  }

  /** What a successful call leaves in order. */
  ghost predicate OrderlyWorld(w: World, remote: RemoteState, anchors: set<ContentId>, needed: set<ContentId>) {
    Orderly(w.rows, w.disk, remote, anchors, needed)
  }

  lemma CreationSteady(w: World, id: ContentId, a: Answers, remote: RemoteState, anchors: set<ContentId>, needed: set<ContentId>)
    requires OrderlyWorld(w, remote, anchors, needed) && RootedOnServer(remote, anchors, needed)
    requires id in remote && remote[id].id == id && (id in a.contents ==> FromRemote(a.contents[id]) == Some(remote[id]))
    requires id in needed ==> remote[id].kind == Folder
    ensures var (r, now) := Finish(w, PresentAttempt(w.rows, w.disk, id, a));
            r.Ok? || LacksParent(r) ==> OrderlyWorld(now, remote, anchors, needed)
  {
    hide PresentAttempt, Orderly, ChildPath, TreeOfRows, RootedOnServer;
    var attempt := PresentAttempt(w.rows, w.disk, id, a);
    MissingKeepsDisk(w.rows, w.disk, id, a);
    if attempt.outcome.Ok? {
      OrderHasTree(w.rows, w.disk, remote, anchors, needed);
      var path := ChildPath(TreeOfRows(w.rows), remote[id].parent, remote[id].name).value;
      CreationEffects(w.rows, w.disk, id, a);
      if AddRow(w.rows, remote[id], path, a.timestamp.value).Ok? {
        CreationKeepsOrder(w.rows, w.disk, attempt.disk, remote[id], path, a.timestamp.value, remote, anchors, needed);
      }
    }
  }

  lemma OrderHasTree(rows: Rows, disk: Disk, remote: RemoteState, anchors: set<ContentId>, needed: set<ContentId>)
    requires Orderly(rows, disk, remote, anchors, needed)
    ensures Sound(rows) && Rooted(rows, anchors) && DiskTree(disk)
  {
  }

  lemma UpdateEffects(rows: Rows, disk: Disk, id: ContentId, download: bool, a: Answers, local: Path, target: Path)
    requires UpdatedAttempt(rows, disk, id, download, a).outcome.Ok? && GetAsContent(a, id).Some?
    requires PathOf(TreeOfRows(rows), id) == Some(local)
    requires var c := GetAsContent(a, id).value; ChildPath(TreeOfRows(rows), c.parent, c.name) == Some(target)
    ensures Updates(disk, UpdatedAttempt(rows, disk, id, download, a).disk, local, target)
  {
    hide ChildPath, PathOf, TreeOfRows, MoveBelow, Replaceable;
  }

  lemma UpdateHasPlace(rows: Rows, disk: Disk, id: ContentId, download: bool, a: Answers)
    requires UpdatedAttempt(rows, disk, id, download, a).outcome.Ok?
    ensures PathOf(TreeOfRows(rows), id).Some? && GetAsContent(a, id).Some?
    ensures var c := GetAsContent(a, id).value; ChildPath(TreeOfRows(rows), c.parent, c.name).Some?
  {
    hide ChildPath, PathOf, TreeOfRows, RenameOnDisk, DownloadAttempt;
  }

  /** Where an update that succeeds goes, that its new parent is not inside the content, and what it leaves on disk. */
  lemma UpdateFindsPlace(rows: Rows, disk: Disk, id: ContentId, download: bool, a: Answers) returns (local: Path, target: Path)
    requires Sound(rows) && UpdatedAttempt(rows, disk, id, download, a).outcome.Ok?
    ensures id in rows && GetAsContent(a, id).Some?
    ensures var c := GetAsContent(a, id).value;
            && PathOf(TreeOfRows(rows), id) == Some(local)
            && ChildPath(TreeOfRows(rows), c.parent, c.name) == Some(target)
            && CanBeParent(rows, id, c.parent) && NewPath(rows, c.name, c.parent) == target
    ensures Updates(disk, UpdatedAttempt(rows, disk, id, download, a).disk, local, target)
  {
    hide PathOf, TreeOfRows, Sound, CanBeParent, UpdatedAttempt, Updates;
    UpdateParentOutside(rows, disk, id, download, a);
    UpdateHasPlace(rows, disk, id, download, a);
    var content := GetAsContent(a, id).value;
    local := PathOf(TreeOfRows(rows), id).value;
    target := ChildPath(TreeOfRows(rows), content.parent, content.name).value;
    UpdateEffects(rows, disk, id, download, a, local, target);
  }

  lemma InPlaceMeansSamePath(rows: Rows, remote: RemoteState, id: ContentId)
    requires Sound(rows) && id in rows && id in remote && InPlace(rows, remote, id)
    ensures ChildPath(TreeOfRows(rows), remote[id].parent, remote[id].name) == PathOf(TreeOfRows(rows), id)
  {
    assert id in TreeOfRows(rows);
    PathStep(TreeOfRows(rows), id);
  }

  lemma UpdateSteady(w: World, id: ContentId, a: Answers, remote: RemoteState, anchors: set<ContentId>, needed: set<ContentId>)
    requires OrderlyWorld(w, remote, anchors, needed) && RootedOnServer(remote, anchors, needed)
    requires id in remote && id in w.rows && (id in a.contents ==> FromRemote(a.contents[id]) == Some(remote[id]))
    requires id in anchors ==> InPlace(w.rows, remote, id) || Childless(w.rows, id)
    ensures var (r, now) := Finish(w, UpdatedAttempt(w.rows, w.disk, id, true, a));
            r.Ok? ==> OrderlyWorld(now, remote, anchors, needed)
  {
    hide UpdatedAttempt, Orderly, ChildPath, PathOf, TreeOfRows, Childless, InPlace, NewPath, Updates, CanBeParent, RootedOnServer;
    var attempt := UpdatedAttempt(w.rows, w.disk, id, true, a);
    if attempt.outcome.Ok? {
      OrderHasTree(w.rows, w.disk, remote, anchors, needed);
      var local, target := UpdateFindsPlace(w.rows, w.disk, id, true, a);
      var c := remote[id];
      if UpdateRow(w.rows, id, c.name, c.revision, c.parent, a.timestamp.value).Ok? {
        var now := UpdateRow(w.rows, id, c.name, c.revision, c.parent, a.timestamp.value).value;
        if InPlace(w.rows, remote, id) {
          InPlaceMeansSamePath(w.rows, remote, id);
        }
        assert Relocated(w.rows, now, remote, id, local, target);
        UpdateKeepsOrder(w.rows, w.disk, now, attempt.disk, remote, anchors, needed, id, local, target);
      }
    }
  }

  lemma ForgettingSteady(w: World, id: ContentId, a: Answers, remote: RemoteState, anchors: set<ContentId>, needed: set<ContentId>)
    requires OrderlyWorld(w, remote, anchors, needed) && a.ioOk
    ensures var (r, now) := Finish(w, AbsentAttempt(w.rows, w.disk, id, a));
            r.Ok? ==> OrderlyWorld(now, remote, anchors, needed)
  {
    hide Orderly, RemoveFromDisk, TypeAt, PathOf, TreeOfRows, ForgetTree;
    if id in w.rows && PathOf(TreeOfRows(w.rows), id).Some? {
      ForgetKeepsOrder(w.rows, w.disk, id, PathOf(TreeOfRows(w.rows), id).value, remote, anchors, needed);
    }
  }

  /** A change that looks up a needed folder is not passed over, and whatever it does leaves things in order. */
  lemma SteadyStep(
    w: World, c: RemoteChange, remaining: seq<RemoteChange>, oracle: Oracle, remote: RemoteState, anchors: set<ContentId>,
    needed: set<ContentId>
  )
    requires Steady(w, remote, anchors, needed) && RootedOnServer(remote, anchors, needed)
    requires Fair(oracle, remote) && DiskWorks(oracle) && Consistent(c, w.rows, remote) && Foreseen(c, w.rows, remote, needed)
    requires c.Updated? && c.id in anchors ==> InPlace(w.rows, remote, c.id) || Childless(w.rows, c.id)
    ensures !PassedOver(w, c, oracle)
    ensures var (r, now) := Try(w, c, remaining, oracle); r.Ok? ==> Steady(now, remote, anchors, needed)
  {
    hide OperateOn, Finish, AttemptOf, PassedOver, Sound, PresentAttempt, UpdatedAttempt, AbsentAttempt, InPlace, Childless,
      Orderly, RootedOnServer, LookedUp;
    SteadyPassesNothing(w, c, oracle, remote, anchors, needed);
    OneChange(w, c, remaining, oracle, remote);
    var (r, now) := OperateOn(w, EventOf(c), oracle);
    if r.Ok? || LacksParent(r) {
      HandledStep(w, c, oracle);
      var asked := w.(clock := w.clock + 1);
      var a := oracle(asked.clock);
      AttemptsOfChange(w, c, a);
      match c
      case New(id, _) => CreationSteady(asked, id, a, remote, anchors, needed);
      case Updated(id, _) =>
        UpdateSteady(asked, id, a, remote, anchors, needed);
        UpdateSettles(asked, id, true, a, remote);
      case Disappear(id, _) =>
        ForgettingSteady(asked, id, a, remote, anchors, needed);
        ForgettingForgets(asked, id, a);
    }
  }

  // ---- Along a list of changes

  ghost predicate ListForeseen(
    changes: seq<RemoteChange>, i: nat, remaining: seq<RemoteChange>, rows: Rows, remote: RemoteState, needed: set<ContentId>
  ) {
    && (forall k :: i <= k < |changes| ==> Foreseen(changes[k], rows, remote, needed))
    && (forall k :: 0 <= k < |remaining| ==> Foreseen(remaining[k], rows, remote, needed))
  }

  lemma EffectOnParent(rows: Rows, now: Rows, c: RemoteChange, remote: RemoteState)
    requires Effect(rows, now, c, remote)
    ensures !c.Disappear? ==> c.id in now && c.id in remote && now[c.id].parent == remote[c.id].parent
    ensures c.Disappear? ==> c.id !in now || now[c.id] == rows[c.id]
  {
  }

  lemma StillForeseen(c: RemoteChange, rows: Rows, now: Rows, remote: RemoteState, needed: set<ContentId>)
    requires Foreseen(c, rows, remote, needed)
    requires c.New? || (c.id in now ==> c.id in rows && now[c.id] == rows[c.id])
    ensures Foreseen(c, now, remote, needed)
  {
  }

  lemma ForeseenStep(
    w: World, changes: seq<RemoteChange>, i: nat, remaining: seq<RemoteChange>, oracle: Oracle, remote: RemoteState,
    needed: set<ContentId>
  )
    requires Awaiting(w) && Fair(oracle, remote) && i < |changes| && Ready(changes, i, remaining, w.rows, remote)
    requires ListForeseen(changes, i, remaining, w.rows, remote, needed)
    ensures var (r, now) := Try(w, changes[i], remaining, oracle);
            r.Ok? ==> ListForeseen(changes, i + 1, r.value, now.rows, remote, needed)
  {
    hide Awaiting, Fair, Try, Effect, PassedOver, Consistent, Foreseen;
    var c := changes[i];
    OneChange(w, c, remaining, oracle, remote);
    var (r, now) := Try(w, c, remaining, oracle);
    if r.Ok? {
      if Effect(w.rows, now.rows, c, remote) {
        OthersKept(w.rows, now.rows, c, remote);
      }
      forall k | i + 1 <= k < |changes| ensures Foreseen(changes[k], now.rows, remote, needed) {
        StillForeseen(changes[k], w.rows, now.rows, remote, needed);
      }
      forall k | 0 <= k < |r.value| ensures Foreseen(r.value[k], now.rows, remote, needed) {
        StillForeseen(r.value[k], w.rows, now.rows, remote, needed);
      }
    }
  }

  /** What is left of the list still moves only bare contents. */
  lemma BareStep(
    w: World, changes: seq<RemoteChange>, i: nat, n: nat, remaining: seq<RemoteChange>, oracle: Oracle, remote: RemoteState,
    among: set<ContentId>
  )
    requires Awaiting(w) && Fair(oracle, remote) && i < n <= |changes| && Ready(changes, i, remaining, w.rows, remote)
    requires BareAmong(changes, i, n, w.rows, remote, among)
    ensures var (r, now) := Try(w, changes[i], remaining, oracle);
            r.Ok? ==> BareAmong(changes, i + 1, n, now.rows, remote, among)
  {
    hide Awaiting, Fair, Try, Effect, PassedOver, Consistent, InPlace;
    var c := changes[i];
    OneChange(w, c, remaining, oracle, remote);
    var (r, now) := Try(w, c, remaining, oracle);
    if r.Ok? && Effect(w.rows, now.rows, c, remote) {
      OthersKept(w.rows, now.rows, c, remote);
      EffectOnParent(w.rows, now.rows, c, remote);
      forall k | i + 1 <= k < n && changes[k].id in among && Relocates(changes[k], now.rows, remote)
        ensures Bare(changes, i + 1, k, now.rows, remote)
      {
        SamePlace(w.rows, now.rows, remote, changes[k].id);
        assert Bare(changes, i, k, w.rows, remote);
      }
    }
  }

  lemma SamePlace(rows: Rows, now: Rows, remote: RemoteState, id: ContentId)
    requires id in rows && id in now && id in remote && now[id] == rows[id]
    ensures InPlace(now, remote, id) <==> InPlace(rows, remote, id)
  {
  }

  /** The remaining changes and the world that a round from `i` comes to before change `n`. */
  ghost function Reached(w: World, changes: seq<RemoteChange>, i: nat, n: nat, remaining: seq<RemoteChange>, oracle: Oracle)
    : (Result<seq<RemoteChange>, OperatorError>, World)
    requires i <= n <= |changes|
    decreases n - i
  {
    if i == n then (Ok(remaining), w)
    else
      var (r, now) := Try(w, changes[i], remaining, oracle);
      if r.Ok? then Reached(now, changes, i + 1, n, r.value, oracle) else (r, now)
  }

  lemma {:induction false} RoundGoesOn(w: World, changes: seq<RemoteChange>, i: nat, n: nat, remaining: seq<RemoteChange>, oracle: Oracle)
    requires i <= n <= |changes|
    ensures var (r, now) := Reached(w, changes, i, n, remaining, oracle);
            && (r.Ok? ==> Round(w, changes, i, remaining, oracle) == Round(now, changes, n, r.value, oracle))
            && (r.Ok? ==> RoundPassed(now, changes, n, r.value, oracle) <= RoundPassed(w, changes, i, remaining, oracle))
            && (r.Err? ==> Round(w, changes, i, remaining, oracle) == (r, now))
    decreases n - i
  {
    hide Try, PassedOver;
    if i < n {
      var (r, now) := Try(w, changes[i], remaining, oracle);
      if r.Ok? {
        RoundGoesOn(now, changes, i + 1, n, r.value, oracle);
      }
    }
  }

  /** Everything that a list relies on from change `i` on. */
  ghost predicate InOrder(
    w: World, changes: seq<RemoteChange>, i: nat, n: nat, remaining: seq<RemoteChange>, remote: RemoteState,
    anchors: set<ContentId>, needed: set<ContentId>
  ) {
    && i <= n <= |changes|
    && Steady(w, remote, anchors, needed) && Ready(changes, i, remaining, w.rows, remote)
    && ListForeseen(changes, i, remaining, w.rows, remote, needed)
    && BareAmong(changes, i, n, w.rows, remote, anchors)
  }

  lemma InOrderStep(
    w: World, changes: seq<RemoteChange>, i: nat, n: nat, remaining: seq<RemoteChange>, oracle: Oracle, remote: RemoteState,
    anchors: set<ContentId>, needed: set<ContentId>
  )
    requires InOrder(w, changes, i, n, remaining, remote, anchors, needed) && i < n
    requires RootedOnServer(remote, anchors, needed) && Fair(oracle, remote) && DiskWorks(oracle)
    ensures !PassedOver(w, changes[i], oracle)
    ensures var (r, now) := Try(w, changes[i], remaining, oracle);
            r.Ok? ==> InOrder(now, changes, i + 1, n, r.value, remote, anchors, needed)
  {
    hide Fair, Try, PassedOver, Orderly, Awaiting, RootedOnServer, InPlace, Childless, Foreseen;
    BareNow(changes, i, n, w.rows, remote, anchors);
    SteadyStep(w, changes[i], remaining, oracle, remote, anchors, needed);
    ReadyStep(w, changes, i, remaining, oracle, remote);
    ForeseenStep(w, changes, i, remaining, oracle, remote, needed);
    BareStep(w, changes, i, n, remaining, oracle, remote, anchors);
  }

  lemma BareNow(changes: seq<RemoteChange>, i: nat, n: nat, rows: Rows, remote: RemoteState, among: set<ContentId>)
    requires i < n <= |changes| && BareAmong(changes, i, n, rows, remote, among)
    requires changes[i].Updated? ==> changes[i].id in rows && changes[i].id in remote
    ensures changes[i].Updated? && changes[i].id in among ==>
              InPlace(rows, remote, changes[i].id) || Childless(rows, changes[i].id)
  {
  }

  lemma {:induction false} StaysInOrder(
    w: World, changes: seq<RemoteChange>, i: nat, n: nat, remaining: seq<RemoteChange>, oracle: Oracle, remote: RemoteState,
    anchors: set<ContentId>, needed: set<ContentId>
  )
    requires InOrder(w, changes, i, n, remaining, remote, anchors, needed)
    requires RootedOnServer(remote, anchors, needed) && Fair(oracle, remote) && DiskWorks(oracle)
    ensures var (r, now) := Reached(w, changes, i, n, remaining, oracle);
            && (r.Ok? ==> InOrder(now, changes, n, n, r.value, remote, anchors, needed))
            && RoundPassed(w, changes, i, remaining, oracle) ==
               if r.Ok? then RoundPassed(now, changes, n, r.value, oracle) else {}
    decreases n - i
  {
    hide Fair, Try, PassedOver, RootedOnServer, Steady, Ready, ListForeseen, BareAmong, DiskWorks;
    if i < n {
      InOrderStep(w, changes, i, n, remaining, oracle, remote, anchors, needed);
      var (r, now) := Try(w, changes[i], remaining, oracle);
      if r.Ok? {
        StaysInOrder(now, changes, i + 1, n, r.value, oracle, remote, anchors, needed);
      }
    }
  }

  lemma {:induction false} NothingPassed(
    w: World, changes: seq<RemoteChange>, oracle: Oracle, remote: RemoteState, anchors: set<ContentId>, needed: set<ContentId>
  )
    requires InOrder(w, changes, 0, |changes|, [], remote, anchors, needed)
    requires RootedOnServer(remote, anchors, needed) && Fair(oracle, remote) && DiskWorks(oracle)
    ensures RoundsPassed(w, changes, oracle) == {}
    decreases |changes|
  {
    hide Fair, Round, RootedOnServer, Steady, Ready, ListForeseen, BareAmong, DiskWorks;
    StaysInOrder(w, changes, 0, |changes|, [], oracle, remote, anchors, needed);
    RoundGoesOn(w, changes, 0, |changes|, [], oracle);
    var (r, now) := Round(w, changes, 0, [], oracle);
    if r.Ok? {
      RoundAtEnd(Reached(w, changes, 0, |changes|, [], oracle).1, changes, Reached(w, changes, 0, |changes|, [], oracle).0, oracle);
      NextRound(now, changes, r.value, remote, anchors, needed);
      if r.value != [] && |r.value| < |changes| {
        NothingPassed(now, r.value, oracle, remote, anchors, needed);
      }
    }
  }

  lemma RoundAtEnd(w: World, changes: seq<RemoteChange>, r: Result<seq<RemoteChange>, OperatorError>, oracle: Oracle)
    ensures r.Ok? ==> Round(w, changes, |changes|, r.value, oracle) == (r, w)
    ensures r.Ok? ==> RoundPassed(w, changes, |changes|, r.value, oracle) == {}
  {
  }

  /** What is put aside by a round makes the list of the next one. */
  lemma NextRound(
    w: World, changes: seq<RemoteChange>, remaining: seq<RemoteChange>, remote: RemoteState, anchors: set<ContentId>,
    needed: set<ContentId>
  )
    requires InOrder(w, changes, |changes|, |changes|, remaining, remote, anchors, needed)
    ensures InOrder(w, remaining, 0, |remaining|, [], remote, anchors, needed)
  {
    hide Steady, Foreseen, Consistent;
    RoundOver(changes, remaining, w.rows, remote);
  }

  // ---- The anchors of a list

  ghost function AnchorsOf(changes: seq<RemoteChange>, rows: Rows, remote: RemoteState): set<ContentId> {
    set x | x in rows.Keys + remote.Keys && !Shaken(changes, rows, remote, x)
  }

  ghost function NeededBy(changes: seq<RemoteChange>, rows: Rows, remote: RemoteState): set<ContentId> {
    set k | 0 <= k < |changes| && LookedUp(changes[k], rows, remote).Some? :: LookedUp(changes[k], rows, remote).value
  }

  /** What the comparison lists about the contents that are both stored and on the server. */
  ghost predicate ListsMoves(changes: seq<RemoteChange>, rows: Rows, remote: RemoteState) {
    forall id :: id in rows && id in remote && rows[id].parent != remote[id].parent ==>
      exists k :: 0 <= k < |changes| && changes[k].id == id && changes[k].Updated?
  }

  lemma DiffListsMoves(changes: seq<RemoteChange>, rows: Rows, remote: RemoteState, ignored: seq<ContentId>)
    requires IsForest(TreeOf(remote))
    requires RemoteSync.IsDiff(changes, rows, remote, ignored) && MovesAreListed(rows, remote, ignored)
    ensures ListsMoves(changes, rows, remote)
  {
    hide IsForest;
    forall id | id in rows && id in remote && rows[id].parent != remote[id].parent
      ensures exists k :: 0 <= k < |changes| && changes[k].id == id && changes[k].Updated?
    {
      PathDefined(TreeOf(remote), id);
      var p := PathOf(TreeOf(remote), id).value;
      assert RemoteChange.Updated(id, p) in changes;
    }
  }

  lemma UprootedBelow(changes: seq<RemoteChange>, rows: Rows, remote: RemoteState, above: ContentId, x: ContentId)
    requires Sound(rows) && Under(TreeOfRows(rows), above, x) && Uprooted(changes, rows, remote, above)
    ensures Uprooted(changes, rows, remote, x)
  {
    var k :| 0 <= k < |changes| && Relocates(changes[k], rows, remote) && !Bare(changes, 0, k, rows, remote) &&
             Under(TreeOfRows(rows), changes[k].id, above);
    UnderTransitive(TreeOfRows(rows), changes[k].id, above, x);
  }

  /** A stored parent that is not uprooted has the same parent on the server. */
  lemma ParentStays(changes: seq<RemoteChange>, rows: Rows, remote: RemoteState, p: ContentId, child: ContentId)
    requires Sound(rows) && ListsMoves(changes, rows, remote)
    requires p in rows && p in remote && child in rows && rows[child].parent == Some(p) && !Uprooted(changes, rows, remote, p)
    ensures rows[p].parent == remote[p].parent
  {
    hide IsForest, PathOf;
    if rows[p].parent != remote[p].parent {
      var k :| 0 <= k < |changes| && changes[k].id == p && changes[k].Updated?;
      assert Relocates(changes[k], rows, remote) && !Bare(changes, 0, k, rows, remote);
      RootIsUnder(rows, p);
    }
  }

  /** What is above a stored parent on the server is above it in the database too, unless it is uprooted. */
  lemma {:induction false} AboveOnServer(
    changes: seq<RemoteChange>, rows: Rows, remote: RemoteState, p: ContentId, child: ContentId, y: ContentId
  )
    requires Sound(rows) && IsForest(TreeOf(remote)) && ListsMoves(changes, rows, remote)
    requires child in rows && rows[child].parent == Some(p) && !Uprooted(changes, rows, remote, p)
    requires p in rows && p in remote && Under(TreeOf(remote), y, p)
    ensures Under(TreeOfRows(rows), y, p)
    decreases Depth(TreeOfRows(rows), p)
  {
    hide Uprooted;
    var t, u := TreeOfRows(rows), TreeOf(remote);
    assert p in t && p in u;
    UnderStep(u, y, p);
    UnderStep(t, y, p);
    if y != p {
      ParentStays(changes, rows, remote, p, child);
      var g := rows[p].parent.value;
      assert g in t && g in u;
      ParentOf(rows, p);
      UnderStep(t, g, g);
      UnderStep(t, g, p);
      if Uprooted(changes, rows, remote, g) {
        UprootedBelow(changes, rows, remote, g, p);
      }
      AboveOnServer(changes, rows, remote, g, p, y);
    }
  }

  lemma StoredParentHolds(changes: seq<RemoteChange>, rows: Rows, remote: RemoteState, x: ContentId)
    requires Sound(rows) && IsForest(TreeOf(remote)) && ListsMoves(changes, rows, remote)
    requires x in rows && rows[x].parent.Some? && !Uprooted(changes, rows, remote, rows[x].parent.value)
    ensures !Shaken(changes, rows, remote, rows[x].parent.value)
  {
    hide IsForest, PathOf, Uprooted;
    ParentOf(rows, x);
    var p := rows[x].parent.value;
    forall y | y in remote && Under(TreeOf(remote), y, p) && Uprooted(changes, rows, remote, y) ensures false {
      UnderIsThere(TreeOf(remote), y, p);
      AboveOnServer(changes, rows, remote, p, x, y);
      UprootedBelow(changes, rows, remote, y, p);
    }
  }

  lemma UnderIsThere(t: Tree, y: ContentId, x: ContentId)
    requires Under(t, y, x)
    ensures x in t
  {
  }

  lemma AnchorsAreRooted(changes: seq<RemoteChange>, rows: Rows, remote: RemoteState)
    requires Sound(rows) && Agrees(rows) && IsForest(TreeOf(remote)) && ListsMoves(changes, rows, remote)
    ensures Rooted(rows, AnchorsOf(changes, rows, remote))
  {
    hide IsForest, PathOf, Uprooted;
    var anchors := AnchorsOf(changes, rows, remote);
    forall x | x in rows && x in anchors ensures Anchored(rows, anchors, x) {
      if rows[x].parent.Some? {
        ParentOf(rows, x);
        var p := rows[x].parent.value;
        RootIsUnder(rows, p);
        if Uprooted(changes, rows, remote, p) {
          UprootedBelow(changes, rows, remote, p, x);
        }
        StoredParentHolds(changes, rows, remote, x);
      }
    }
  }

  lemma ServerParentHolds(changes: seq<RemoteChange>, rows: Rows, remote: RemoteState, x: ContentId)
    requires IsForest(TreeOf(remote)) && x in remote && remote[x].parent.Some? && !Shaken(changes, rows, remote, x)
    ensures remote[x].parent.value in remote && !Shaken(changes, rows, remote, remote[x].parent.value)
  {
    hide PathOf, Uprooted;
    var u, r := TreeOf(remote), remote[x].parent.value;
    assert x in u;
    assert r in u;
    UnderStep(u, r, r);
    forall y ensures Under(u, y, r) ==> Under(u, y, x) {
      UnderStep(u, y, x);
    }
  }

  lemma AnchorsOnServer(changes: seq<RemoteChange>, rows: Rows, remote: RemoteState)
    requires IsForest(TreeOf(remote)) && LookupsHold(changes, rows, remote)
    ensures RootedOnServer(remote, AnchorsOf(changes, rows, remote), NeededBy(changes, rows, remote))
  {
    hide IsForest, Shaken, LookedUp;
    var anchors, needed := AnchorsOf(changes, rows, remote), NeededBy(changes, rows, remote);
    forall x | x in remote && (x in anchors || x in needed) && remote[x].parent.Some? ensures remote[x].parent.value in anchors {
      OnServer(remote, x);
      if x in anchors {
        ServerParentHolds(changes, rows, remote, x);
      } else {
        var k :| 0 <= k < |changes| && LookedUp(changes[k], rows, remote) == Some(x);
        assert SteadyParents(changes, rows, remote, x);
      }
    }
  }

  lemma OnServer(remote: RemoteState, x: ContentId)
    requires IsForest(TreeOf(remote)) && x in remote && remote[x].parent.Some?
    ensures remote[x].parent.value in remote
  {
    assert x in TreeOf(remote);
  }

  lemma NeededOnDisk(changes: seq<RemoteChange>, w: World, remote: RemoteState)
    requires Tidy(w, remote)
    ensures forall p :: p in NeededBy(changes, w.rows, remote) ==> FolderAt(w.rows, w.disk, p)
  {
    hide Sound, Agrees, DiskTree, StrayFilesApart, IsDirectory;
    forall p | p in NeededBy(changes, w.rows, remote) ensures FolderAt(w.rows, w.disk, p) {
      var k :| 0 <= k < |changes| && LookedUp(changes[k], w.rows, remote) == Some(p);
    }
  }

  lemma NeededAreFolders(changes: seq<RemoteChange>, w: World, remote: RemoteState)
    requires Tidy(w, remote) && LookupsHold(changes, w.rows, remote)
    ensures FoldersOnDisk(w.rows, w.disk, AnchorsOf(changes, w.rows, remote), NeededBy(changes, w.rows, remote))
  {
    hide IsForest, Shaken, Agrees, DiskTree, StrayFilesApart, Table;
    var rows, anchors, needed := w.rows, AnchorsOf(changes, w.rows, remote), NeededBy(changes, w.rows, remote);
    NeededOnDisk(changes, w, remote);
    forall p | p in needed && p in rows ensures Anchored(rows, anchors, p) && IsDirectory(w.disk, rows[p].path) {
      var k :| 0 <= k < |changes| && LookedUp(changes[k], rows, remote) == Some(p);
      assert SteadyParents(changes, rows, remote, p);
      assert FolderAt(rows, w.disk, p);
      if rows[p].parent.Some? {
        ParentOf(rows, p);
      }
    }
  }

  lemma StrayFilesKnown(w: World, remote: RemoteState, anchors: set<ContentId>)
    requires Tidy(w, remote) && Rooted(w.rows, anchors)
    ensures FilesKnown(w.rows, w.disk, remote, anchors)
  {
    hide IsForest, PathOf, NamesFolder, DiskTree, Held, Unsteady, ParentsOnDisk, Rooted;
    forall q | IsPlain(w.disk, q) && PathTaken(w.rows, q) ensures Held(w.rows, anchors, q) || Unsteady(w.rows, anchors, q) {
      var r :| r in w.rows && w.rows[r].path == q;
      WalkIsKnown(w.rows, anchors, r);
    }
  }

  lemma AllForeseen(changes: seq<RemoteChange>, rows: Rows, remote: RemoteState)
    requires Sound(rows) && ParentsAreFolders(remote) && Ready(changes, 0, [], rows, remote)
    ensures ListForeseen(changes, 0, [], rows, remote, NeededBy(changes, rows, remote))
  {
    hide IsForest, Table;
    var needed := NeededBy(changes, rows, remote);
    forall k | 0 <= k < |changes| ensures Foreseen(changes[k], rows, remote, needed) {
      var c := changes[k];
      if c.New? && c.id in needed {
        var j :| 0 <= j < |changes| && LookedUp(changes[j], rows, remote) == Some(c.id);
        if !changes[j].New? {
          ParentOf(rows, changes[j].id);
        }
        assert Consistent(c, rows, remote);
      }
    }
  }

  lemma AnchorsMoveBare(changes: seq<RemoteChange>, rows: Rows, remote: RemoteState)
    requires Sound(rows)
    ensures BareAmong(changes, 0, |changes|, rows, remote, AnchorsOf(changes, rows, remote))
  {
    hide IsForest, PathOf, Bare, InPlace;
    var anchors := AnchorsOf(changes, rows, remote);
    forall k | 0 <= k < |changes| && changes[k].id in anchors && Relocates(changes[k], rows, remote)
      ensures Bare(changes, 0, k, rows, remote)
    {
      RootIsUnder(rows, changes[k].id);
    }
  }

  lemma StartsInOrder(w: World, changes: seq<RemoteChange>, remote: RemoteState, ignored: seq<ContentId>)
    requires Tidy(w, remote) && IsForest(TreeOf(remote)) && ParentsAreFolders(remote)
    requires RemoteSync.IsDiff(changes, w.rows, remote, ignored) && MovesAreListed(w.rows, remote, ignored)
    requires LookupsHold(changes, w.rows, remote)
    ensures var anchors, needed := AnchorsOf(changes, w.rows, remote), NeededBy(changes, w.rows, remote);
            InOrder(w, changes, 0, |changes|, [], remote, anchors, needed) && RootedOnServer(remote, anchors, needed)
  {
    hide IsForest, Sound, AnchorsOf, NeededBy, Agrees, DiskTree, ParentsOnDisk, StrayFilesApart, ParentsAreFolders, LookupsHold,
      Ready, ListForeseen, BareAmong, Rooted, FilesKnown, FoldersOnDisk, RootedOnServer, ListsMoves, RemoteSync.IsDiff, MovesAreListed;
    DiffIsReady(changes, w.rows, remote, ignored);
    DiffListsMoves(changes, w.rows, remote, ignored);
    AnchorsAreRooted(changes, w.rows, remote);
    AnchorsOnServer(changes, w.rows, remote);
    NeededAreFolders(changes, w, remote);
    StrayFilesKnown(w, remote, AnchorsOf(changes, w.rows, remote));
    AllForeseen(changes, w.rows, remote);
    AnchorsMoveBare(changes, w.rows, remote);
  }

  // ---- The main result

  /**
   Startup converges whenever it succeeds: from a tidy world, with a server whose parents
   are folders and a list that looks up no folder strictly below an uprooted one, no
   change is passed over, and comparing again finds nothing.
   */
  lemma {:induction false} TidyStartupConverges(
    w: World, changes: seq<RemoteChange>, oracle: Oracle, remote: RemoteState, ignored: seq<ContentId>
  )
    requires Tidy(w, remote) && Fair(oracle, remote) && DiskWorks(oracle)
    requires IsForest(TreeOf(remote)) && ParentsAreFolders(remote)
    requires RemoteSync.IsDiff(changes, w.rows, remote, ignored) && MovesAreListed(w.rows, remote, ignored)
    requires LookupsHold(changes, w.rows, remote)
    ensures RoundsPassed(w, changes, oracle) == {}
    ensures Rounds(w, changes, oracle).result.Ok? ==> Converged(Rounds(w, changes, oracle).world.rows, remote, ignored)
  {
    hide Fair, Rounds, RoundsPassed, IsForest, Converged, RemoteSync.IsDiff, MovesAreListed, LookupsHold, InOrder, DiskWorks,
      AnchorsOf, NeededBy, RootedOnServer, ParentsAreFolders;
    StartsInOrder(w, changes, remote, ignored);
    NothingPassed(w, changes, oracle, remote, AnchorsOf(changes, w.rows, remote), NeededBy(changes, w.rows, remote));
    if Rounds(w, changes, oracle).result.Ok? {
      ConvergenceIsExact(w, changes, oracle, remote, ignored);
    }
  }

  /** Lists that move contents with nothing below them only, as far as position `n`. */
  ghost predicate MovesAreBare(changes: seq<RemoteChange>, n: nat, rows: Rows, remote: RemoteState)
    requires n <= |changes|
  {
    BareAmong(changes, 0, n, rows, remote, rows.Keys)
  }

  /** With such a list all lookups hold. */
  lemma BareMovesSuffice(changes: seq<RemoteChange>, rows: Rows, remote: RemoteState)
    requires MovesAreBare(changes, |changes|, rows, remote)
    ensures LookupsHold(changes, rows, remote)
  {
    hide Under;
  }

  /** No looked-up folder is strictly below a content that the list moves, in the database or on the server. */
  ghost predicate LookupsApart(changes: seq<RemoteChange>, rows: Rows, remote: RemoteState) {
    forall j, k :: 0 <= j < |changes| && 0 <= k < |changes| && Relocates(changes[k], rows, remote) &&
                   LookedUp(changes[j], rows, remote).Some? ==>
      ApartFromMove(rows, remote, changes[k].id, LookedUp(changes[j], rows, remote).value)
  }

  ghost predicate ApartFromMove(rows: Rows, remote: RemoteState, m: ContentId, p: ContentId) {
    m != p ==> !Under(TreeOfRows(rows), m, p) && !Under(TreeOf(remote), m, p)
  }

  ghost predicate MovedAt(changes: seq<RemoteChange>, rows: Rows, remote: RemoteState, k: nat, z: ContentId) {
    k < |changes| && changes[k].id == z && Relocates(changes[k], rows, remote)
  }

  /** What is stored below a moved content is below a moved content on the server too. */
  lemma {:induction false} MovedAbove(
    changes: seq<RemoteChange>, rows: Rows, remote: RemoteState, j: nat, m: ContentId, y: ContentId
  ) returns (k: nat)
    requires Sound(rows) && IsForest(TreeOf(remote)) && ListsMoves(changes, rows, remote)
    requires MovedAt(changes, rows, remote, j, m) && Under(TreeOfRows(rows), m, y) && y in remote
    ensures k < |changes| && Relocates(changes[k], rows, remote) && Under(TreeOf(remote), changes[k].id, y)
    decreases Depth(TreeOfRows(rows), y)
  {
    hide PathOf, InPlace;
    var t, u := TreeOfRows(rows), TreeOf(remote);
    assert y in u;
    UnderStep(t, m, y);
    UnderStep(u, y, y);
    if y == m {
      k := j;
    } else if i: nat :| MovedAt(changes, rows, remote, i, y) {
      k := i;
    } else {
      SameParent(changes, rows, remote, y);
      ParentOf(rows, y);
      var h := rows[y].parent.value;
      assert h in u;
      k := MovedAbove(changes, rows, remote, j, m, h);
      UnderStep(u, changes[k].id, y);
    }
  }

  lemma SameParent(changes: seq<RemoteChange>, rows: Rows, remote: RemoteState, y: ContentId)
    requires ListsMoves(changes, rows, remote) && y in rows && y in remote
    requires forall i: nat :: !MovedAt(changes, rows, remote, i, y)
    ensures rows[y].parent == remote[y].parent
  {
    if rows[y].parent != remote[y].parent {
      var k :| 0 <= k < |changes| && changes[k].id == y && changes[k].Updated?;
      assert MovedAt(changes, rows, remote, k, y);
    }
  }

  lemma StrictlyAbove(t: Tree, m: ContentId, p: ContentId, x: ContentId)
    requires IsForest(t) && x in t && t[x].parent == Some(p) && Under(t, m, p)
    ensures Under(t, m, x) && m != x
  {
    UnderStep(t, m, x);
    UnderDepth(t, m, p);
    DepthStep(t, x);
  }

  lemma ApartOnServer(changes: seq<RemoteChange>, rows: Rows, remote: RemoteState, p: ContentId)
    requires Sound(rows) && IsForest(TreeOf(remote)) && ListsMoves(changes, rows, remote)
    requires p in remote && remote[p].parent.Some?
    requires forall k :: 0 <= k < |changes| && Relocates(changes[k], rows, remote) ==>
                           ApartFromMove(rows, remote, changes[k].id, p)
    ensures !Shaken(changes, rows, remote, remote[p].parent.value)
  {
    hide IsForest, PathOf, Bare, InPlace;
    OnServer(remote, p);
    var u, r := TreeOf(remote), remote[p].parent.value;
    RootOnServer(remote, r);
    forall y | y in remote && Under(u, y, r) ensures !Uprooted(changes, rows, remote, y) {
      if Uprooted(changes, rows, remote, y) {
        var j :| 0 <= j < |changes| && Relocates(changes[j], rows, remote) && !Bare(changes, 0, j, rows, remote) &&
                 Under(TreeOfRows(rows), changes[j].id, y);
        var k := MovedAbove(changes, rows, remote, j, changes[j].id, y);
        UnderTransitive(u, changes[k].id, y, r) by { ServerForest(remote); }
        StrictlyAbove(u, changes[k].id, r, p);
      }
    }
  }

  lemma ServerForest(remote: RemoteState)
    requires IsForest(TreeOf(remote))
    ensures Acyclic(TreeOf(remote))
  {
  }

  lemma RootOnServer(remote: RemoteState, r: ContentId)
    requires IsForest(TreeOf(remote)) && r in remote
    ensures Under(TreeOf(remote), r, r)
  {
    assert r in TreeOf(remote);
    UnderStep(TreeOf(remote), r, r);
  }

  /** Lookups apart from all moves hold. */
  lemma ApartLookupsSuffice(changes: seq<RemoteChange>, rows: Rows, remote: RemoteState, ignored: seq<ContentId>)
    requires Sound(rows) && IsForest(TreeOf(remote))
    requires RemoteSync.IsDiff(changes, rows, remote, ignored) && MovesAreListed(rows, remote, ignored)
    requires LookupsApart(changes, rows, remote)
    ensures LookupsHold(changes, rows, remote)
  {
    hide IsForest, PathOf, Bare, InPlace, Shaken, LookedUp, RemoteSync.IsDiff, MovesAreListed;
    DiffListsMoves(changes, rows, remote, ignored);
    forall k | 0 <= k < |changes| && LookedUp(changes[k], rows, remote).Some?
      ensures SteadyParents(changes, rows, remote, LookedUp(changes[k], rows, remote).value)
    {
      var p := LookedUp(changes[k], rows, remote).value;
      if p in rows && rows[p].parent.Some? {
        var g := rows[p].parent.value;
        forall m | Under(TreeOfRows(rows), m, g) ensures Under(TreeOfRows(rows), m, p) && m != p {
          StoredStrictly(rows, m, g, p);
        }
        StoredParentHolds(changes, rows, remote, p);
      }
      if p in remote && remote[p].parent.Some? {
        ApartOnServer(changes, rows, remote, p);
      }
    }
  }

  lemma StoredStrictly(rows: Rows, m: ContentId, g: ContentId, p: ContentId)
    requires Sound(rows) && p in rows && rows[p].parent == Some(g) && Under(TreeOfRows(rows), m, g)
    ensures Under(TreeOfRows(rows), m, p) && m != p
  {
    assert p in TreeOfRows(rows);
    StrictlyAbove(TreeOfRows(rows), m, g, p);
  }

  /** A list of one change looks up nothing below what it moves, however much is below that. */
  lemma OneChangeSuffices(c: RemoteChange, rows: Rows, remote: RemoteState, ignored: seq<ContentId>)
    requires Sound(rows) && IsForest(TreeOf(remote))
    requires RemoteSync.IsDiff([c], rows, remote, ignored) && MovesAreListed(rows, remote, ignored)
    ensures LookupsHold([c], rows, remote)
  {
    hide IsForest, PathOf, Bare, InPlace, Shaken, RemoteSync.IsDiff, MovesAreListed;
    DiffListsMoves([c], rows, remote, ignored);
    if Relocates(c, rows, remote) && rows[c.id].parent.Some? {
      ParentOf(rows, c.id);
      var p := rows[c.id].parent.value;
      if p in remote {
        SameParent([c], rows, remote, p);
      }
      if rows[p].parent.Some? {
        ParentOf(rows, p);
        AboveIsNotBelow(rows, c.id, rows[p].parent.value);
        StoredParentHolds([c], rows, remote, p);
      }
    } else if !Relocates(c, rows, remote) {
      BareMovesSuffice([c], rows, remote);
    }
  }

  lemma AboveIsNotBelow(rows: Rows, id: ContentId, above: ContentId)
    requires Sound(rows) && id in rows && above in rows && Depth(TreeOfRows(rows), above) < Depth(TreeOfRows(rows), id)
    ensures !Under(TreeOfRows(rows), id, above)
  {
    if Under(TreeOfRows(rows), id, above) {
      UnderDepth(TreeOfRows(rows), id, above);
    }
  }
}
