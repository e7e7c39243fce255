/** In which order contents can disappear: one forgotten with its folder can no longer be forgotten by itself. */
module Disappearances {
  import opened Forest
  import opened Disk
  import opened DiskState
  import opened Executors
  import opened Operator
  import opened OperateChanges
  import opened Startup
  import opened StartupAnchors
  import opened StartupFolders

  ghost predicate AllDisappear(changes: seq<RemoteChange>) {
    && (forall k :: 0 <= k < |changes| ==> changes[k].Disappear?)
    && (forall j, k :: 0 <= j < k < |changes| ==> changes[j].id != changes[k].id)
  }

  /** From `i` on, every content is stored, and none comes after one it is below. */
  ghost predicate InnermostFirst(changes: seq<RemoteChange>, i: nat, rows: Rows) {
    forall j :: i <= j < |changes| ==>
      changes[j].id in rows && forall k :: i <= k < j ==> !Under(TreeOfRows(rows), changes[k].id, changes[j].id)
  }

  /** Everything in order, with every stored parent a folder on disk. */
  ghost predicate InFolders(w: World, anchors: set<ContentId>, needed: set<ContentId>) {
    Steady(w, map[], anchors, needed) && forall x :: x in w.rows && w.rows[x].parent.Some? ==> w.rows[x].parent.value in needed
  }

  /** Forgetting succeeds exactly for a content that is stored. */
  lemma ForgettingNeedsRow(
    w: World, c: RemoteChange, remaining: seq<RemoteChange>, oracle: Oracle, anchors: set<ContentId>, needed: set<ContentId>
  )
    requires InFolders(w, anchors, needed) && DiskWorks(oracle) && c.Disappear?
    ensures var (r, now) := Try(w, c, remaining, oracle);
            && (r.Ok? <==> c.id in w.rows)
            && (r.Ok? ==> r.value == remaining && InFolders(now, anchors, needed) && now.rows == ForgetTree(w.rows, c.id))
  {
    hide OperateOn, Finish, PassedOver, Sound, Orderly, ForgetTree, AbsentAttempt;
    SteadyStep(w, c, remaining, oracle, map[], anchors, needed);
    OperatedStep(w, c, oracle);
    StepIsAttempt(w, c, oracle);
    var asked := w.(clock := w.clock + 1);
    AbsentNeedsRow(asked, c.id, oracle(asked.clock));
    LeftAsTheyWere(w.rows, c.id);
  }

  lemma StepIsAttempt(w: World, c: RemoteChange, oracle: Oracle)
    requires c.Disappear? && !PassedOver(w, c, oracle)
    ensures var asked := w.(clock := w.clock + 1);
            RemoteStep(w, EventOf(c), oracle) == Finish(asked, AbsentAttempt(w.rows, w.disk, c.id, oracle(asked.clock)))
  {
    hide Finish, AbsentAttempt;
  }

  lemma AbsentNeedsRow(w: World, id: ContentId, a: Answers)
    requires Sound(w.rows)
    ensures var (r, now) := Finish(w, AbsentAttempt(w.rows, w.disk, id, a));
            && (r.Ok? <==> id in w.rows) && !LacksParent(r)
            && (r.Ok? ==> now.rows == ForgetTree(w.rows, id))
  {
    hide RemoveFromDisk, TypeAt, PathOf, TreeOfRows, ForgetTree, Sound;
    if id in w.rows {
      RootIsUnder(w.rows, id);
    }
  }

  lemma ForgottenOrder(changes: seq<RemoteChange>, i: nat, rows: Rows)
    requires i < |changes| && AllDisappear(changes) && Sound(rows) && changes[i].id in rows
    ensures InnermostFirst(changes, i, rows) <==> InnermostFirst(changes, i + 1, ForgetTree(rows, changes[i].id))
  {
    hide Under;
    var id := changes[i].id;
    var left, t := ForgetTree(rows, id), TreeOfRows(rows);
    ForgetsOneTree(rows, id);
    forall x ensures x in left <==> x in rows && !Under(t, id, x) {
    }
    forall j, k | i < k < j < |changes| && changes[j].id in left
      ensures Under(TreeOfRows(left), changes[k].id, changes[j].id) <==> Under(t, changes[k].id, changes[j].id)
    {
    }
  }

  lemma {:induction false} DisappearRound(
    w: World, changes: seq<RemoteChange>, i: nat, oracle: Oracle, anchors: set<ContentId>, needed: set<ContentId>
  )
    requires InFolders(w, anchors, needed) && DiskWorks(oracle) && AllDisappear(changes) && i <= |changes|
    ensures var r := Round(w, changes, i, [], oracle).0;
            && (r.Ok? <==> InnermostFirst(changes, i, w.rows))
            && (r.Ok? ==> r.value == [])
    decreases |changes| - i
  {
    hide Try, Orderly, Sound, DiskWorks, ForgetTree, Under;
    if i < |changes| {
      ForgettingNeedsRow(w, changes[i], [], oracle, anchors, needed);
      var (r, now) := Try(w, changes[i], [], oracle);
      if r.Ok? {
        ForgottenOrder(changes, i, w.rows);
        DisappearRound(now, changes, i + 1, oracle, anchors, needed);
      }
    }
  }

  ghost function StoredParents(rows: Rows): set<ContentId> {
    set x | x in rows && rows[x].parent.Some? :: rows[x].parent.value
  }

  lemma TidyInFolders(w: World)
    requires Tidy(w, map[])
    ensures InFolders(w, w.rows.Keys, StoredParents(w.rows))
  {
    hide IsForest, PathOf, Table, DiskTree, IsDirectory;
    forall x | x in w.rows && w.rows[x].parent.Some? ensures w.rows[x].parent.value in w.rows.Keys {
      ParentOf(w.rows, x);
    }
    assert Rooted(w.rows, w.rows.Keys);
    StrayFilesKnown(w, map[], w.rows.Keys);
    forall p | p in StoredParents(w.rows) && p in w.rows ensures IsDirectory(w.disk, w.rows[p].path) {
      assert FolderAt(w.rows, w.disk, p);
    }
  }

  /**
   A list of disappearances is applied without an error if and only if every content is
   stored and none comes after a folder that it is below.
   */
  lemma {:induction false} DisappearancesInOrder(w: World, changes: seq<RemoteChange>, oracle: Oracle)
    requires Tidy(w, map[]) && DiskWorks(oracle) && AllDisappear(changes)
    ensures Rounds(w, changes, oracle).result.Ok? <==> InnermostFirst(changes, 0, w.rows)
  {
    hide Tidy, InFolders, DiskWorks, InnermostFirst, Round;
    TidyInFolders(w);
    DisappearRound(w, changes, 0, oracle, w.rows.Keys, StoredParents(w.rows));
  }
}
