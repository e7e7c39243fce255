/**
 In which order a list can succeed: a new content waits for its parent, but an update
 into a folder that comes later in the list stops everything.
 */
module StartupOrder {
  import opened Wrappers
  import opened Forest
  import opened Contents
  import opened DiskState
  import opened Executors
  import opened Operator
  import opened OperateChanges
  import opened Startup
  import opened StartupFolders
  import opened StartupStale

  /** The parent that the server gives to the content is stored, or there is none. */
  ghost predicate HasParent(rows: Rows, remote: RemoteState, id: ContentId)
    requires id in remote
  {
    remote[id].parent.Some? ==> remote[id].parent.value in rows
  }

  lemma PlaceNeedsParent(rows: Rows, parent: Option<ContentId>, name: Name)
    requires ChildPath(TreeOfRows(rows), parent, name).Some?
    ensures parent.Some? ==> parent.value in rows
  {
  }

  /** An update goes nowhere without its new parent, and its error is not one to try again after. */
  lemma UpdateNeedsParent(w: World, c: RemoteChange, remaining: seq<RemoteChange>, oracle: Oracle, remote: RemoteState)
    requires Awaiting(w) && Fair(oracle, remote) && Consistent(c, w.rows, remote) && c.Updated?
    requires !PassedOver(w, c, oracle) && !HasParent(w.rows, remote, c.id)
    ensures Try(w, c, remaining, oracle).0.Err?
  {
    hide OperateOn, Sound, UpdatedAttempt, PassedOver, ChildPath, TreeOfRows;
    var r := OperateOn(w, EventOf(c), oracle).0;
    if r.Ok? || LacksParent(r) {
      HandledStep(w, c, oracle);
      var asked := w.(clock := w.clock + 1);
      var a := oracle(asked.clock);
      AttemptsOfChange(w, c, a);
      UpdateSettles(asked, c.id, true, a, remote);
      if UpdatedAttempt(w.rows, w.disk, c.id, true, a).outcome.Ok? {
        UpdateNeedsPlace(w.rows, w.disk, c.id, true, a);
        assert FromRemote(a.contents[c.id]) == Some(remote[c.id]);
        PlaceNeedsParent(w.rows, remote[c.id].parent, remote[c.id].name);
      }
    }
  }

  ghost predicate ComesBefore(changes: seq<RemoteChange>, i: nat, k: nat, id: ContentId)
    requires k <= |changes|
  {
    exists j :: i <= j < k && changes[j].New? && changes[j].id == id
  }

  /** What is stored when change `k` comes was stored before, or is new earlier in the list. */
  lemma {:induction false} StoredBefore(
    w: World, changes: seq<RemoteChange>, i: nat, k: nat, remaining: seq<RemoteChange>, oracle: Oracle, remote: RemoteState,
    x: ContentId
  )
    requires Awaiting(w) && Fair(oracle, remote) && i <= k <= |changes| && Ready(changes, i, remaining, w.rows, remote)
    ensures var (r, now) := Reached(w, changes, i, k, remaining, oracle);
            r.Ok? ==> && Awaiting(now) && Ready(changes, k, r.value, now.rows, remote)
                      && (x in now.rows ==> x in w.rows || ComesBefore(changes, i, k, x))
    decreases k - i
  {
    hide Awaiting, Fair, Try, PassedOver, Effect, Ready;
    if i < k {
      var c := changes[i];
      ReadyStep(w, changes, i, remaining, oracle, remote);
      NextFits(changes, i, i, remaining, w.rows, remote);
      OneChange(w, c, remaining, oracle, remote);
      var (r, now) := Try(w, c, remaining, oracle);
      if r.Ok? {
        StoredBefore(now, changes, i + 1, k, r.value, oracle, remote, x);
        if x in now.rows && x !in w.rows {
          OthersKept(w.rows, now.rows, c, remote);
          NewlyStored(w.rows, now.rows, c, remote, x);
        }
      }
    }
  }

  lemma NextFits(changes: seq<RemoteChange>, i: nat, k: nat, remaining: seq<RemoteChange>, rows: Rows, remote: RemoteState)
    requires i <= k < |changes| && Ready(changes, i, remaining, rows, remote)
    ensures Consistent(changes[k], rows, remote)
  {
  }

  lemma NewlyStored(rows: Rows, now: Rows, c: RemoteChange, remote: RemoteState, x: ContentId)
    requires Effect(rows, now, c, remote) && Consistent(c, rows, remote) && x in now && x !in rows
    ensures c.New? && c.id == x
  {
  }

  /**
   A list that is applied with success puts every folder that a stored content moves into
   before the update that moves it, unless that folder was stored already or the update
   was passed over.
   */
  lemma {:induction false} UpdatesFollowParents(
    w: World, changes: seq<RemoteChange>, k: nat, oracle: Oracle, remote: RemoteState
  )
    requires Awaiting(w) && Fair(oracle, remote) && Ready(changes, 0, [], w.rows, remote)
    requires k < |changes| && changes[k].Updated? && changes[k].id !in RoundsPassed(w, changes, oracle)
    requires Rounds(w, changes, oracle).result.Ok?
    ensures changes[k].id in remote
    ensures var parent := remote[changes[k].id].parent;
            parent.Some? ==> parent.value in w.rows || ComesBefore(changes, 0, k, parent.value)
  {
    hide Awaiting, Fair, Try, PassedOver, Ready, Round, RoundPassed, Reached;
    NextFits(changes, 0, k, [], w.rows, remote);
    RoundOfRounds(w, changes, oracle);
    AtChange(w, changes, 0, k, [], oracle);
    var parent := remote[changes[k].id].parent;
    if parent.Some? {
      StoredBefore(w, changes, 0, k, [], oracle, remote, parent.value);
      var (r, now) := Reached(w, changes, 0, k, [], oracle);
      NextFits(changes, k, k, r.value, now.rows, remote);
      if !HasParent(now.rows, remote, changes[k].id) {
        UpdateNeedsParent(now, changes[k], r.value, oracle, remote);
      }
    }
  }
}
