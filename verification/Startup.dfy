/**
 Startup convergence: when every computed remote change has been applied, comparing
 again with the unchanged server finds nothing, unless a change was taken for one of an
 attachment and silently passed over.
 */
module Startup {
  import opened Wrappers
  import opened Forest
  import opened Contents
  import opened Disk
  import opened DiskMoves
  import opened DiskState
  import opened DiskIndex
  import opened Executors
  import opened Operator
  import opened OperatorRuns
  import opened OperateChanges
  import RemoteSync

  type RemoteState = map<ContentId, Content>

  /** The server keeps describing the contents of the remote state as it did. */
  ghost predicate Unchanging(oracle: Oracle, remote: RemoteState) {
    forall n: nat, id :: id in remote && id in oracle(n).contents ==> FromRemote(oracle(n).contents[id]) == Some(remote[id])
  }

  /** A content stored below another parent than the server's has a new revision, and is not ignored. */
  ghost predicate MovesAreListed(rows: Rows, remote: RemoteState, ignored: seq<ContentId>) {
    forall id :: id in rows && id in remote && rows[id].parent != remote[id].parent ==>
      rows[id].revision != remote[id].revision && id !in ignored
  }

  /** The change is taken for one of an attachment: nothing happens, and the call succeeds. */
  ghost predicate PassedOver(w: World, c: RemoteChange, oracle: Oracle) {
    IsAttachment(w.rows, w.disk, EventOf(c), oracle(w.clock)) == Some(true)
  }

  // ---- What one change does to the rows

  /** The content is stored as the server has it. */
  ghost predicate Settled(rows: Rows, remote: RemoteState, id: ContentId) {
    id in rows && id in remote && rows[id].revision == remote[id].revision && rows[id].parent == remote[id].parent
  }

  lemma OperatedStep(w: World, c: RemoteChange, oracle: Oracle)
    requires Sound(w.rows) && AllLocal(w.ignored)
    ensures var (r, now) := OperateOn(w, EventOf(c), oracle);
            && Sound(now.rows) && AllLocal(now.ignored)
            && (r.Err? ==> now.rows == w.rows)
            && OperateOn(w, EventOf(c), oracle) == RemoteStep(w, EventOf(c), oracle)
  {
    hide OperateOn, RemoteStep;
    RemoteEventKeepsSound(w, EventOf(c), oracle);
    RemotePlansLocal(w, EventOf(c), oracle);
    RemoteStepIsOperate(w, EventOf(c), oracle);
  }

  lemma PassedOverStep(w: World, c: RemoteChange, oracle: Oracle)
    requires Sound(w.rows) && AllLocal(w.ignored) && PassedOver(w, c, oracle)
    ensures OperateOn(w, EventOf(c), oracle).0.Ok? && OperateOn(w, EventOf(c), oracle).1.rows == w.rows
  {
    hide OperateOn, RemoteHandle;
    OperatedStep(w, c, oracle);
  }

  /** The attempt behind a change that is not passed over. */
  lemma HandledStep(w: World, c: RemoteChange, oracle: Oracle)
    requires Sound(w.rows) && AllLocal(w.ignored) && !PassedOver(w, c, oracle)
    requires var r := OperateOn(w, EventOf(c), oracle).0; r.Ok? || LacksParent(r)
    ensures var asked := w.(clock := w.clock + 1);
            OperateOn(w, EventOf(c), oracle) ==
            Finish(asked, AttemptOf(ExecutorsOf(Qualify(w.rows, EventOf(c)))[0], w.rows, w.disk, oracle(asked.clock)))
  {
    hide OperateOn, AttemptOf, Finish;
    OperatedStep(w, c, oracle);
  }

  /** A creation that succeeds stores the content as the server has it; a missing parent changes nothing. */
  lemma CreationSettles(w: World, id: ContentId, a: Answers, remote: RemoteState)
    requires id in remote && (id in a.contents ==> FromRemote(a.contents[id]) == Some(remote[id])) && remote[id].id == id
    ensures var (r, now) := Finish(w, PresentAttempt(w.rows, w.disk, id, a));
            r.Ok? ==> id !in w.rows && Settled(now.rows, remote, id) && now.rows == w.rows[id := now.rows[id]]
  {
    hide PresentAttempt;
    var attempt := PresentAttempt(w.rows, w.disk, id, a);
  }

  lemma UpdateSettles(w: World, id: ContentId, download: bool, a: Answers, remote: RemoteState)
    requires id in remote && (id in a.contents ==> FromRemote(a.contents[id]) == Some(remote[id])) && id in w.rows
    ensures var (r, now) := Finish(w, UpdatedAttempt(w.rows, w.disk, id, download, a));
            && (r.Ok? ==> Settled(now.rows, remote, id) && now.rows == w.rows[id := now.rows[id]])
            && !LacksParent(r)
  {
    hide UpdatedAttempt;
  }

  lemma ForgettingForgets(w: World, id: ContentId, a: Answers)
    ensures var (r, now) := Finish(w, AbsentAttempt(w.rows, w.disk, id, a));
            && (r.Ok? ==> id in w.rows && now.rows == ForgetTree(w.rows, id))
            && !LacksParent(r)
  {
  }

  /** What a change that succeeds without being passed over does to the rows. */
  ghost predicate Effect(rows: Rows, now: Rows, c: RemoteChange, remote: RemoteState) {
    if c.Disappear? then c.id in rows && now == ForgetTree(rows, c.id)
    else (c.New? <==> c.id !in rows) && Settled(now, remote, c.id) && now == rows[c.id := now[c.id]]
  }

  /** The change fits the rows it is about to be applied to. */
  ghost predicate Consistent(c: RemoteChange, rows: Rows, remote: RemoteState) {
    match c
    case New(id, _) => id in remote && id !in rows
    case Updated(id, _) => id in remote && id in rows
    case Disappear(id, _) => id !in remote
  }

  ghost predicate Awaiting(w: World) {
    Sound(w.rows) && AllLocal(w.ignored)
  }

  ghost predicate Fair(oracle: Oracle, remote: RemoteState) {
    Unchanging(oracle, remote) && Keyed(remote)
  }

  /** One change of a round that does not abort. */
  lemma OneChange(w: World, c: RemoteChange, remaining: seq<RemoteChange>, oracle: Oracle, remote: RemoteState)
    requires Awaiting(w) && Fair(oracle, remote) && Consistent(c, w.rows, remote)
    ensures var (r, now) := Try(w, c, remaining, oracle);
            r.Ok? ==>
              && Awaiting(now)
              && (if PassedOver(w, c, oracle) then r.value == remaining && now.rows == w.rows
                  else (r.value == remaining && Effect(w.rows, now.rows, c, remote)) ||
                       (c.New? && r.value == remaining + [c] && now.rows == w.rows))
  {
    hide OperateOn, Finish, AttemptOf, PassedOver, Settled, ForgetTree, Sound, PresentAttempt, UpdatedAttempt, AbsentAttempt;
    OperatedStep(w, c, oracle);
    var (r, now) := OperateOn(w, EventOf(c), oracle);
    if PassedOver(w, c, oracle) {
      PassedOverStep(w, c, oracle);
    } else if r.Ok? || LacksParent(r) {
      HandledStep(w, c, oracle);
      var asked := w.(clock := w.clock + 1);
      AttemptsOfChange(w, c, oracle(asked.clock));
      match c
      case New(id, _) => CreationSettles(asked, id, oracle(asked.clock), remote);
      case Updated(id, _) => UpdateSettles(asked, id, true, oracle(asked.clock), remote);
      case Disappear(id, _) => ForgettingForgets(asked, id, oracle(asked.clock));
    }
  }

  lemma AttemptsOfChange(w: World, c: RemoteChange, a: Answers)
    requires c.Updated? ==> c.id in w.rows
    ensures AttemptOf(ExecutorsOf(Qualify(w.rows, EventOf(c)))[0], w.rows, w.disk, a) ==
            match c
            case New(id, _) => PresentAttempt(w.rows, w.disk, id, a)
            case Updated(id, _) => UpdatedAttempt(w.rows, w.disk, id, true, a)
            case Disappear(id, _) => AbsentAttempt(w.rows, w.disk, id, a)
  {
    hide PresentAttempt, UpdatedAttempt, AbsentAttempt;
  }

  // ---- The list of changes along a round

  /** The changes from `i` on and those put aside: distinct, disappearances last, and fitting the rows. */
  ghost predicate Ready(changes: seq<RemoteChange>, i: nat, remaining: seq<RemoteChange>, rows: Rows, remote: RemoteState)
    requires i <= |changes|
  {
    && (forall j, k :: i <= j < k < |changes| ==> changes[j].id != changes[k].id)
    && (forall j, k :: i <= j < k < |changes| && changes[j].Disappear? ==> changes[k].Disappear?)
    && (forall k :: i <= k < |changes| ==> Consistent(changes[k], rows, remote))
    && (forall j, k :: 0 <= j < k < |remaining| ==> remaining[j].id != remaining[k].id)
    && (forall k :: 0 <= k < |remaining| ==> remaining[k].New? && Consistent(remaining[k], rows, remote))
    && (forall j, k :: 0 <= j < |remaining| && i <= k < |changes| ==> remaining[j].id != changes[k].id)
  }

  /** Forgetting and storing one content leave the rows of the others as they are, or take them away. */
  lemma OthersKept(rows: Rows, now: Rows, c: RemoteChange, remote: RemoteState)
    requires Effect(rows, now, c, remote)
    ensures forall x :: x in now && x != c.id ==> x in rows && now[x] == rows[x]
    ensures !c.Disappear? ==> forall x :: x in rows ==> x in now
  {
  }

  lemma ReadyStep(
    w: World, changes: seq<RemoteChange>, i: nat, remaining: seq<RemoteChange>, oracle: Oracle, remote: RemoteState
  )
    requires Awaiting(w) && Fair(oracle, remote) && i < |changes| && Ready(changes, i, remaining, w.rows, remote)
    ensures var (r, now) := Try(w, changes[i], remaining, oracle);
            r.Ok? ==> Awaiting(now) && Ready(changes, i + 1, r.value, now.rows, remote)
  {
    hide Awaiting, Fair, Try, Effect, PassedOver;
    OneChange(w, changes[i], remaining, oracle, remote);
    var (r, now) := Try(w, changes[i], remaining, oracle);
    if r.Ok? && Effect(w.rows, now.rows, changes[i], remote) {
      OthersKept(w.rows, now.rows, changes[i], remote);
    }
  }

  /** The ids of the changes passed over during a round. */
  ghost function RoundPassed(w: World, changes: seq<RemoteChange>, i: nat, remaining: seq<RemoteChange>, oracle: Oracle)
    : set<ContentId>
    requires i <= |changes|
    decreases |changes| - i
  {
    if i == |changes| then {}
    else
      var (r, now) := Try(w, changes[i], remaining, oracle);
      (if PassedOver(w, changes[i], oracle) then {changes[i].id} else {}) +
      (if r.Ok? then RoundPassed(now, changes, i + 1, r.value, oracle) else {})
  }

  /** The ids of the changes passed over during all rounds. */
  ghost function RoundsPassed(w: World, changes: seq<RemoteChange>, oracle: Oracle): set<ContentId>
    decreases |changes|
  {
    var (r, now) := Round(w, changes, 0, [], oracle);
    RoundPassed(w, changes, 0, [], oracle) +
    (if r.Ok? && r.value != [] && |r.value| < |changes| then RoundsPassed(now, r.value, oracle) else {})
  }

  // ---- Nothing is lost sight of

  /** Every difference between the rows and the remote state is still to do, or was passed over. */
  ghost predicate Accounted(
    rows: Rows, remote: RemoteState, ignored: seq<ContentId>, todo: set<ContentId>, passed: set<ContentId>
  ) {
    && (forall x :: x in rows && x in remote && x !in todo && x !in passed ==>
          rows[x].parent == remote[x].parent && (x !in ignored ==> rows[x].revision == remote[x].revision))
    && (forall x :: x in remote && x !in ignored && x !in rows ==> x in todo || x in passed)
    && (forall x :: x in rows && x !in remote ==> x in todo || x in passed)
  }

  ghost function Todo(changes: seq<RemoteChange>, i: nat, remaining: seq<RemoteChange>): set<ContentId> {
    IdsFrom(changes, i) + IdsFrom(remaining, 0)
  }

  lemma TodoStep(changes: seq<RemoteChange>, i: nat, remaining: seq<RemoteChange>)
    requires i < |changes|
    ensures IdsFrom(changes, i) == {changes[i].id} + IdsFrom(changes, i + 1)
    ensures IdsFrom(remaining + [changes[i]], 0) == IdsFrom(remaining, 0) + {changes[i].id}
    ensures Todo(changes, i, remaining) == {changes[i].id} + Todo(changes, i + 1, remaining)
    ensures Todo(changes, i, remaining) == Todo(changes, i + 1, remaining + [changes[i]])
  {
    var more := remaining + [changes[i]];
    forall x ensures x in IdsFrom(more, 0) <==> x in IdsFrom(remaining, 0) || x == changes[i].id {
      if x in IdsFrom(remaining, 0) {
        var k :| 0 <= k < |remaining| && remaining[k].id == x;
        assert more[k].id == x;
      }
      assert more[|remaining|].id == changes[i].id;
    }
  }

  /** Forgetting a folder takes its current descendants only, and none of the remote state once the parents agree. */
  lemma {:induction false} RemoteSurvives(rows: Rows, remote: RemoteState, id: ContentId, x: ContentId)
    requires IsForest(TreeOfRows(rows)) && ParentClosed(TreeOf(remote)) && id !in remote
    requires forall y :: y in rows && y in remote ==> rows[y].parent == remote[y].parent
    requires x in rows && x in remote
    ensures x in ForgetTree(rows, id)
    decreases Depth(TreeOfRows(rows), x)
  {
    var t := TreeOfRows(rows);
    assert x in t && x in TreeOf(remote);
    UnderStep(t, id, x);
    if t[x].parent.Some? {
      DepthStep(t, x);
      RemoteSurvives(rows, remote, id, t[x].parent.value);
    }
  }

  lemma ForgetAccounts(
    rows: Rows, remote: RemoteState, ignored: seq<ContentId>, todo: set<ContentId>, passed: set<ContentId>, id: ContentId
  )
    requires IsForest(TreeOfRows(rows)) && ParentClosed(TreeOf(remote)) && id !in remote
    requires Accounted(rows, remote, ignored, todo + {id}, passed)
    requires forall x :: x in rows && x in remote ==> x !in todo && x !in passed
    ensures Accounted(ForgetTree(rows, id), remote, ignored, todo, passed)
  {
    forall x | x in rows && x in remote ensures x in ForgetTree(rows, id) {
      RemoteSurvives(rows, remote, id, x);
    }
    if id in rows {
      UnderStep(TreeOfRows(rows), id, id);
    }
  }

  lemma AccountedStep(
    w: World, changes: seq<RemoteChange>, i: nat, remaining: seq<RemoteChange>, oracle: Oracle, remote: RemoteState,
    ignored: seq<ContentId>, passed: set<ContentId>
  )
    requires Awaiting(w) && Fair(oracle, remote) && i < |changes| && Ready(changes, i, remaining, w.rows, remote)
    requires ParentClosed(TreeOf(remote)) && passed !! remote.Keys
    requires PassedOver(w, changes[i], oracle) ==> changes[i].id in passed
    requires Accounted(w.rows, remote, ignored, Todo(changes, i, remaining), passed)
    ensures var (r, now) := Try(w, changes[i], remaining, oracle);
            r.Ok? ==> Accounted(now.rows, remote, ignored, Todo(changes, i + 1, r.value), passed)
  {
    hide Fair, Try, PassedOver, ForgetTree, TreeOf, IsForest, ParentClosed, Todo, Table;
    OneChange(w, changes[i], remaining, oracle, remote);
    TodoStep(changes, i, remaining);
    var c, todo := changes[i], Todo(changes, i + 1, remaining);
    var (r, now) := Try(w, c, remaining, oracle);
    if r.Ok? && !PassedOver(w, c, oracle) && c.Disappear? {
      ForgetCase(w.rows, changes, i, remaining, remote);
      assert Todo(changes, i, remaining) == todo + {c.id};
      ForgetAccounts(w.rows, remote, ignored, todo, passed, c.id);
    }
  }

  /** Once the disappearances have begun, nothing stored is still to be updated. */
  lemma ForgetCase(rows: Rows, changes: seq<RemoteChange>, i: nat, remaining: seq<RemoteChange>, remote: RemoteState)
    requires i < |changes| && Ready(changes, i, remaining, rows, remote) && changes[i].Disappear?
    ensures forall x :: x in rows && x in remote ==> x !in Todo(changes, i + 1, remaining)
  {
  }

  lemma {:induction false} AccountedRound(
    w: World, changes: seq<RemoteChange>, i: nat, remaining: seq<RemoteChange>, oracle: Oracle, remote: RemoteState,
    ignored: seq<ContentId>, passed: set<ContentId>
  )
    requires Awaiting(w) && Fair(oracle, remote) && i <= |changes| && Ready(changes, i, remaining, w.rows, remote)
    requires ParentClosed(TreeOf(remote)) && passed !! remote.Keys
    requires RoundPassed(w, changes, i, remaining, oracle) <= passed
    requires Accounted(w.rows, remote, ignored, Todo(changes, i, remaining), passed)
    ensures var (r, now) := Round(w, changes, i, remaining, oracle);
            r.Ok? ==>
              && Awaiting(now) && Ready(r.value, 0, [], now.rows, remote)
              && Accounted(now.rows, remote, ignored, Todo(r.value, 0, []), passed)
              && forall k :: 0 <= k < |r.value| ==> r.value[k].New?
    decreases |changes| - i
  {
    hide Awaiting, Fair, Try, Accounted, PassedOver, Ready, ParentClosed, TreeOf;
    if i < |changes| {
      ReadyStep(w, changes, i, remaining, oracle, remote);
      AccountedStep(w, changes, i, remaining, oracle, remote, ignored, passed);
      var (r, now) := Try(w, changes[i], remaining, oracle);
      if r.Ok? {
        AccountedRound(now, changes, i + 1, r.value, oracle, remote, ignored, passed);
      }
    } else {
      RoundOver(changes, remaining, w.rows, remote);
    }
  }

  lemma RoundOver(changes: seq<RemoteChange>, remaining: seq<RemoteChange>, rows: Rows, remote: RemoteState)
    requires Ready(changes, |changes|, remaining, rows, remote)
    ensures Ready(remaining, 0, [], rows, remote)
    ensures Todo(changes, |changes|, remaining) == Todo(remaining, 0, [])
    ensures forall k :: 0 <= k < |remaining| ==> remaining[k].New?
  {
  }

  lemma {:induction false} AccountedRounds(
    w: World, changes: seq<RemoteChange>, oracle: Oracle, remote: RemoteState, ignored: seq<ContentId>, passed: set<ContentId>
  )
    requires Awaiting(w) && Fair(oracle, remote) && Ready(changes, 0, [], w.rows, remote)
    requires ParentClosed(TreeOf(remote)) && passed !! remote.Keys
    requires RoundsPassed(w, changes, oracle) <= passed
    requires Accounted(w.rows, remote, ignored, Todo(changes, 0, []), passed)
    ensures var o := Rounds(w, changes, oracle);
            o.result.Ok? ==> Accounted(o.world.rows, remote, ignored, {}, passed)
    decreases |changes|
  {
    hide Awaiting, Fair, Round, Accounted, Ready, ParentClosed, TreeOf;
    AccountedRound(w, changes, 0, [], oracle, remote, ignored, passed);
    var (r, now) := Round(w, changes, 0, [], oracle);
    if r.Ok? && r.value == [] {
      assert Todo([], 0, []) == {};
    } else if r.Ok? && |r.value| < |changes| {
      AccountedRounds(now, r.value, oracle, remote, ignored, passed);
    }
  }

  // ---- A content passed over stays different

  ghost predicate Unsettled(rows: Rows, remote: RemoteState, x: ContentId)
    requires x in remote
  {
    x in rows ==> rows[x].revision != remote[x].revision
  }

  lemma OtherStaysUnsettled(
    w: World, c: RemoteChange, remaining: seq<RemoteChange>, oracle: Oracle, remote: RemoteState, x: ContentId
  )
    requires Awaiting(w) && Fair(oracle, remote) && Consistent(c, w.rows, remote)
    requires x in remote && Unsettled(w.rows, remote, x) && (x != c.id || PassedOver(w, c, oracle))
    ensures var (r, now) := Try(w, c, remaining, oracle);
            r.Ok? ==> Unsettled(now.rows, remote, x) && (c.id == x ==> r.value == remaining)
  {
    hide Awaiting, Fair, Try, Effect, PassedOver, Consistent;
    OneChange(w, c, remaining, oracle, remote);
    var (r, now) := Try(w, c, remaining, oracle);
    if r.Ok? && Effect(w.rows, now.rows, c, remote) {
      OthersKept(w.rows, now.rows, c, remote);
    }
  }

  lemma {:induction false} RoundPassedIds(
    w: World, changes: seq<RemoteChange>, i: nat, remaining: seq<RemoteChange>, oracle: Oracle
  )
    requires i <= |changes|
    ensures RoundPassed(w, changes, i, remaining, oracle) <= IdsFrom(changes, i)
    decreases |changes| - i
  {
    hide Try, PassedOver;
    if i < |changes| {
      var (r, now) := Try(w, changes[i], remaining, oracle);
      if r.Ok? {
        RoundPassedIds(now, changes, i + 1, r.value, oracle);
      }
      TodoStep(changes, i, []);
    }
  }

  /** What a round does not list stays unsettled, and so does what it passes over. */
  lemma {:induction false} UnsettledRound(
    w: World, changes: seq<RemoteChange>, i: nat, remaining: seq<RemoteChange>, oracle: Oracle, remote: RemoteState, x: ContentId
  )
    requires Awaiting(w) && Fair(oracle, remote) && i <= |changes| && Ready(changes, i, remaining, w.rows, remote)
    requires x in remote && Unsettled(w.rows, remote, x) && x !in IdsFrom(remaining, 0)
    requires x in IdsFrom(changes, i) ==> x in RoundPassed(w, changes, i, remaining, oracle)
    ensures var (r, now) := Round(w, changes, i, remaining, oracle);
            r.Ok? ==> Unsettled(now.rows, remote, x) && x !in IdsFrom(r.value, 0)
    decreases |changes| - i
  {
    hide Awaiting, Fair, Try, PassedOver, Unsettled, Consistent;
    if i < |changes| {
      var (r, now) := Try(w, changes[i], remaining, oracle);
      if r.Ok? {
        ReadyStep(w, changes, i, remaining, oracle, remote);
        TodoStep(changes, i, remaining);
        RoundPassedIds(now, changes, i + 1, r.value, oracle);
        OneChange(w, changes[i], remaining, oracle, remote);
        OtherStaysUnsettled(w, changes[i], remaining, oracle, remote, x);
        UnsettledRound(now, changes, i + 1, r.value, oracle, remote, x);
      }
    }
  }

  /** A round ends with a list to retry that holds only creations. */
  lemma {:induction false} ReadyRound(
    w: World, changes: seq<RemoteChange>, i: nat, remaining: seq<RemoteChange>, oracle: Oracle, remote: RemoteState
  )
    requires Awaiting(w) && Fair(oracle, remote) && i <= |changes| && Ready(changes, i, remaining, w.rows, remote)
    ensures var (r, now) := Round(w, changes, i, remaining, oracle);
            r.Ok? ==> Awaiting(now) && Ready(r.value, 0, [], now.rows, remote) && forall k :: 0 <= k < |r.value| ==> r.value[k].New?
    decreases |changes| - i
  {
    hide Awaiting, Fair, Try, Ready;
    if i < |changes| {
      ReadyStep(w, changes, i, remaining, oracle, remote);
      var (r, now) := Try(w, changes[i], remaining, oracle);
      if r.Ok? {
        ReadyRound(now, changes, i + 1, r.value, oracle, remote);
      }
    } else {
      RoundOver(changes, remaining, w.rows, remote);
    }
  }

  lemma {:induction false} RoundsPassedIds(w: World, changes: seq<RemoteChange>, oracle: Oracle, remote: RemoteState)
    requires Awaiting(w) && Fair(oracle, remote) && Ready(changes, 0, [], w.rows, remote)
    ensures RoundsPassed(w, changes, oracle) <= IdsFrom(changes, 0)
    decreases |changes|
  {
    hide Awaiting, Fair, Ready, Round, RoundPassed;
    RoundPassedIds(w, changes, 0, [], oracle);
    ReadyRound(w, changes, 0, [], oracle, remote);
    var (r, now) := Round(w, changes, 0, [], oracle);
    if r.Ok? && r.value != [] && |r.value| < |changes| {
      RoundsPassedIds(now, r.value, oracle, remote);
      RemainingIds(w, changes, 0, [], oracle);
    }
  }

  lemma {:induction false} RemainingIds(
    w: World, changes: seq<RemoteChange>, i: nat, remaining: seq<RemoteChange>, oracle: Oracle
  )
    requires i <= |changes|
    ensures var r := Round(w, changes, i, remaining, oracle).0;
            r.Ok? ==> IdsFrom(r.value, 0) <= IdsFrom(remaining, 0) + IdsFrom(changes, i)
    decreases |changes| - i
  {
    hide OperateOn, IdsFrom, LacksParent;
    if i < |changes| {
      TodoStep(changes, i, remaining);
      var (r, now) := Try(w, changes[i], remaining, oracle);
      if r.Ok? {
        RemainingIds(now, changes, i + 1, r.value, oracle);
      }
    }
  }

  lemma {:induction false} UnsettledRounds(
    w: World, changes: seq<RemoteChange>, oracle: Oracle, remote: RemoteState, x: ContentId
  )
    requires Awaiting(w) && Fair(oracle, remote) && Ready(changes, 0, [], w.rows, remote)
    requires x in remote && Unsettled(w.rows, remote, x)
    requires x in IdsFrom(changes, 0) ==> x in RoundsPassed(w, changes, oracle)
    ensures var o := Rounds(w, changes, oracle); o.result.Ok? ==> Unsettled(o.world.rows, remote, x)
    decreases |changes|
  {
    hide Awaiting, Fair, Round, RoundPassed;
    ReadyRound(w, changes, 0, [], oracle, remote);
    var (r, now) := Round(w, changes, 0, [], oracle);
    if x !in IdsFrom(changes, 0) || x in RoundPassed(w, changes, 0, [], oracle) {
      UnsettledRound(w, changes, 0, [], oracle, remote, x);
    } else if r.Ok? && r.value != [] && |r.value| < |changes| {
      RoundsPassedIds(now, r.value, oracle, remote);
    }
    if r.Ok? && r.value != [] && |r.value| < |changes| {
      UnsettledRounds(now, r.value, oracle, remote, x);
    }
  }

  // ---- The main result

  lemma DiffIsReady(changes: seq<RemoteChange>, rows: Rows, remote: RemoteState, ignored: seq<ContentId>)
    requires RemoteSync.IsDiff(changes, rows, remote, ignored)
    ensures Ready(changes, 0, [], rows, remote)
    ensures forall c :: c in changes && c.id in remote ==> c.id !in ignored && Unsettled(rows, remote, c.id)
  {
    forall c | c in changes
      ensures Consistent(c, rows, remote) && (c.id in remote ==> c.id !in ignored && Unsettled(rows, remote, c.id))
    {
      match c
      case New(id, p) => assert New(id, p) in changes;
      case Updated(id, p) => assert RemoteChange.Updated(id, p) in changes;
      case Disappear(id, p) => assert Disappear(id, p) in changes;
    }
  }

  lemma ListedFrom(changes: seq<RemoteChange>, c: RemoteChange)
    requires c in changes
    ensures c.id in IdsFrom(changes, 0)
  {
  }

  lemma DiffAccounts(changes: seq<RemoteChange>, rows: Rows, remote: RemoteState, ignored: seq<ContentId>, passed: set<ContentId>)
    requires RemoteSync.IsDiff(changes, rows, remote, ignored) && MovesAreListed(rows, remote, ignored)
    requires IsForest(TreeOf(remote))
    ensures Accounted(rows, remote, ignored, Todo(changes, 0, []), passed)
  {
    hide IsForest, IdsFrom;
    forall x | x in remote && x !in ignored && Unsettled(rows, remote, x) ensures x in IdsFrom(changes, 0) {
      PathDefined(TreeOf(remote), x);
      var p := PathOf(TreeOf(remote), x).value;
      ListedFrom(changes, if x in rows then RemoteChange.Updated(x, p) else New(x, p));
    }
    forall x | x in rows && x !in remote ensures x in IdsFrom(changes, 0) {
      ListedFrom(changes, Disappear(x, rows[x].path));
    }
  }

  /** Comparing again finds nothing. */
  ghost predicate Converged(rows: Rows, remote: RemoteState, ignored: seq<ContentId>) {
    RemoteSync.IsDiff([], rows, remote, ignored)
  }

  lemma ConvergedMeans(rows: Rows, remote: RemoteState, ignored: seq<ContentId>)
    requires IsForest(TreeOf(remote))
    ensures Converged(rows, remote, ignored) <==>
            && rows.Keys <= remote.Keys
            && forall x :: x in remote && x !in ignored ==> x in rows && rows[x].revision == remote[x].revision
  {
    hide IsForest;
    var none: seq<RemoteChange> := [];
    forall x | x in remote ensures PathOf(TreeOf(remote), x).Some? {
      PathDefined(TreeOf(remote), x);
    }
    if Converged(rows, remote, ignored) {
      forall x | x in remote && x !in ignored ensures x in rows && rows[x].revision == remote[x].revision {
        var p := PathOf(TreeOf(remote), x).value;
        assert New(x, p) !in none && RemoteChange.Updated(x, p) !in none;
      }
      forall x | x in rows ensures x in remote {
        assert Disappear(x, rows[x].path) !in none;
      }
    }
  }

  ghost predicate ConvergesUnlessPassed(end: Rows, remote: RemoteState, ignored: seq<ContentId>, passed: set<ContentId>) {
    Converged(end, remote, ignored) <==> passed !! remote.Keys && passed !! end.Keys
  }

  /**
   Applying every computed change with success reaches the server's state, and comparing
   again finds nothing, exactly when no change passed over concerns a remote content or a
   content still stored at the end.
   */
  lemma {:induction false} ConvergenceIsExact(
    w: World, changes: seq<RemoteChange>, oracle: Oracle, remote: RemoteState, ignored: seq<ContentId>
  )
    requires Awaiting(w) && Fair(oracle, remote) && IsForest(TreeOf(remote))
    requires RemoteSync.IsDiff(changes, w.rows, remote, ignored) && MovesAreListed(w.rows, remote, ignored)
    requires Rounds(w, changes, oracle).result.Ok?
    ensures var end := Rounds(w, changes, oracle).world.rows;
            var passed := RoundsPassed(w, changes, oracle);
            ConvergesUnlessPassed(end, remote, ignored, passed)
  {
    hide Awaiting, Fair, Rounds, RoundsPassed, Ready, IsForest, Converged, TreeOf, RemoteSync.IsDiff, MovesAreListed;
    var end := Rounds(w, changes, oracle).world.rows;
    var passed := RoundsPassed(w, changes, oracle);
    DiffIsReady(changes, w.rows, remote, ignored);
    DiffAccounts(changes, w.rows, remote, ignored, passed);
    ConvergedMeans(end, remote, ignored);
    if passed !! remote.Keys {
      ClosedForest(remote);
      AccountedRounds(w, changes, oracle, remote, ignored, passed);
    }
    RoundsPassedIds(w, changes, oracle, remote);
    forall x | x in passed && x in remote ensures !Converged(end, remote, ignored) {
      var k :| 0 <= k < |changes| && changes[k].id == x;
      assert changes[k] in changes;
      UnsettledRounds(w, changes, oracle, remote, x);
    }
    assert Converged(end, remote, ignored) ==> passed !! remote.Keys;
    assert Converged(end, remote, ignored) ==> passed !! end.Keys;
    if passed !! remote.Keys && passed !! end.Keys {
      assert forall x :: x in end ==> x in remote;
      assert forall x :: x in remote && x !in ignored ==> x in end && end[x].revision == remote[x].revision;
    }
  }

  lemma ClosedForest(remote: RemoteState)
    requires IsForest(TreeOf(remote))
    ensures ParentClosed(TreeOf(remote))
  {
  }

  /** The server answers about a content as it listed it. */
  ghost predicate AnswersAsListed(oracle: Oracle, listing: seq<RemoteContent>) {
    forall n: nat, id :: id in oracle(n).contents && id in RemoteSync.EntriesOf(listing) ==>
      oracle(n).contents[id] == RemoteSync.EntriesOf(listing)[id]
  }

  /** The whole startup against one listing: compare, apply with success, compare again. */
  lemma {:induction false} StartupConverges(
    w: World, listing: seq<RemoteContent>, changes: seq<RemoteChange>, oracle: Oracle, ignored: seq<ContentId>
  )
    requires Awaiting(w) && AnswersAsListed(oracle, listing)
    requires RemoteSync.UniqueIds(listing) && RemoteSync.AllConvertible(listing)
    requires RemoteSync.FoldersHoldFolders(RemoteSync.EntriesOf(listing))
    requires var gathered := RemoteSync.Gathered(listing, |listing|);
             gathered.Ok? && RemoteSync.IsDiff(changes, w.rows, gathered.value, ignored) &&
             MovesAreListed(w.rows, gathered.value, ignored)
    requires Rounds(w, changes, oracle).result.Ok?
    ensures var remote := RemoteSync.Gathered(listing, |listing|).value;
            var end, passed := Rounds(w, changes, oracle).world.rows, RoundsPassed(w, changes, oracle);
            ConvergesUnlessPassed(end, remote, ignored, passed)
  {
    hide Awaiting, Rounds, RoundsPassed, Converged, RemoteSync.Gathered, RemoteSync.EntriesOf, RemoteSync.IsDiff, MovesAreListed;
    RemoteSync.FolderParentsSuffice(listing);
    RemoteSync.RemoteStateIsExact(listing);
    var remote := RemoteSync.Gathered(listing, |listing|).value;
    forall id | id in remote ensures FromRemote(RemoteSync.EntriesOf(listing)[id]) == Some(remote[id]) {
      RemoteSync.StateConverts(RemoteSync.EntriesOf(listing), remote, id);
    }
    assert Fair(oracle, remote);
    ConvergenceIsExact(w, changes, oracle, remote, ignored);
  }

  // ---- What gets passed over

  /** Where an update that changes the path leaves the disk. */
  lemma UpdateMoves(rows: Rows, disk: Disk, id: ContentId, download: bool, a: Answers, local: Path, remote: Path)
    requires GetAsContent(a, id).Some? && PathOf(TreeOfRows(rows), id) == Some(local) && local != remote
    requires var c := GetAsContent(a, id).value; ChildPath(TreeOfRows(rows), c.parent, c.name) == Some(remote)
    requires UpdatedAttempt(rows, disk, id, download, a).outcome.Ok?
    ensures RenameOnDisk(disk, local, remote, true).Some?
    ensures var now := UpdatedAttempt(rows, disk, id, download, a).disk;
            now == MoveBelow(disk, local, remote) || now == MoveBelow(disk, local, remote)[remote := Plain]
  {
    hide MoveBelow, PathOf, ChildPath, TreeOfRows;
  }

  /** Contents added below `folder` will be taken for attachments. */
  ghost predicate IsHidden(w: World, folder: ContentId) {
    folder in w.rows && WithParentType(w.rows, w.disk, Some(folder))
  }

  /**
   A folder that moved hides its stored subfolders: their rows keep the old path, where
   nothing is left, so whatever the server adds in them is taken for an attachment.
   */
  lemma {:induction false} MovedFolderHidesSubfolders(w: World, id: ContentId, download: bool, a: Answers, below: ContentId)
    requires Sound(w.rows) && Agrees(w.rows) && DiskTree(w.disk)
    requires id in w.rows && Under(TreeOfRows(w.rows), id, below) && below != id
    requires GetAsContent(a, id).Some?
    requires var c := GetAsContent(a, id).value;
             ChildPath(TreeOfRows(w.rows), c.parent, c.name) != PathOf(TreeOfRows(w.rows), id)
    ensures var (r, now) := Finish(w, UpdatedAttempt(w.rows, w.disk, id, download, a));
            r.Ok? ==> IsHidden(now, below)
  {
    hide UpdatedAttempt, MoveBelow, RenameOnDisk, ChildPath, PathOf, NewPath;
    var attempt := UpdatedAttempt(w.rows, w.disk, id, download, a);
    if attempt.outcome.Ok? {
      UpdateNeedsPlace(w.rows, w.disk, id, download, a);
      var t := TreeOfRows(w.rows);
      var c := GetAsContent(a, id).value;
      var local, remote := w.rows[id].path, ChildPath(t, c.parent, c.name).value;
      UpdateMoves(w.rows, w.disk, id, download, a, local, remote);
      PathUnder(t, id, below);
      NothingLeftBelow(w.disk, local, remote, w.rows[below].path);
    }
  }

  lemma UpdateNeedsPlace(rows: Rows, disk: Disk, id: ContentId, download: bool, a: Answers)
    requires UpdatedAttempt(rows, disk, id, download, a).outcome.Ok?
    ensures GetAsContent(a, id).Some? &&
            var c := GetAsContent(a, id).value; ChildPath(TreeOfRows(rows), c.parent, c.name).Some?
  {
  }
}
