/**
 The operator: one event in, executors with bounded retry, then the state changes.
 The database, the disk and the planned ignores form its world; `clock` counts the
 interactions with the outside, whose answers an oracle gives.
 */
module Operator {
  import opened Wrappers
  import opened Forest
  import opened Contents
  import opened Disk
  import opened DiskState
  import opened Reducer
  import opened Executors

  datatype OperatorError =
    | ExecutorFailed(reason: ExecutorError)
    | StateFailed(cause: StateError)
    | ClientFailed

  datatype World = World(rows: Rows, disk: Disk, ignored: seq<Event>, clock: nat)

  type Oracle = nat -> Answers

  const RETRY_COUNT_MAX := 5

  function WithParentType(rows: Rows, disk: Disk, parent: Option<ContentId>): bool {
    parent.Some? && parent.value in rows && TypeAt(disk, rows[parent.value].path) != Folder
  }

  /** A content below something else than a folder is an attachment; None when the server does not answer. */
  function IsAttachment(rows: Rows, disk: Disk, event: Event, a: Answers): Option<bool> {
    match event
    case Remote(Created(id)) =>
      (match GetContent(a, id)
       case None => None
       case Some(content) => Some(WithParentType(rows, disk, content.parent)))
    case Remote(e) => Some(e.id in rows && WithParentType(rows, disk, rows[e.id].parent))
    case Local(_) => Some(false)
  }

  /** An update of an unknown content is its creation, as when it comes from another workspace. */
  function Qualify(rows: Rows, event: Event): Event {
    match event
    case Remote(Updated(id)) => if id in rows then event else Remote(RemoteEvent.Created(id))
    case _ => event
  }

  function ExecutorsOf(event: Event): seq<Executor> {
    match event
    case Remote(Deleted(id)) => [AbsentFromDisk(id)]
    case Remote(Created(id)) => [PresentOnDisk(id)]
    case Remote(Updated(id)) => [UpdatedOnDisk(id, true)]
    case Remote(Renamed(id)) => [UpdatedOnDisk(id, false)]
    case Local(DiskEventWrap(dbPath, Deleted(_))) => [AbsentFromRemote(dbPath)]
    case Local(DiskEventWrap(_, Created(diskPath))) => [CreatedOnRemote(diskPath)]
    case Local(DiskEventWrap(dbPath, Modified(diskPath))) =>
      [ModifiedOnRemote(dbPath)] + if dbPath != diskPath then [NamedOnRemote(dbPath, diskPath)] else []
    case Local(DiskEventWrap(dbPath, Renamed(_, after))) => [NamedOnRemote(dbPath, after)]
  }

  /** How the executors ended, in which world, and after how many timeouts. */
  datatype Driven = Driven(outcome: Outcome, world: World, timeouts: nat)

  ghost function Attempted(e: Executor, w: World, oracle: Oracle): Attempt {
    AttemptOf(e, w.rows, w.disk, oracle(w.clock))
  }

  function After(w: World, a: Attempt): World {
    World(w.rows, a.disk, w.ignored + a.planned, w.clock + 1)
  }

  ghost function Drive(executors: seq<Executor>, w: World, oracle: Oracle, retries: nat, changes: seq<StateModification>)
    : Driven
    requires retries <= RETRY_COUNT_MAX
    decreases |executors|, RETRY_COUNT_MAX - retries
  {
    if executors == [] then Driven(Ok(changes), w, retries)
    else if retries == RETRY_COUNT_MAX then Driven(Err(MaximumRetryCount), w, retries)
    else
      var a := Attempted(executors[0], w, oracle);
      match a.outcome
      case Ok(more) => Drive(executors[1..], After(w, a), oracle, retries, changes + more)
      case Err(Timeout) => Drive(executors, After(w, a), oracle, retries + 1, changes)
      case Err(error) => Driven(Err(error), After(w, a), retries)
  }

  /** The changes are applied one after the other, up to the first that fails. */
  ghost function ApplyAll(rows: Rows, changes: seq<StateModification>): (Result<(), StateError>, Rows)
    decreases |changes|
  {
    if changes == [] then (Ok(()), rows)
    else
      match ChangeRows(rows, changes[0])
      case Ok(now) => ApplyAll(now, changes[1..])
      case Err(error) => (Err(error), rows)
  }

  function WithoutEvent(events: seq<Event>, e: Event): (r: seq<Event>)
    ensures forall x :: x in r <==> x in events && x != e
  {
    if events == [] then []
    else (if events[0] == e then [] else [events[0]]) + WithoutEvent(events[1..], e)
  }

  ghost function Handle(w: World, event: Event, oracle: Oracle): (Result<(), OperatorError>, World) {
    var d := Drive(ExecutorsOf(Qualify(w.rows, event)), w, oracle, 0, []);
    match d.outcome
    case Err(error) => (Err(ExecutorFailed(error)), d.world)
    case Ok(changes) =>
      var (r, rows) := ApplyAll(d.world.rows, changes);
      (if r.Ok? then Ok(()) else Err(StateFailed(r.error)), d.world.(rows := rows))
  }

  ghost function OperateOn(w: World, event: Event, oracle: Oracle): (Result<(), OperatorError>, World) {
    if event in w.ignored then (Ok(()), w.(ignored := WithoutEvent(w.ignored, event)))
    else
      var asked := w.(clock := w.clock + 1);
      match IsAttachment(w.rows, w.disk, event, oracle(w.clock))
      case None => (Err(ClientFailed), asked)
      case Some(true) => (Ok(()), asked)
      case Some(false) => Handle(asked, event, oracle)
  }

  // ---- Every remote event keeps the database sound

  /** Each change finds a forest to work on. */
  ghost predicate AppliesSafely(rows: Rows, changes: seq<StateModification>)
    decreases |changes|
  {
    changes != [] ==>
      && IsForest(TreeOfRows(rows))
      && (ChangeRows(rows, changes[0]).Ok? ==> AppliesSafely(ChangeRows(rows, changes[0]).value, changes[1..]))
  }

  ghost predicate OneSoundChange(rows: Rows, changes: seq<StateModification>) {
    |changes| == 1 && (ChangeRows(rows, changes[0]).Ok? ==> Sound(ChangeRows(rows, changes[0]).value))
  }

  lemma OneChangeApplies(rows: Rows, changes: seq<StateModification>)
    requires Sound(rows) && OneSoundChange(rows, changes)
    ensures AppliesSafely(rows, changes) && Sound(ApplyAll(rows, changes).1)
    ensures ApplyAll(rows, changes).0.Err? ==> ApplyAll(rows, changes).1 == rows
    ensures ApplyAll(rows, changes).0.Ok? <==> ChangeRows(rows, changes[0]).Ok?
    ensures ChangeRows(rows, changes[0]).Ok? ==> ApplyAll(rows, changes).1 == ChangeRows(rows, changes[0]).value
  {
    assert changes[1..] == [];
  }

  /** A target that is not strictly below the content's own path cannot lie in its subtree. */
  lemma TargetOutside(t: Tree, id: ContentId, p: ContentId, name: Name)
    requires IsForest(t) && id in t && p in t
    requires PathOf(t, id).Some? && PathOf(t, p).Some?
    requires var local, remote := PathOf(t, id).value, PathOf(t, p).value + [name];
             local == remote || !(local <= remote)
    ensures !Under(t, id, p)
  {
    var local, above := PathOf(t, id).value, PathOf(t, p).value;
    assert local <= above ==> local <= above + [name] && local != above + [name];
    if Under(t, id, p) {
      PathUnder(t, id, p);
    }
  }

  /**
   The renaming on disk is what keeps the tree acyclic: a new parent inside the moved
   folder would need a rename below itself, or leave the path longer than it is.
   */
  lemma UpdateParentOutside(rows: Rows, disk: Disk, id: ContentId, download: bool, a: Answers)
    requires Sound(rows) && UpdatedAttempt(rows, disk, id, download, a).outcome.Ok?
    ensures id in rows && GetAsContent(a, id).Some? && CanBeParent(rows, id, GetAsContent(a, id).value.parent)
  {
    hide MoveBelow, Replaceable, FillFile, PathOf;
    var t, content := TreeOfRows(rows), GetAsContent(a, id).value;
    PathInTree(t, id);
    if content.parent.Some? {
      PathInTree(t, content.parent.value);
      TargetOutside(t, id, content.parent.value, content.name);
    }
  }

  lemma UpdateIsSound(rows: Rows, disk: Disk, id: ContentId, download: bool, a: Answers)
    requires Sound(rows) && UpdatedAttempt(rows, disk, id, download, a).outcome.Ok?
    ensures OneSoundChange(rows, UpdatedAttempt(rows, disk, id, download, a).outcome.value)
  {
    hide UpdatedAttempt, Sound, CanBeParent, TreeOfRows;
    UpdateParentOutside(rows, disk, id, download, a);
    var change := UpdatedAttempt(rows, disk, id, download, a).outcome.value[0];
    if ChangeRows(rows, change).Ok? {
      UpdateKeepsSound(rows, id, change.name, change.revision, change.parent, change.timestamp);
    }
  }

  lemma PathInTree(t: Tree, id: ContentId)
    requires PathOf(t, id).Some?
    ensures id in t
  {
  }

  lemma PresentIsSound(rows: Rows, disk: Disk, id: ContentId, a: Answers)
    requires Sound(rows) && PresentAttempt(rows, disk, id, a).outcome.Ok?
    ensures OneSoundChange(rows, PresentAttempt(rows, disk, id, a).outcome.value)
  {
    var content := GetAsContent(a, id).value;
    var path := ChildPath(TreeOfRows(rows), content.parent, content.name).value;
    var change := PresentAttempt(rows, disk, id, a).outcome.value[0];
    if ChangeRows(rows, change).Ok? {
      AddKeepsSound(rows, content, path, change.timestamp);
    }
  }

  ghost predicate OnDisk(e: Executor) {
    e.AbsentFromDisk? || e.PresentOnDisk? || e.UpdatedOnDisk?
  }

  lemma DiskExecutorIsSound(e: Executor, rows: Rows, disk: Disk, a: Answers)
    requires Sound(rows) && OnDisk(e)
    ensures var outcome := AttemptOf(e, rows, disk, a).outcome;
            outcome.Ok? ==> OneSoundChange(rows, outcome.value)
  {
    var outcome := AttemptOf(e, rows, disk, a).outcome;
    if outcome.Ok? {
      match e
      case AbsentFromDisk(id) => ForgetKeepsSound(rows, id);
      case PresentOnDisk(id) => PresentIsSound(rows, disk, id, a);
      case UpdatedOnDisk(id, download) => UpdateIsSound(rows, disk, id, download, a);
    }
  }

  /** An executor that acts on the disk is attempted once. */
  lemma DriveOnce(e: Executor, w: World, oracle: Oracle)
    requires OnDisk(e)
    ensures var a := Attempted(e, w, oracle); Drive([e], w, oracle, 0, []) == Driven(a.outcome, After(w, a), 0)
  {
    assert [e][1..] == [];
    var a := Attempted(e, w, oracle);
    if a.outcome.Ok? {
      assert [] + a.outcome.value == a.outcome.value;
    }
  }

  /** A remote event has one executor, which acts on the disk. */
  lemma RemoteDrive(w: World, event: Event, oracle: Oracle)
    requires event.Remote?
    requires Sound(w.rows)
    ensures var executors := ExecutorsOf(Qualify(w.rows, event));
            && |executors| == 1
            && var a := Attempted(executors[0], w, oracle);
               && Drive(executors, w, oracle, 0, []) == Driven(a.outcome, After(w, a), 0)
               && (a.outcome.Ok? ==> OneSoundChange(w.rows, a.outcome.value))
  {
    hide Drive, OneSoundChange, Sound;
    var executors := ExecutorsOf(Qualify(w.rows, event));
    assert executors == [executors[0]];
    DiskExecutorIsSound(executors[0], w.rows, w.disk, oracle(w.clock));
    DriveOnce(executors[0], w, oracle);
  }

  /** A remote event step by step: the one executor, then its one change. */
  ghost function RemoteStep(w: World, event: Event, oracle: Oracle): (Result<(), OperatorError>, World)
    requires event.Remote?
  {
    var asked := w.(clock := w.clock + 1);
    match IsAttachment(w.rows, w.disk, event, oracle(w.clock))
    case None => (Err(ClientFailed), asked)
    case Some(true) => (Ok(()), asked)
    case Some(false) => RemoteHandle(asked, event, oracle)
  }

  ghost function RemoteHandle(w: World, event: Event, oracle: Oracle): (Result<(), OperatorError>, World)
    requires event.Remote?
  {
    Finish(w, Attempted(ExecutorsOf(Qualify(w.rows, event))[0], w, oracle))
  }

  /** The end of an event whose only attempt is `a`. */
  ghost function Finish(w: World, a: Attempt): (Result<(), OperatorError>, World) {
    match a.outcome
    case Err(error) => (Err(ExecutorFailed(error)), After(w, a))
    case Ok(changes) =>
      if |changes| != 1 then (Ok(()), After(w, a))
      else
        match ChangeRows(w.rows, changes[0])
        case Err(error) => (Err(StateFailed(error)), After(w, a))
        case Ok(now) => (Ok(()), After(w, a).(rows := now))
  }

  lemma RemoteHandleIsHandle(w: World, event: Event, oracle: Oracle)
    requires Sound(w.rows) && event.Remote?
    ensures Handle(w, event, oracle) == RemoteHandle(w, event, oracle)
    ensures Sound(RemoteHandle(w, event, oracle).1.rows)
    ensures RemoteHandle(w, event, oracle).0.Err? ==> RemoteHandle(w, event, oracle).1.rows == w.rows
  {
    RemoteDrive(w, event, oracle);
    var d := Drive(ExecutorsOf(Qualify(w.rows, event)), w, oracle, 0, []);
    if d.outcome.Ok? {
      OneChangeApplies(w.rows, d.outcome.value);
    }
  }

  lemma OperateCases(w: World, event: Event, oracle: Oracle)
    ensures var asked := w.(clock := w.clock + 1);
            OperateOn(w, event, oracle) == Handle(asked, event, oracle) ||
            (OperateOn(w, event, oracle).1.rows == w.rows)
  {
  }

  lemma StepFromHandle(w: World, event: Event, oracle: Oracle)
    requires event.Remote? && event !in w.ignored
    requires var asked := w.(clock := w.clock + 1);
             Handle(asked, event, oracle) == RemoteHandle(asked, event, oracle)
    ensures OperateOn(w, event, oracle) == RemoteStep(w, event, oracle)
  {
  }

  lemma RemoteStepIsOperate(w: World, event: Event, oracle: Oracle)
    requires Sound(w.rows) && event.Remote? && event !in w.ignored
    ensures OperateOn(w, event, oracle) == RemoteStep(w, event, oracle)
  {
    RemoteHandleIsHandle(w.(clock := w.clock + 1), event, oracle);
    StepFromHandle(w, event, oracle);
  }

  /** Whatever the server and the disk answer, and even when the step fails, the database stays sound. */
  lemma RemoteEventKeepsSound(w: World, event: Event, oracle: Oracle)
    requires Sound(w.rows) && event.Remote?
    ensures Sound(OperateOn(w, event, oracle).1.rows)
    ensures OperateOn(w, event, oracle).0.Err? ==> OperateOn(w, event, oracle).1.rows == w.rows
  {
    RemoteHandleIsHandle(w.(clock := w.clock + 1), event, oracle);
    OperateCases(w, event, oracle);
  }

  ghost function RunEvents(w: World, events: seq<Event>, oracle: Oracle): World
    decreases |events|
  {
    if events == [] then w else RunEvents(OperateOn(w, events[0], oracle).1, events[1..], oracle)
  }

  /** The database invariant over whole runs of remote events, failing steps included. */
  lemma {:induction false} RunKeepsSound(w: World, events: seq<Event>, oracle: Oracle)
    requires Sound(w.rows) && forall e :: e in events ==> e.Remote?
    ensures Sound(RunEvents(w, events, oracle).rows)
    decreases |events|
  {
    if events != [] {
      assert events[0] in events;
      RemoteEventKeepsSound(w, events[0], oracle);
      RunKeepsSound(OperateOn(w, events[0], oracle).1, events[1..], oracle);
    }
  }

  // ---- The operator as an object

  class Operator {
    const state: DiskState
    const oracle: Oracle
    var disk: Disk
    var ignoreEvents: seq<Event>
    var clock: nat

    constructor (state: DiskState, disk: Disk, oracle: Oracle)
      ensures this.state == state && this.oracle == oracle
      ensures this.disk == disk && ignoreEvents == [] && clock == 0
    {
      this.state, this.oracle, this.disk, ignoreEvents, clock := state, oracle, disk, [], 0;
    }

    ghost function Now(): World
      reads this, state
    {
      World(state.rows, disk, ignoreEvents, clock)
    }

    /** The world after an attempt of `e`; the clock is left to the caller. */
    ghost predicate Performed(before: World, attempt: Attempt, outcome: Outcome)
      reads this, state
    {
      && outcome == attempt.outcome
      && Now() == World(before.rows, attempt.disk, before.ignored + attempt.planned, before.clock)
    }

    method AbsentFromDisk(id: ContentId, a: Answers) returns (r: Outcome)
      requires Sound(state.rows)
      modifies this`disk, this`ignoreEvents
      ensures Performed(old(Now()), AbsentAttempt(old(state.rows), old(disk), id, a), r)
    {
      var content := state.Get(id, disk);
      OwnParentLoops(state.rows, id);
      if content.Err? || content.value.None? {
        return Err(ExecutorError.Unexpected);
      }
      var path := state.Path(id);
      if path.Err? {
        return Err(ExecutorError.Unexpected);
      }
      if Exists(disk, path.value) {
        ignoreEvents := ignoreEvents + [PlanLocal(DiskEvent.Deleted(path.value))];
      }
      disk := RemoveFromDisk(disk, path.value, content.value.value.kind, a.ioOk);
      r := Ok([Forgot(id)]);
    }

    /** The path of a child of `parent`, read from the state. */
    method PathBelow(parent: Option<ContentId>, name: Name) returns (r: Result<Path, StateError>)
      requires Sound(state.rows)
      ensures r.Ok? <==> ChildPath(TreeOfRows(state.rows), parent, name).Some?
      ensures r.Ok? ==> r.value == ChildPath(TreeOfRows(state.rows), parent, name).value
      ensures r == Err(UnknownContent(if parent.Some? then parent.value else 0)) <==>
              parent.Some? && parent.value !in state.rows
    {
      if parent.None? {
        assert [] + [name] == [name];
        return Ok([name]);
      }
      if parent.value !in state.rows {
        assert Ends(TreeOfRows(state.rows), parent.value, 0);
      }
      var path := state.Path(parent.value);
      if path.Err? {
        return path;
      }
      r := Ok(path.value + [name]);
    }

    method PresentOnDisk(id: ContentId, a: Answers) returns (r: Outcome)
      requires Sound(state.rows)
      modifies this`disk, this`ignoreEvents
      ensures Performed(old(Now()), PresentAttempt(old(state.rows), old(disk), id, a), r)
    {
      var content := GetAsContent(a, id);
      if content.None? {
        return Err(ExecutorError.Unexpected);
      }
      var c := content.value;
      var below := PathBelow(c.parent, c.name);
      if below.Err? {
        if c.parent.Some? && below.error == UnknownContent(c.parent.value) {
          return Err(ExecutorError.MissingParent(id, c.parent.value));
        }
        return Err(ExecutorError.Unexpected);
      }
      r := Place(c, below.value, a);
    }

    method Place(content: Content, path: Path, a: Answers) returns (r: Outcome)
      modifies this`disk, this`ignoreEvents
      ensures Performed(old(Now()), PlaceAttempt(old(disk), content, path, a), r)
    {
      if !Exists(disk, path) {
        ignoreEvents := ignoreEvents + [PlanLocal(DiskEvent.Created(path))];
      }
      match content.kind {
        case Folder => r := PresentFolder(content, path, a);
        case _ => r := PresentFile(content, path, a);
      }
    }

    method PresentFolder(content: Content, path: Path, a: Answers) returns (r: Outcome)
      modifies this`disk, this`ignoreEvents
      ensures Performed(old(Now()), FolderAttempt(old(disk), content, path, a), r)
    {
      ghost var before := ignoreEvents;
      var current := path;
      assert before + PlannedAbove(path, a.cwd) == ignoreEvents + PlannedAbove(current, a.cwd);
      while current != []
        invariant disk == old(disk)
        invariant ignoreEvents + PlannedAbove(current, a.cwd) == before + PlannedAbove(path, a.cwd)
        decreases |current|
      {
        ghost var above := ignoreEvents;
        current := ParentPath(current);
        ghost var rest := PlannedAbove(current, a.cwd);
        if current == [] || current !in a.cwd {
          ignoreEvents := ignoreEvents + [PlanLocal(DiskEvent.Created(current))];
          assert above + ([PlanLocal(DiskEvent.Created(current))] + rest) ==
                 above + [PlanLocal(DiskEvent.Created(current))] + rest;
        } else {
          assert [] + rest == rest;
        }
      }
      assert ignoreEvents + [] == ignoreEvents;
      var created := CreateDirAll(disk, path, a.ioOk);
      if created.Some? {
        disk := created.value;
      } else if !Exists(disk, path) {
        return Err(ExecutorError.Unexpected);
      }
      r := AddWhenDated(content, path, a);
    }

    method PresentFile(content: Content, path: Path, a: Answers) returns (r: Outcome)
      modifies this`disk, this`ignoreEvents
      ensures Performed(old(Now()), FileAttempt(old(disk), content, path, a), r)
    {
      var exist := Exists(disk, path);
      var created := CreateFile(disk, path, a.ioOk);
      if created.None? {
        return Err(ExecutorError.Unexpected);
      }
      disk := created.value;
      if !exist {
        ignoreEvents := ignoreEvents + [PlanLocal(DiskEvent.Created(path))];
      }
      if !a.fillOk {
        return Err(ExecutorError.Unexpected);
      }
      ignoreEvents := ignoreEvents + [PlanLocal(DiskEvent.Modified(path))];
      r := AddWhenDated(content, path, a);
    }

    method UpdatedOnDisk(id: ContentId, download: bool, a: Answers) returns (r: Outcome)
      requires Sound(state.rows)
      modifies this`disk, this`ignoreEvents
      ensures Performed(old(Now()), UpdatedAttempt(old(state.rows), old(disk), id, download, a), r)
    {
      hide PathOf, ChildPath, TreeOfRows, MoveBelow, Replaceable, DownloadAttempt, FromRemote;
      SoundStops(state.rows, id);
      var local := state.Path(id);
      if local.Err? {
        return Err(ExecutorError.Unexpected);
      }
      var content := GetAsContent(a, id);
      if content.None? {
        return Err(ExecutorError.Unexpected);
      }
      var remote := PathBelow(content.value.parent, content.value.name);
      if remote.Err? {
        return Err(ExecutorError.Unexpected);
      }
      if local.value != remote.value {
        var moved := RenameOnDisk(disk, local.value, remote.value, a.ioOk);
        if moved.None? {
          return Err(ExecutorError.Unexpected);
        }
        disk := moved.value;
        ignoreEvents := ignoreEvents + [PlanLocal(DiskEvent.Renamed(local.value, remote.value))];
      }
      r := Download(id, download, content.value, local.value, remote.value, a);
    }

    method Download(id: ContentId, download: bool, content: Content, local: Path, remote: Path, a: Answers)
      returns (r: Outcome)
      modifies this`disk, this`ignoreEvents
      ensures Performed(old(Now()), DownloadAttempt(old(disk), id, download, content, local, remote, a), r)
    {
      if download {
        var filled := FillFile(disk, content.kind, remote, a.fillOk);
        if filled.None? {
          return Err(ExecutorError.Unexpected);
        }
        disk := filled.value;
        ignoreEvents := ignoreEvents + [PlanLocal(DiskEvent.Modified(local))];
      }
      if a.timestamp.None? || !Exists(disk, remote) {
        return Err(ExecutorError.Unexpected);
      }
      r := Ok([Update(id, content.name, content.revision, content.parent, a.timestamp.value)]);
    }

    method Execute(e: Executor) returns (r: Outcome)
      requires Sound(state.rows)
      modifies this
      ensures r == Attempted(e, old(Now()), oracle).outcome
      ensures Now() == After(old(Now()), Attempted(e, old(Now()), oracle))
    {
      var a := oracle(clock);
      match e {
        case AbsentFromDisk(id) => r := AbsentFromDisk(id, a);
        case PresentOnDisk(id) => r := PresentOnDisk(id, a);
        case UpdatedOnDisk(id, download) => r := UpdatedOnDisk(id, download, a);
        case _ =>
          ignoreEvents := ignoreEvents + a.serverPlanned;
          r := a.serverOutcome;
      }
      clock := clock + 1;
    }

    /** A remote event needs nothing but a sound database, and leaves one. */
    method OperateRemote(event: RemoteEvent) returns (r: Result<(), OperatorError>)
      requires Sound(state.rows)
      modifies this, state
      ensures (r, Now()) == OperateOn(old(Now()), Remote(event), oracle)
      ensures Sound(state.rows)
    {
      RemoteEventKeepsSound(Now(), Remote(event), oracle);
      r := Operate(Remote(event));
    }

    /** Every executor in turn, again after each timeout, until the budget of retries is spent. */
    method RunExecutors(executors: seq<Executor>) returns (r: Outcome)
      requires Sound(state.rows)
      modifies this
      ensures var d := Drive(executors, old(Now()), oracle, 0, []); r == d.outcome && Now() == d.world
    {
      ghost var driven := Drive(executors, Now(), oracle, 0, []);
      ghost var rows := state.rows;
      var retryCount := 0;
      var stateChanges := [];
      var i := 0;
      assert executors[0..] == executors;
      while i < |executors|
        invariant i <= |executors| && retryCount <= RETRY_COUNT_MAX && state.rows == rows
        invariant driven == Drive(executors[i..], Now(), oracle, retryCount, stateChanges)
        decreases |executors| - i, RETRY_COUNT_MAX - retryCount
      {
        if retryCount >= RETRY_COUNT_MAX {
          return Err(MaximumRetryCount);
        }
        assert executors[i..][1..] == executors[i + 1..];
        var outcome := Execute(executors[i]);
        match outcome {
          case Ok(more) =>
            stateChanges := stateChanges + more;
            i := i + 1;
          case Err(Timeout) => retryCount := retryCount + 1;
          case Err(error) => return Err(error);
        }
      }
      r := Ok(stateChanges);
    }

    method ApplyChanges(stateChanges: seq<StateModification>) returns (r: Result<(), StateError>)
      requires AppliesSafely(state.rows, stateChanges)
      modifies state
      ensures (r, state.rows) == ApplyAll(old(state.rows), stateChanges)
    {
      ghost var applied := ApplyAll(state.rows, stateChanges);
      var k := 0;
      assert stateChanges[0..] == stateChanges;
      while k < |stateChanges|
        invariant k <= |stateChanges|
        invariant AppliesSafely(state.rows, stateChanges[k..])
        invariant ApplyAll(state.rows, stateChanges[k..]) == applied
      {
        assert stateChanges[k..][1..] == stateChanges[k + 1..];
        var changed := state.Change(stateChanges[k]);
        if changed.Err? {
          return changed;
        }
        k := k + 1;
      }
      r := Ok(());
    }

    /**
     One event, as the runner hands it over. The executors acting on the server are
     left open, so for a disk event their changes are required to find a forest to work on.
     */
    method Operate(event: Event) returns (r: Result<(), OperatorError>)
      requires Sound(state.rows)
      requires event.Local? ==> LocalChangesApply(Now(), event, oracle)
      modifies this, state
      ensures (r, Now()) == OperateOn(old(Now()), event, oracle)
    {
      if event in ignoreEvents {
        ignoreEvents := WithoutEvent(ignoreEvents, event);
        return Ok(());
      }
      var attachment := IsAttachment(state.rows, disk, event, oracle(clock));
      clock := clock + 1;
      if attachment.None? {
        return Err(ClientFailed);
      }
      if attachment.value {
        return Ok(());
      }
      HandleApplies(Now(), event, oracle);
      var outcome := RunExecutors(ExecutorsOf(Qualify(state.rows, event)));
      if outcome.Err? {
        return Err(ExecutorFailed(outcome.error));
      }
      var applied := ApplyChanges(outcome.value);
      r := if applied.Ok? then Ok(()) else Err(StateFailed(applied.error));
    }
  }

  lemma OwnParentLoops(rows: Rows, id: ContentId)
    requires Sound(rows)
    ensures id in rows ==> rows[id].parent != Some(id)
  {
    var t := TreeOfRows(rows);
    if id in t && t[id].parent == Some(id) {
      DepthStep(t, id);
    }
  }

  lemma SoundStops(rows: Rows, id: ContentId)
    requires Sound(rows)
    ensures Stops(TreeOfRows(rows), id)
  {
    if id !in rows {
      assert Ends(TreeOfRows(rows), id, 0);
    } else {
      assert id in TreeOfRows(rows);
    }
  }

  ghost predicate LocalChangesApply(w: World, event: Event, oracle: Oracle) {
    var d := Drive(ExecutorsOf(event), w.(clock := w.clock + 1), oracle, 0, []);
    d.outcome.Ok? ==> AppliesSafely(d.world.rows, d.outcome.value)
  }

  lemma HandleApplies(w: World, event: Event, oracle: Oracle)
    requires Sound(w.rows)
    requires event.Local? ==>
               var d := Drive(ExecutorsOf(event), w, oracle, 0, []);
               d.outcome.Ok? ==> AppliesSafely(d.world.rows, d.outcome.value)
    ensures var d := Drive(ExecutorsOf(Qualify(w.rows, event)), w, oracle, 0, []);
            d.outcome.Ok? ==> AppliesSafely(d.world.rows, d.outcome.value)
  {
    if event.Remote? {
      RemoteDrive(w, event, oracle);
      var d := Drive(ExecutorsOf(Qualify(w.rows, event)), w, oracle, 0, []);
      if d.outcome.Ok? {
        OneChangeApplies(w.rows, d.outcome.value);
      }
    }
  }
}
