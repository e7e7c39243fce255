/** What the operator guarantees about retries and about the events it planned to ignore. */
module OperatorRuns {
  import opened Wrappers
  import opened Forest
  import opened Contents
  import opened Disk
  import opened DiskState
  import opened Executors
  import opened Operator

  // ---- Bounded retry, read off the answers alone

  /** What the answers of some interactions amount to: all changes asked for are in the order of the answers. */
  datatype Tally = Tally(timeouts: nat, successes: nat, changes: seq<StateModification>)

  ghost function Count(t: Tally, outcome: Outcome): Tally {
    match outcome
    case Ok(more) => Tally(t.timeouts, t.successes + 1, t.changes + more)
    case Err(Timeout) => t.(timeouts := t.timeouts + 1)
    case Err(_) => t
  }

  /** The tally from interaction `from` up to, not including, `to`. */
  ghost function TallyOf(oracle: Oracle, from: nat, to: nat): Tally
    decreases to
  {
    if to <= from then Tally(0, 0, []) else Count(TallyOf(oracle, from, to - 1), oracle(to - 1).serverOutcome)
  }

  ghost predicate OnServer(e: Executor) {
    e.AbsentFromRemote? || e.CreatedOnRemote? || e.ModifiedOnRemote? || e.NamedOnRemote?
  }

  /** No executor pretends that the retries are spent. */
  ghost predicate HonestErrors(oracle: Oracle) {
    forall n: nat :: oracle(n).serverOutcome != Err(MaximumRetryCount)
  }

  /** `d` is explained by the answers alone, for `n` executors in all. */
  ghost predicate ExplainedBy(d: Driven, oracle: Oracle, from: nat, n: nat) {
    var to := d.world.clock;
    var t := TallyOf(oracle, from, to);
    && d.timeouts == t.timeouts
    && from < to
    && match d.outcome
       case Ok(changes) =>
         changes == t.changes && t.successes == n && t.timeouts <= 4 && to == from + n + t.timeouts
       case Err(MaximumRetryCount) => t.timeouts == 5 && oracle(to - 1).serverOutcome == Err(Timeout)
       case Err(error) => t.timeouts <= 4 && oracle(to - 1).serverOutcome == Err(error)
  }

  /** An interaction with the server leaves the database and the disk alone. */
  ghost function Talked(w: World, a: Answers): World {
    w.(ignored := w.ignored + a.serverPlanned, clock := w.clock + 1)
  }

  lemma DriveStep(executors: seq<Executor>, w: World, oracle: Oracle, retries: nat, changes: seq<StateModification>)
    requires executors != [] && OnServer(executors[0]) && retries < RETRY_COUNT_MAX
    ensures Drive(executors, w, oracle, retries, changes) ==
            var next := Talked(w, oracle(w.clock));
            match oracle(w.clock).serverOutcome
            case Ok(more) => Drive(executors[1..], next, oracle, retries, changes + more)
            case Err(Timeout) => Drive(executors, next, oracle, retries + 1, changes)
            case Err(error) => Driven(Err(error), next, retries)
  {
    assert After(w, Attempted(executors[0], w, oracle)) == Talked(w, oracle(w.clock));
  }

  lemma {:induction false} DriveByAnswers(
    executors: seq<Executor>, w: World, oracle: Oracle, retries: nat, changes: seq<StateModification>, from: nat, done: nat
  )
    requires forall e :: e in executors ==> OnServer(e)
    requires retries <= RETRY_COUNT_MAX && HonestErrors(oracle)
    requires from + done + retries == w.clock
    requires TallyOf(oracle, from, w.clock) == Tally(retries, done, changes)
    requires retries == RETRY_COUNT_MAX ==> oracle(w.clock - 1).serverOutcome == Err(Timeout) && executors != []
    requires done + |executors| > 0
    ensures var d := Drive(executors, w, oracle, retries, changes);
            && d.world.rows == w.rows && d.world.disk == w.disk
            && ExplainedBy(d, oracle, from, done + |executors|)
    decreases |executors|, RETRY_COUNT_MAX - retries
  {
    hide Attempted, AttemptOf;
    if executors != [] && retries < RETRY_COUNT_MAX {
      assert OnServer(executors[0]);
      DriveStep(executors, w, oracle, retries, changes);
      var next := Talked(w, oracle(w.clock));
      var outcome := oracle(w.clock).serverOutcome;
      assert TallyOf(oracle, from, next.clock) == Count(Tally(retries, done, changes), outcome);
      match outcome
      case Ok(more) => DriveByAnswers(executors[1..], next, oracle, retries, changes + more, from, done + 1);
      case Err(Timeout) => DriveByAnswers(executors, next, oracle, retries + 1, changes, from, done);
      case Err(error) =>
    }
  }

  /**
   A disk event succeeds with at most four timeouts in all and with every change its
   executors asked for, in order; the maximum is reported after exactly five; any
   other error is the last answer. In no case is the database touched meanwhile.
   */
  lemma {:induction false} RetriesAreBounded(w: World, event: Event, oracle: Oracle)
    requires event.Local? && HonestErrors(oracle)
    ensures var d := Drive(ExecutorsOf(event), w, oracle, 0, []);
            && d.world.rows == w.rows && d.world.disk == w.disk
            && ExplainedBy(d, oracle, w.clock, |ExecutorsOf(event)|)
  {
    assert TallyOf(oracle, w.clock, w.clock) == Tally(0, 0, []);
    DriveByAnswers(ExecutorsOf(event), w, oracle, 0, [], w.clock, 0);
  }

  /** When a change fails, exactly the changes before it stay applied. */
  lemma {:induction false} AppliedUpTo(rows: Rows, changes: seq<StateModification>) returns (k: nat)
    requires ApplyAll(rows, changes).0.Err?
    ensures k < |changes|
    ensures ApplyAll(rows, changes[..k]) == (Ok(()), ApplyAll(rows, changes).1)
    ensures ChangeRows(ApplyAll(rows, changes).1, changes[k]) == Err(ApplyAll(rows, changes).0.error)
    decreases |changes|
  {
    hide ChangeRows;
    match ChangeRows(rows, changes[0])
    case Ok(now) =>
      var j := AppliedUpTo(now, changes[1..]);
      k := j + 1;
      assert changes[..k][1..] == changes[1..][..j];
    case Err(error) => k := 0;
  }

  /**
   The effects are deferred: an executor error, which is the last answer or the spent
   retries, leaves the database as it was; success of all executors applies every change
   in order; and a change that fails leaves those before it applied.
   */
  lemma {:induction false} EffectsAreDeferred(w: World, event: Event, oracle: Oracle)
    requires event.Local? && event !in w.ignored && HonestErrors(oracle)
    ensures var (r, now) := OperateOn(w, event, oracle);
            var t := TallyOf(oracle, w.clock + 1, now.clock);
            && now.disk == w.disk && now.clock > w.clock + 1 && !(r.Err? && r.error.ClientFailed?)
            && (if r.Err? && r.error.ExecutorFailed? then
                  && now.rows == w.rows
                  && oracle(now.clock - 1).serverOutcome.Err?
                  && (if t.timeouts == 5 then r.error.reason == MaximumRetryCount
                      else oracle(now.clock - 1).serverOutcome == Err(r.error.reason))
                else t.successes == |ExecutorsOf(event)|)
            && var applied := ApplyAll(w.rows, t.changes);
               && (r.Ok? ==> applied.0.Ok? && now.rows == applied.1)
               && (r.Err? && r.error.StateFailed? ==> applied.0 == Err(r.error.cause) && now.rows == applied.1)
  {
    hide Drive, ExecutorsOf, TallyOf, ApplyAll;
    RetriesAreBounded(w.(clock := w.clock + 1), event, oracle);
  }

  // ---- Planned ignores

  /** The events that executors acting on the server report as their own, from interaction `from` up to `to`. */
  ghost function ServerPlans(oracle: Oracle, from: nat, to: nat): seq<Event>
    decreases to
  {
    if to <= from then [] else ServerPlans(oracle, from, to - 1) + oracle(to - 1).serverPlanned
  }

  /** The events that the executors report while one event is handled. */
  ghost function Reported(w: World, event: Event, oracle: Oracle): seq<Event> {
    match event
    case Remote(_) =>
      if IsAttachment(w.rows, w.disk, event, oracle(w.clock)) == Some(false)
      then AttemptOf(ExecutorsOf(Qualify(w.rows, event))[0], w.rows, w.disk, oracle(w.clock + 1)).planned
      else []
    case Local(_) => ServerPlans(oracle, w.clock + 1, OperateOn(w, event, oracle).1.clock)
  }

  /** The events owed a skip: an owed event that occurs is skipped and owed no more, any other one adds what is reported meanwhile. */
  ghost function Ledger(owed: set<Event>, w: World, events: seq<Event>, oracle: Oracle): set<Event>
    decreases |events|
  {
    if events == [] then owed
    else
      var e := events[0];
      var next := if e in owed then owed - {e} else owed + (set x | x in Reported(w, e, oracle));
      Ledger(next, OperateOn(w, e, oracle).1, events[1..], oracle)
  }

  /** What a drive on the server adds to the list is what was reported to it. */
  lemma {:induction false} DriveReports(
    executors: seq<Executor>, w: World, oracle: Oracle, retries: nat, changes: seq<StateModification>, from: nat,
    before: seq<Event>
  )
    requires forall e :: e in executors ==> OnServer(e)
    requires retries <= RETRY_COUNT_MAX && from <= w.clock && w.ignored == before + ServerPlans(oracle, from, w.clock)
    ensures var now := Drive(executors, w, oracle, retries, changes).world;
            from <= now.clock && now.ignored == before + ServerPlans(oracle, from, now.clock)
    decreases |executors|, RETRY_COUNT_MAX - retries
  {
    hide Attempted, AttemptOf;
    if executors != [] && retries < RETRY_COUNT_MAX {
      assert OnServer(executors[0]);
      DriveStep(executors, w, oracle, retries, changes);
      var a := oracle(w.clock);
      var next := Talked(w, a);
      assert before + ServerPlans(oracle, from, w.clock) + a.serverPlanned ==
             before + (ServerPlans(oracle, from, w.clock) + a.serverPlanned);
      match a.serverOutcome
      case Ok(more) => DriveReports(executors[1..], next, oracle, retries, changes + more, from, before);
      case Err(Timeout) => DriveReports(executors, next, oracle, retries + 1, changes, from, before);
      case Err(error) =>
    }
  }

  /** An executor on the disk is attempted once. */
  lemma DriveOnDisk(executor: Executor, w: World, oracle: Oracle)
    requires !OnServer(executor)
    ensures Drive([executor], w, oracle, 0, []).world == After(w, Attempted(executor, w, oracle))
  {
    var a := Attempted(executor, w, oracle);
    assert NeverRetried(a.outcome);
    assert [executor][1..] == [];
  }

  lemma HandleIgnores(w: World, event: Event, oracle: Oracle)
    ensures var now, d := Handle(w, event, oracle).1, Drive(ExecutorsOf(Qualify(w.rows, event)), w, oracle, 0, []).world;
            now.ignored == d.ignored && now.clock == d.clock
  {
  }

  /** An event that is not skipped asks the outside something, and adds to the list what the executors report. */
  lemma HandledPlans(w: World, event: Event, oracle: Oracle)
    requires event !in w.ignored
    ensures OperateOn(w, event, oracle).1.clock > w.clock
    ensures OperateOn(w, event, oracle).1.ignored == w.ignored + Reported(w, event, oracle)
  {
    hide Drive, Handle, AttemptOf;
    var asked := w.(clock := w.clock + 1);
    var executors := ExecutorsOf(Qualify(w.rows, event));
    assert w.ignored + [] == w.ignored;
    HandleIgnores(asked, event, oracle);
    if event.Remote? {
      assert executors == [executors[0]];
      DriveOnDisk(executors[0], asked, oracle);
    } else {
      assert ServerPlans(oracle, asked.clock, asked.clock) == [];
      DriveReports(executors, asked, oracle, 0, [], asked.clock, w.ignored);
    }
  }

  /** Over whole runs the plans behave as a set: an event is on the list exactly when it is owed a skip. */
  lemma {:induction false} PlansAreASet(owed: set<Event>, w: World, events: seq<Event>, oracle: Oracle)
    requires forall e :: e in owed <==> e in w.ignored
    ensures forall e :: e in Ledger(owed, w, events, oracle) <==> e in RunEvents(w, events, oracle).ignored
    decreases |events|
  {
    hide OperateOn, Reported;
    if events != [] {
      var e, next := events[0], OperateOn(w, events[0], oracle).1;
      if e in w.ignored {
        SkipDrops(w, e, oracle);
        PlansAreASet(owed - {e}, next, events[1..], oracle);
      } else {
        HandledPlans(w, e, oracle);
        PlansAreASet(owed + (set x | x in Reported(w, e, oracle)), next, events[1..], oracle);
      }
    }
  }

  lemma SkipDrops(w: World, event: Event, oracle: Oracle)
    requires event in w.ignored
    ensures IsSkip(event, w, OperateOn(w, event, oracle))
  {
  }

  /** Nothing happens and nobody is asked, but `e` is no longer planned. */
  ghost predicate IsSkip(e: Event, before: World, operated: (Result<(), OperatorError>, World)) {
    var (r, after) := operated;
    && r == Ok(())
    && after.rows == before.rows && after.disk == before.disk && after.clock == before.clock
    && e !in after.ignored
    && (forall x :: x != e ==> (x in after.ignored <==> x in before.ignored))
  }

  lemma SkippedIfPlanned(w: World, e: Event, oracle: Oracle)
    ensures IsSkip(e, w, OperateOn(w, e, oracle)) <==> e in w.ignored
  {
    hide OperateOn;
    if e in w.ignored {
      SkipDrops(w, e, oracle);
    } else {
      HandledPlans(w, e, oracle);
    }
  }

  /**
   After any run an event is skipped if and only if it is owed a skip. However often it
   was reported, one skip settles it: its next occurrence is handled.
   */
  lemma {:induction false} SkippedIffOwed(e: Event, owed: set<Event>, w: World, events: seq<Event>, oracle: Oracle)
    requires forall x :: x in owed <==> x in w.ignored
    ensures var before := RunEvents(w, events, oracle);
            IsSkip(e, before, OperateOn(before, e, oracle)) <==> e in Ledger(owed, w, events, oracle)
  {
    hide OperateOn, RunEvents, Ledger;
    PlansAreASet(owed, w, events, oracle);
    SkippedIfPlanned(RunEvents(w, events, oracle), e, oracle);
  }

  ghost predicate AllLocal(events: seq<Event>) {
    forall e :: e in events ==> e.Local?
  }

  /** A remote event only plans events of the local disk. */
  lemma RemotePlansLocal(w: World, event: Event, oracle: Oracle)
    requires event.Remote? && Sound(w.rows)
    requires AllLocal(w.ignored)
    ensures AllLocal(OperateOn(w, event, oracle).1.ignored)
  {
    if event !in w.ignored {
      RemoteStepIsOperate(w, event, oracle);
      StepPlans(w, event, oracle);
      HandlePlansLocal(w.(clock := w.clock + 1), event, oracle);
    }
  }

  lemma HandlePlansLocal(w: World, event: Event, oracle: Oracle)
    requires event.Remote?
    requires AllLocal(w.ignored)
    ensures AllLocal(RemoteHandle(w, event, oracle).1.ignored)
  {
    var executor := ExecutorsOf(Qualify(w.rows, event))[0];
    AttemptPlansLocal(executor, w.rows, w.disk, oracle(w.clock));
    FinishPlans(w, Attempted(executor, w, oracle));
  }

  lemma FinishPlans(w: World, a: Attempt)
    ensures Finish(w, a).1.ignored == w.ignored + a.planned
  {
  }

  lemma StepPlans(w: World, event: Event, oracle: Oracle)
    requires event.Remote?
    ensures var asked := w.(clock := w.clock + 1);
            var ignored := RemoteStep(w, event, oracle).1.ignored;
            ignored == w.ignored || ignored == RemoteHandle(asked, event, oracle).1.ignored
  {
    hide RemoteHandle, IsAttachment;
  }

  ghost predicate PlansLocal(a: Attempt) {
    AllLocal(a.planned)
  }

  lemma AttemptPlansLocal(e: Executor, rows: Rows, disk: Disk, a: Answers)
    requires !OnServer(e)
    ensures PlansLocal(AttemptOf(e, rows, disk, a))
  {
    match e
    case AbsentFromDisk(id) =>
    case PresentOnDisk(id) => PresentPlansLocal(rows, disk, id, a);
    case UpdatedOnDisk(id, download) => UpdatedPlansLocal(rows, disk, id, download, a);
  }

  lemma UpdatedPlansLocal(rows: Rows, disk: Disk, id: ContentId, download: bool, a: Answers)
    ensures PlansLocal(UpdatedAttempt(rows, disk, id, download, a))
  {
    hide PathOf, ChildPath, RenameOnDisk, FillFile, GetAsContent;
    forall d: Disk, content: Content, local: Path, remote: Path
      ensures PlansLocal(DownloadAttempt(d, id, download, content, local, remote, a))
    {
    }
  }

  lemma PlacePlansLocal(disk: Disk, content: Content, path: Path, a: Answers)
    ensures PlansLocal(PlaceAttempt(disk, content, path, a))
  {
    PlannedAboveLocal(path, a.cwd);
    assert PlansLocal(FolderAttempt(disk, content, path, a));
    assert PlansLocal(FileAttempt(disk, content, path, a));
  }

  lemma PresentPlansLocal(rows: Rows, disk: Disk, id: ContentId, a: Answers)
    ensures PlansLocal(PresentAttempt(rows, disk, id, a))
  {
    forall content: Content, path: Path ensures PlansLocal(PlaceAttempt(disk, content, path, a)) {
      PlacePlansLocal(disk, content, path, a);
    }
  }

  lemma {:induction false} PlannedAboveLocal(p: Path, cwd: set<Path>)
    ensures AllLocal(PlannedAbove(p, cwd))
    decreases |p|
  {
    if p != [] {
      PlannedAboveLocal(ParentPath(p), cwd);
    }
  }
}
