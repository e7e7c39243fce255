/** Which calls to the server the operator makes for an event handed out by the reducer. */
module OperatorCalls {
  import opened Reducer
  import opened ReducerQueue
  import opened ReducerMeaning
  import opened Executors
  import opened Operator
  import opened OperatorRuns

  /** What the call of an executor does to the files of the server. */
  ghost function CallOf(e: Executor): DiskEvent
    requires OnServer(e)
  {
    match e
    case AbsentFromRemote(dbPath) => DiskEvent.Deleted(dbPath)
    case CreatedOnRemote(diskPath) => DiskEvent.Created(diskPath)
    case ModifiedOnRemote(dbPath) => DiskEvent.Modified(dbPath)
    case NamedOnRemote(dbPath, diskPath) => DiskEvent.Renamed(dbPath, diskPath)
  }

  ghost predicate AllOnServer(executors: seq<Executor>) {
    forall e :: e in executors ==> OnServer(e)
  }

  /** Naming a file as it is named already. */
  ghost predicate Idle(e: DiskEvent) {
    e.Renamed? && e.before == e.after
  }

  /** The calls of the executors, in order, apart from idle ones. */
  ghost function CallsOf(executors: seq<Executor>): seq<DiskEvent>
    requires AllOnServer(executors)
  {
    if executors == [] then []
    else
      assert executors[0] in executors;
      (if Idle(CallOf(executors[0])) then [] else [CallOf(executors[0])]) + CallsOf(executors[1..])
  }

  /**
   The executors for a handed-out event make exactly the calls that the lemmas about the
   meaning of reduced queues are about, in that order.
   */
  lemma ExecutorsMakeTheCalls(w: DiskEventWrap)
    ensures AllOnServer(ExecutorsOf(Local(w))) && CallsOf(ExecutorsOf(Local(w))) == Steps(w)
  {
    var executors := ExecutorsOf(Local(w));
    assert CallsOf(executors[1..]) == if |executors| == 2 then [CallOf(executors[1])] else [] by {
      if |executors| == 2 {
        assert executors[1..][1..] == [];
      }
    }
  }

  ghost function ExecutorsFor(handed: seq<DiskEventWrap>): seq<Executor> {
    if handed == [] then [] else ExecutorsOf(Local(handed[0])) + ExecutorsFor(handed[1..])
  }

  lemma {:induction false} CallsOfBoth(a: seq<Executor>, b: seq<Executor>)
    requires AllOnServer(a) && AllOnServer(b)
    ensures AllOnServer(a + b) && CallsOf(a + b) == CallsOf(a) + CallsOf(b)
    decreases |a|
  {
    if a == [] {
      assert a + b == b;
    } else {
      assert (a + b)[1..] == a[1..] + b;
      CallsOfBoth(a[1..], b);
    }
  }

  /** The calls made for everything handed out bring the server's files where handing out brings the mirror. */
  lemma {:induction false} HandedCalls(handed: seq<DiskEventWrap>, s: Mirror)
    ensures AllOnServer(ExecutorsFor(handed)) && Run(CallsOf(ExecutorsFor(handed)), s) == RunHanded(handed, s)
    decreases |handed|
  {
    if handed != [] {
      ExecutorsMakeTheCalls(handed[0]);
      HandedCalls(handed[1..], Run(Steps(handed[0]), s));
      CallsOfBoth(ExecutorsOf(Local(handed[0])), ExecutorsFor(handed[1..]));
      RunBoth(Steps(handed[0]), CallsOf(ExecutorsFor(handed[1..])), s);
    }
  }

  lemma {:induction false} RunBoth(a: seq<DiskEvent>, b: seq<DiskEvent>, s: Mirror)
    ensures Run(a + b, s) == Run(b, Run(a, s))
    decreases |a|
  {
    if a == [] {
      assert a + b == b;
    } else {
      assert (a + b)[1..] == a[1..] + b;
      RunBoth(a[1..], b, Apply(a[0], s));
    }
  }

  /** The calls for everything that a drained queue hands out bring the server's files where the raw events bring them. */
  lemma DrainedCalls(queue: seq<DiskEvent>, s: Mirror)
    requires WellFormed(s) && RunReady(queue, s) && AlwaysUndisturbed(queue)
    ensures AllOnServer(ExecutorsFor(Drain(queue))) && Run(CallsOf(ExecutorsFor(Drain(queue))), s) == Run(queue, s)
  {
    HandedCalls(Drain(queue), s);
    DrainingKeepsMeaning(queue, s);
  }
}
