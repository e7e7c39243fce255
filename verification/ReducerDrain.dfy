/** A condition on the raw queue alone under which draining it keeps its meaning. */
module ReducerDrain {
  import opened Forest
  import opened Reducer
  import opened ReducerQueue
  import opened ReducerMeaning
  import opened ReducerPlaces
  import opened ReducerCancel

  /** Each event, taken as head of those that follow it, is neither cancelled nor disturbed, and loses no upload. */
  ghost predicate EachUndisturbed(queue: seq<DiskEvent>)
    decreases |queue|
  {
    queue != [] ==> HeadUndisturbed(queue[0], queue[1..]) && EachUndisturbed(queue[1..])
  }

  ghost predicate HeadUndisturbed(head: DiskEvent, rest: seq<DiskEvent>) {
    && Uncancelled(head, rest) && !LosesUpload(head, rest)
    && var final := Final(head, rest);
       OnTheWay(Source(head), final) && OnTheWay(Current(head), final) && Undisturbed(head, rest, final)
  }

  /** The file of the event is deleted by it, or is where it says. */
  ghost predicate FileAt(e: DiskEvent, m: Places) {
    e.Deleted? || Current(e) in m
  }

  /** What is followed for one head is nothing to another head whose file is elsewhere. */
  lemma {:induction false} OtherHeadKept(head: DiskEvent, e: DiskEvent, rest: seq<DiskEvent>, m: Places, paths: set<Path>)
    requires Uncancelled(head, rest) && Uncancelled(e, rest) && FitAll(rest, m)
    requires Flat(paths) && AllWithin(rest, paths) && Within(head, paths) && Within(e, paths)
    requires FileAt(head, m) && FileAt(e, m) && (head.Deleted? || e.Deleted? || Current(head) != Current(e))
    ensures var left := LeftOver(head, rest);
            && Uncancelled(e, left) && Final(e, left) == Final(e, rest)
            && (Steady(e, rest) ==> Steady(e, left))
            && (Undisturbed(e, rest, Final(e, rest)) ==> Undisturbed(e, left, Final(e, rest)))
            && (LosesUpload(e, left) ==> LosesUpload(e, rest))
    decreases |rest|
  {
    if head.Deleted? {
      DeletedIsSteady(head, rest);
      SteadyIsFinal(head, rest);
    } else if e.Deleted? {
      DeletedIsSteady(e, rest);
      SteadyIsFinal(e, rest);
      DeletedIsSteady(e, LeftOver(head, rest));
      SteadyIsFinal(e, LeftOver(head, rest));
      SteadyLosesNothing(e, LeftOver(head, rest));
    } else if rest != [] {
      OtherHeadStep(head, e, rest, m, paths);
    }
  }

  lemma {:induction false} OtherHeadStep(head: DiskEvent, e: DiskEvent, rest: seq<DiskEvent>, m: Places, paths: set<Path>)
    requires rest != [] && !head.Deleted? && !e.Deleted?
    requires Uncancelled(head, rest) && Uncancelled(e, rest) && FitAll(rest, m)
    requires Flat(paths) && AllWithin(rest, paths) && Within(head, paths) && Within(e, paths)
    requires FileAt(head, m) && FileAt(e, m) && Current(head) != Current(e)
    ensures var left := LeftOver(head, rest);
            && Uncancelled(e, left) && Final(e, left) == Final(e, rest)
            && (Steady(e, rest) ==> Steady(e, left))
            && (Undisturbed(e, rest, Final(e, rest)) ==> Undisturbed(e, left, Final(e, rest)))
            && (LosesUpload(e, left) ==> LosesUpload(e, rest))
    decreases |rest|, 0
  {
    hide Act, Flat, EventApart, OnTheWay, Within;
    var x, tail := rest[0], rest[1..];
    var now := Act(x, m);
    StaysElsewhere(x, head, m, paths);
    StaysElsewhere(x, e, m, paths);
    match React(head, x)
    case Keep =>
      var left := LeftOver(head, tail);
      assert LeftOver(head, rest) == [x] + left;
      assert ([x] + left)[1..] == left;
      match React(e, x) {
        case Keep => OtherHeadKept(head, e, tail, now, paths);
        case Becomes(event) =>
          Follows(x, e, m);
          StillWithin(x, e, paths);
          OtherHeadKept(head, event, tail, now, paths);
      }
    case Becomes(event) =>
      Follows(x, head, m);
      StillWithin(x, head, paths);
      assert React(e, x) == Keep;
      OtherHeadKept(event, e, tail, now, paths);
  }

  lemma StillWithin(x: DiskEvent, head: DiskEvent, paths: set<Path>)
    requires Within(x, paths) && Within(head, paths) && React(head, x).Becomes?
    ensures Within(React(head, x).event, paths)
  {
  }

  /** A file that an event is not about stays where it is. */
  lemma StaysElsewhere(x: DiskEvent, head: DiskEvent, m: Places, paths: set<Path>)
    requires Fits(x, m) && Current(head) in m && !head.Deleted?
    requires Flat(paths) && Within(x, paths) && Within(head, paths)
    ensures React(head, x) == Keep ==> Current(head) in Act(x, m)
    ensures x.Created? || x.Renamed? ==> Current(x) != Current(head)
  {
    var t := Current(head);
    assert t <= t;
    if React(head, x) == Keep {
      assert Source(x) != t && Current(x) != t;
      ActElsewhere(x, m, t);
    }
  }

  lemma Follows(x: DiskEvent, head: DiskEvent, m: Places)
    requires Fits(x, m) && React(head, x).Becomes?
    ensures FileAt(React(head, x).event, Act(x, m))
  {
    if x.Renamed? {
      CallShows(x, m);
    }
  }

  /** The queue left behind by one call satisfies the condition as well. */
  lemma {:induction false} EachLeft(head: DiskEvent, rest: seq<DiskEvent>, m: Places, paths: set<Path>)
    requires Uncancelled(head, rest) && EachUndisturbed(rest) && FitAll(rest, m) && FileAt(head, m)
    requires Flat(paths) && AllWithin(rest, paths) && Within(head, paths)
    ensures EachUndisturbed(LeftOver(head, rest)) && AllWithin(LeftOver(head, rest), paths)
    decreases |rest|
  {
    if head.Deleted? {
      DeletedIsSteady(head, rest);
      SteadyIsFinal(head, rest);
    } else if rest != [] {
      var x, tail := rest[0], rest[1..];
      StaysElsewhere(x, head, m, paths);
      match React(head, x)
      case Keep =>
        EachLeft(head, tail, Act(x, m), paths);
        Arrives(x, m);
        OtherHeadKept(head, x, tail, Act(x, m), paths);
        assert LeftOver(head, rest)[1..] == LeftOver(head, tail);
      case Becomes(event) =>
        Follows(x, head, m);
        EachLeft(event, tail, Act(x, m), paths);
    }
  }

  lemma Arrives(x: DiskEvent, m: Places)
    requires Fits(x, m)
    ensures FileAt(x, Act(x, m))
  {
    if !x.Deleted? && !x.Modified? {
      CallShows(x, m);
    }
  }

  lemma {:induction false} EachMeansAlways(queue: seq<DiskEvent>, s: Mirror, paths: set<Path>)
    requires WellFormed(s) && RunReady(queue, s) && EachUndisturbed(queue)
    requires Flat(paths) && AllWithin(queue, paths)
    ensures AlwaysUndisturbed(queue)
    decreases |queue|
  {
    if queue != [] {
      var head, rest := queue[0], queue[1..];
      ReducingKeepsMeaning(queue, s);
      ReduceUncancelled(queue);
      EveryCallShortens(queue);
      var m := View(s);
      RunShown(queue, s);
      Arrives(head, m);
      EachLeft(head, rest, Act(head, m), paths);
      var (event, left) := Reduce(queue);
      ReadyRunWellFormed(Steps(event.value), s);
      EachMeansAlways(left, Run(Steps(event.value), s), paths);
    }
  }

  /**
   Draining a queue brings the mirror exactly where the raw events bring it, whenever
   each event of the raw queue is undisturbed by those that follow it.
   */
  lemma {:induction false} DrainingRawQueue(queue: seq<DiskEvent>, s: Mirror, paths: set<Path>)
    requires WellFormed(s) && RunReady(queue, s) && EachUndisturbed(queue)
    requires Flat(paths) && AllWithin(queue, paths)
    ensures RunHanded(Drain(queue), s) == Run(queue, s)
  {
    EachMeansAlways(queue, s, paths);
    DrainingKeepsMeaning(queue, s);
  }
}
