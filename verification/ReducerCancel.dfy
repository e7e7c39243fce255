/**
 Queues whose head is cancelled. A created file that is deleted again leaves no trace,
 but the next head is handed out before the events skipped meanwhile.
 */
module ReducerCancel {
  import opened Wrappers
  import opened Forest
  import opened Reducer
  import opened ReducerMeaning
  import opened ReducerPlaces

  // ---- The events overtaken, and the queue from the last head on

  /** The events skipped before the head is cancelled. */
  ghost function SkippedBefore(head: DiskEvent, rest: seq<DiskEvent>): seq<DiskEvent>
    requires !Uncancelled(head, rest)
    decreases |rest|
  {
    match React(head, rest[0])
    case Keep => [rest[0]] + SkippedBefore(head, rest[1..])
    case Becomes(event) => SkippedBefore(event, rest[1..])
    case Cancel => []
  }

  /** The events after the one that cancels the head. */
  ghost function AfterCancel(head: DiskEvent, rest: seq<DiskEvent>): (after: seq<DiskEvent>)
    requires !Uncancelled(head, rest)
    ensures |after| < |rest|
    decreases |rest|
  {
    match React(head, rest[0])
    case Keep => AfterCancel(head, rest[1..])
    case Becomes(event) => AfterCancel(event, rest[1..])
    case Cancel => rest[1..]
  }

  /** The events that the last head overtakes. */
  ghost function Overtaken(queue: seq<DiskEvent>): seq<DiskEvent>
    decreases |queue|
  {
    if queue == [] || Uncancelled(queue[0], queue[1..]) then []
    else SkippedBefore(queue[0], queue[1..]) + Overtaken(AfterCancel(queue[0], queue[1..]))
  }

  /** The queue from the last head on; nothing when the last event cancels a head. */
  ghost function LastRun(queue: seq<DiskEvent>): (tail: seq<DiskEvent>)
    ensures tail != [] ==> Uncancelled(tail[0], tail[1..])
    decreases |queue|
  {
    if queue == [] || Uncancelled(queue[0], queue[1..]) then queue
    else LastRun(AfterCancel(queue[0], queue[1..]))
  }

  lemma {:induction false} ScanCancelled(head: DiskEventWrap, rest: seq<DiskEvent>, kept: seq<DiskEvent>)
    requires !Uncancelled(head.event, rest)
    ensures var after, now := AfterCancel(head.event, rest), kept + SkippedBefore(head.event, rest);
            Scan(head, rest, kept) == if after == [] then (None, now) else Scan(Wrap(after[0]), after[1..], now)
    decreases |rest|
  {
    match React(head.event, rest[0])
    case Keep =>
      ScanCancelled(head, rest[1..], kept + [rest[0]]);
      assert kept + [rest[0]] + SkippedBefore(head.event, rest[1..]) ==
             kept + ([rest[0]] + SkippedBefore(head.event, rest[1..]));
    case Becomes(event) => ScanCancelled(DiskEventWrap(head.stored, event), rest[1..], kept);
    case Cancel =>
      assert kept + [] == kept;
      assert |rest| > 1 ==> rest[1..][0] == rest[1] && rest[1..][1..] == rest[2..];
  }

  lemma {:induction false} ScanToLastRun(queue: seq<DiskEvent>, kept: seq<DiskEvent>)
    requires queue != []
    ensures var tail, now := LastRun(queue), kept + Overtaken(queue);
            Scan(Wrap(queue[0]), queue[1..], kept) ==
            if tail == [] then (None, now)
            else (Some(DiskEventWrap(Source(tail[0]), Final(tail[0], tail[1..]))), now + LeftOver(tail[0], tail[1..]))
    decreases |queue|
  {
    var head, rest := queue[0], queue[1..];
    if Uncancelled(head, rest) {
      ScanUncancelled(Wrap(head), rest, kept);
      assert kept + [] == kept;
    } else {
      ScanCancelled(Wrap(head), rest, kept);
      var after, now := AfterCancel(head, rest), kept + SkippedBefore(head, rest);
      assert now + Overtaken(after) == kept + (SkippedBefore(head, rest) + Overtaken(after));
      if after == [] {
        assert now + [] == now;
      } else {
        ScanToLastRun(after, now);
      }
    }
  }

  /** What the reducer hands out for any queue, and what it leaves. */
  lemma ReduceAny(queue: seq<DiskEvent>)
    requires queue != []
    ensures var tail := LastRun(queue);
            Reduce(queue) ==
            if tail == [] then (None, Overtaken(queue))
            else (Some(DiskEventWrap(Source(tail[0]), Final(tail[0], tail[1..]))),
                  Overtaken(queue) + LeftOver(tail[0], tail[1..]))
  {
    ScanToLastRun(queue, []);
    assert [] + Overtaken(queue) == Overtaken(queue);
  }

  // ---- A cancelled file leaves no trace

  /** Every event skipped before a cancellation is away from the place of the file to be cancelled. */
  ghost predicate SkipsAway(head: DiskEvent, rest: seq<DiskEvent>)
    requires !Uncancelled(head, rest)
    decreases |rest|
  {
    match React(head, rest[0])
    case Keep => EventApart(rest[0], Current(head)) && SkipsAway(head, rest[1..])
    case Becomes(event) => SkipsAway(event, rest[1..])
    case Cancel => true
  }

  ghost predicate CleanCancels(queue: seq<DiskEvent>)
    decreases |queue|
  {
    queue == [] || Uncancelled(queue[0], queue[1..]) ||
    (SkipsAway(queue[0], queue[1..]) && CleanCancels(AfterCancel(queue[0], queue[1..])))
  }

  lemma {:induction false} OnlyCreationsCancel(head: DiskEvent, rest: seq<DiskEvent>)
    requires !Uncancelled(head, rest)
    ensures head.Created?
    decreases |rest|
  {
    match React(head, rest[0])
    case Keep => OnlyCreationsCancel(head, rest[1..]);
    case Becomes(event) => OnlyCreationsCancel(event, rest[1..]);
    case Cancel =>
  }

  /** An event away from an extra file does not see it. */
  lemma ExtraUnseen(e: DiskEvent, m: Places, t: Path, mark: bool)
    requires EventApart(e, t) && FreeAt(m, t)
    ensures Fits(e, m[t := mark]) <==> Fits(e, m)
    ensures Act(e, m[t := mark]) == Act(e, m)[t := mark] && FreeAt(Act(e, m), t)
  {
    hide Act, Fits;
    var n := m[t := mark];
    forall q | Concerns(e, q) ensures SameAt(n, m, q) && q != t {
    }
    FitsLocally(e, n, m);
    var now, expected := Act(e, n), Act(e, m)[t := mark];
    forall q ensures SameAt(now, expected, q) {
      if Concerns(e, q) {
        ActLocally(e, n, m, q);
      } else {
        ActElsewhere(e, n, q);
        ActElsewhere(e, m, q);
      }
    }
    EqualPlaces(now, expected);
    forall q | q in Act(e, m) ensures !(t <= q) {
      if t <= q {
        ActElsewhere(e, m, q);
      }
    }
  }

  lemma ExtraFollowed(m: Places, t: Path, mark: bool, u: Path)
    requires FreeAt(m, t) && Fits(DiskEvent.Renamed(t, u), m[t := mark])
    ensures Act(DiskEvent.Renamed(t, u), m[t := mark]) == m[u := mark] && FreeAt(m, u)
  {
    var before, now, expected := m[t := mark], Act(DiskEvent.Renamed(t, u), m[t := mark]), m[u := mark];
    assert t[|t|..] == [] && u[|u|..] == [] && u + [] == u && t + [] == t;
    forall q ensures SameAt(now, expected, q) {
      if u <= q && t + q[|u|..] in before {
        assert t <= t + q[|u|..];
        assert t + q[|u|..] == t;
        assert |q| == |u| && q == u;
      }
    }
    EqualPlaces(now, expected);
    forall q | q in m ensures !(u <= q) {
      assert q in before;
    }
  }

  /** Up to the cancellation, the raw events do what the skipped ones do without the file. */
  lemma {:induction false} CancelRuns(head: DiskEvent, rest: seq<DiskEvent>, m: Places, mark: bool)
    requires !Uncancelled(head, rest) && SkipsAway(head, rest)
    requires FreeAt(m, Current(head)) && FitAll(rest, m[Current(head) := mark])
    ensures var skipped, after := SkippedBefore(head, rest), AfterCancel(head, rest);
            && FitAll(skipped, m) && FitAll(after, ActAll(skipped, m))
            && ActAll(rest, m[Current(head) := mark]) == ActAll(after, ActAll(skipped, m))
    decreases |rest|
  {
    hide Fits, Act;
    OnlyCreationsCancel(head, rest);
    var e, t := rest[0], Current(head);
    match React(head, e)
    case Keep =>
      ExtraUnseen(e, m, t, mark);
      CancelRuns(head, rest[1..], Act(e, m), mark);
      assert SkippedBefore(head, rest)[1..] == SkippedBefore(head, rest[1..]);
    case Becomes(event) =>
      if e.Renamed? {
        ExtraFollowed(m, t, mark, e.after);
        CancelRuns(event, rest[1..], m, mark);
      } else {
        ExtraTouched(m, t, mark);
        CancelRuns(event, rest[1..], m, true);
      }
    case Cancel => ExtraGone(m, t, mark);
  }

  lemma ExtraTouched(m: Places, t: Path, mark: bool)
    ensures Act(DiskEvent.Modified(t), m[t := mark]) == m[t := true]
  {
  }

  lemma ExtraGone(m: Places, t: Path, mark: bool)
    requires FreeAt(m, t)
    ensures Act(DiskEvent.Deleted(t), m[t := mark]) == m
  {
  }

  /** The whole queue does what the overtaken events followed by the last run do. */
  lemma {:induction false} CancelledLeaveNoTrace(queue: seq<DiskEvent>, m: Places)
    requires CleanCancels(queue) && FitAll(queue, m)
    ensures FitAll(Overtaken(queue), m) && FitAll(LastRun(queue), ActAll(Overtaken(queue), m))
    ensures ActAll(queue, m) == ActAll(LastRun(queue), ActAll(Overtaken(queue), m))
    decreases |queue|
  {
    if queue != [] && !Uncancelled(queue[0], queue[1..]) {
      var head, rest := queue[0], queue[1..];
      OnlyCreationsCancel(head, rest);
      CancelRuns(head, rest, m, true);
      var skipped, after := SkippedBefore(head, rest), AfterCancel(head, rest);
      CancelledLeaveNoTrace(after, ActAll(skipped, m));
      ActChain(skipped, Overtaken(after), m);
      FitChain(skipped, Overtaken(after), m);
    }
  }

  // ---- When the last head may overtake

  /** No event concerns the place `p` or anything related to it. */
  ghost predicate AllApart(events: seq<DiskEvent>, p: Path) {
    forall e :: e in events ==> EventApart(e, p)
  }

  /** The first event about `p`, if any, is one that puts a file there. */
  ghost predicate ArrivesFirst(events: seq<DiskEvent>, p: Path)
    decreases |events|
  {
    events != [] &&
    if !events[0].Created? && Source(events[0]) == p then false
    else Current(events[0]) == p || ArrivesFirst(events[1..], p)
  }

  /**
   Whether a file starting at `x` may be handed out as `final` before the skipped
   events: they must not concern the places its calls need, or, when it ends where it
   started, must not be the ones that brought it there.
   */
  ghost predicate MayOvertake(skipped: seq<DiskEvent>, x: Path, final: DiskEvent) {
    var f := Current(final);
    match final
    case Deleted(_) => AllApart(skipped, x)
    case Created(_) => AllApart(skipped, f)
    case Modified(_) => if f == x then !ArrivesFirst(skipped, x) else AllApart(skipped, x) && AllApart(skipped, f)
    case Renamed(_, _) => f == x || (AllApart(skipped, x) && AllApart(skipped, f))
  }

  /** The condition on a whole queue. */
  ghost predicate Reducible(queue: seq<DiskEvent>) {
    var tail := LastRun(queue);
    tail == [] ||
    (UndisturbedQueue(tail) && MayOvertake(Overtaken(queue), Source(tail[0]), Final(tail[0], tail[1..])))
  }

  /** The stronger condition under which nothing at all depends on the order. */
  ghost predicate StaysAway(queue: seq<DiskEvent>) {
    var tail := LastRun(queue);
    tail == [] ||
    var final := Final(tail[0], tail[1..]);
    && UndisturbedQueue(tail)
    && AllApart(Overtaken(queue), Source(tail[0]))
    && (final.Deleted? || AllApart(Overtaken(queue), Current(final)))
  }

  ghost function StepsOf(tail: seq<DiskEvent>): seq<DiskEvent>
    requires tail != [] && Uncancelled(tail[0], tail[1..])
  {
    Steps(DiskEventWrap(Source(tail[0]), Final(tail[0], tail[1..])))
  }

  /** Calls at places that the skipped events leave alone can be made before them. */
  lemma {:induction false} CallsOvertake(steps: seq<DiskEvent>, skipped: seq<DiskEvent>, m: Places)
    requires forall c :: c in steps ==> AllAway(skipped, c)
    ensures FitAll(steps, ActAll(skipped, m)) <==> FitAll(steps, m)
    ensures FitAll(skipped, ActAll(steps, m)) <==> FitAll(skipped, m)
    ensures ActAll(skipped, ActAll(steps, m)) == ActAll(steps, ActAll(skipped, m))
    decreases |steps|
  {
    hide Fits, Act;
    if steps != [] {
      assert steps[0] in steps;
      CommuteSeries(skipped, steps[0], m);
      CallsOvertake(steps[1..], skipped, Act(steps[0], m));
    }
  }

  /** The mirror of the tail: what the overtaken events make of it. */
  lemma TailFits(queue: seq<DiskEvent>, s: Mirror)
    requires WellFormed(s) && RunReady(queue, s) && CleanCancels(queue)
    ensures RunReady(Overtaken(queue), s)
    ensures var mid := Run(Overtaken(queue), s);
            && WellFormed(mid) && View(mid) == ActAll(Overtaken(queue), View(s)) && RunReady(LastRun(queue), mid)
            && View(Run(queue, s)) == View(Run(LastRun(queue), mid))
  {
    hide View, WellFormed;
    RunShown(queue, s);
    CancelledLeaveNoTrace(queue, View(s));
    RunShown(Overtaken(queue), s);
    RunShown(LastRun(queue), Run(Overtaken(queue), s));
  }

  /** The reduced queue, by what it shows. */
  lemma ReducedShown(queue: seq<DiskEvent>, s: Mirror)
    requires queue != [] && WellFormed(s)
    ensures var tail, skipped := LastRun(queue), Overtaken(queue);
            if tail == [] then
              && (ReducedReady(queue, s) <==> FitAll(skipped, View(s)))
              && (ReducedReady(queue, s) ==> View(RunReduced(queue, s)) == ActAll(skipped, View(s)))
            else
              var steps, left := StepsOf(tail), LeftOver(tail[0], tail[1..]);
              var called := ActAll(steps, View(s));
              && (ReducedReady(queue, s) <==>
                    FitAll(steps, View(s)) && FitAll(skipped, called) && FitAll(left, ActAll(skipped, called)))
              && (ReducedReady(queue, s) ==> View(RunReduced(queue, s)) == ActAll(left, ActAll(skipped, called)))
  {
    hide View, WellFormed, Reduce, LeftOver, Overtaken, LastRun, Steps;
    ReduceAny(queue);
    var tail, skipped := LastRun(queue), Overtaken(queue);
    if tail == [] {
      RunShown(skipped, s);
    } else {
      var steps, left := StepsOf(tail), LeftOver(tail[0], tail[1..]);
      RunShown(steps, s);
      if RunReady(steps, s) {
        RunShown(skipped + left, Run(steps, s));
        ActChain(skipped, left, View(Run(steps, s)));
        FitChain(skipped, left, View(Run(steps, s)));
      }
    }
  }

  /** The uncancelled tail on its own. */
  lemma TailShown(tail: seq<DiskEvent>, mid: Mirror)
    requires tail != [] && Uncancelled(tail[0], tail[1..]) && WellFormed(mid)
    ensures var steps, left := StepsOf(tail), LeftOver(tail[0], tail[1..]);
            var called := ActAll(steps, View(mid));
            && (ReducedReady(tail, mid) <==> FitAll(steps, View(mid)) && FitAll(left, called))
            && (ReducedReady(tail, mid) ==> View(RunReduced(tail, mid)) == ActAll(left, called))
  {
    ReducedShown(tail, mid);
    assert ActAll([], ActAll(StepsOf(tail), View(mid))) == ActAll(StepsOf(tail), View(mid));
  }

  // ---- Meaning

  lemma StepsAway(skipped: seq<DiskEvent>, x: Path, final: DiskEvent)
    requires final.Created? || AllApart(skipped, x)
    requires final.Deleted? || AllApart(skipped, Current(final))
    ensures forall c :: c in Steps(DiskEventWrap(x, final)) ==> AllAway(skipped, c)
  {
    hide EventApart;
  }

  /**
   With cancelled heads too, reducing keeps the meaning of the queue: the cancelled
   files leave no trace, and when the overtaken events are away from the last head's
   file, the calls fit and the same paths hold files; uploads agree as well unless the
   last head loses one.
   */
  lemma {:induction false} CancellingKeepsMeaning(queue: seq<DiskEvent>, s: Mirror)
    requires queue != [] && WellFormed(s) && RunReady(queue, s)
    requires CleanCancels(queue) && StaysAway(queue)
    ensures ReducedReady(queue, s)
    ensures var tail, raw, reduced := LastRun(queue), View(Run(queue, s)), View(RunReduced(queue, s));
            && reduced.Keys == raw.Keys
            && (tail == [] || !LosesUpload(tail[0], tail[1..]) ==> reduced == raw)
  {
    hide View, WellFormed, Undisturbed, LeftOver, Overtaken, LastRun, Steps, AllApart, LosesUpload, RunReady, Run;
    var tail, skipped := LastRun(queue), Overtaken(queue);
    TailFits(queue, s);
    ReducedShown(queue, s);
    RunShown(skipped, s);
    if tail != [] {
      var mid := Run(skipped, s);
      ReducingKeepsMeaning(tail, mid);
      TailShown(tail, mid);
      HeadReady(tail, mid);
      StepsAway(skipped, Source(tail[0]), Final(tail[0], tail[1..]));
      CallsOvertake(StepsOf(tail), skipped, View(s));
      SameMeaningShown(tail, mid);
    } else {
      EmptyRun(Run(skipped, s));
    }
  }

  lemma HeadReady(events: seq<DiskEvent>, s: Mirror)
    requires events != [] && RunReady(events, s)
    ensures Ready(events[0], s)
  {
  }

  lemma EmptyRun(s: Mirror)
    ensures Run([], s) == s
  {
  }

  lemma SameMeaningShown(tail: seq<DiskEvent>, mid: Mirror)
    requires tail != [] && Uncancelled(tail[0], tail[1..]) && Ready(tail[0], mid) && SameMeaning(tail, mid)
    ensures View(RunReduced(tail, mid)).Keys == View(Run(tail, mid)).Keys
    ensures !LosesUpload(tail[0], tail[1..]) ==> View(RunReduced(tail, mid)) == View(Run(tail, mid))
  {
    hide Run, RunReduced;
    var raw, reduced := Run(tail, mid), RunReduced(tail, mid);
    if LosesUpload(tail[0], tail[1..]) {
      forall p ensures p in View(reduced) <==> p in View(raw) {
        assert forall id :: id in raw.files <==> id in reduced.files;
      }
    }
  }

  // ---- The condition on readiness is exact

  /** A call fills a place that was free, or empties one that was taken. */
  lemma CallShows(c: DiskEvent, m: Places)
    requires Fits(c, m) && !c.Modified?
    ensures c.Deleted? || c.Renamed? ==> Source(c) in m && Source(c) !in Act(c, m)
    ensures c.Created? || c.Renamed? ==> FreeAt(m, Current(c)) && Current(c) in Act(c, m)
  {
    if c.Renamed? {
      var b, a := c.before, c.after;
      assert b[|b|..] == [] && a + [] == a && a[|a|..] == [] && b + [] == b;
      assert a + b[|b|..] == a && b + a[|a|..] == b;
    }
  }

  lemma TouchFails(e: DiskEvent, c: DiskEvent, m: Places, paths: set<Path>)
    requires Fits(c, m) && Fits(e, m) && Fits(e, Act(c, m)) && !c.Modified?
    requires Flat(paths) && Within(e, paths) && Within(c, paths)
    ensures AwayFrom(e, c)
  {
    hide Act;
    CallShows(c, m);
    assert Source(e) != Source(c) && Source(e) != Current(c);
    assert Current(e) != Source(c) && Current(e) != Current(c);
  }

  /** Events that fit both before and after a call at places they could see are away from it. */
  lemma {:induction false} MustBeAway(events: seq<DiskEvent>, c: DiskEvent, m: Places, paths: set<Path>)
    requires Fits(c, m) && FitAll(events, m) && FitAll(events, Act(c, m)) && !c.Modified?
    requires Flat(paths) && AllWithin(events, paths) && Within(c, paths)
    ensures AllAway(events, c)
    decreases |events|
  {
    hide Fits, Act, Within, Flat, AwayFrom;
    if events != [] {
      var e := events[0];
      TouchFails(e, c, m, paths);
      Commute(e, c, m);
      MustBeAway(events[1..], c, Act(e, m), paths);
      assert forall x :: x in events ==> x == e || x in events[1..];
    }
  }

  lemma {:induction false} FirstArrival(events: seq<DiskEvent>, x: Path, m: Places, paths: set<Path>)
    requires FitAll(events, m) && x in ActAll(events, m)
    requires Flat(paths) && AllWithin(events, paths) && x in paths
    ensures x in m <==> !ArrivesFirst(events, x)
    decreases |events|
  {
    if events != [] {
      var e := events[0];
      if Source(e) != x && Current(e) != x {
        assert Apart(Source(e), x) && Apart(Current(e), x);
        ActElsewhere(e, m, x);
        FirstArrival(events[1..], x, Act(e, m), paths);
      } else {
        assert x <= x;
      }
    }
  }

  lemma {:induction false} SkippedWithin(head: DiskEvent, rest: seq<DiskEvent>, paths: set<Path>)
    requires !Uncancelled(head, rest) && AllWithin(rest, paths)
    ensures AllWithin(SkippedBefore(head, rest), paths) && AllWithin(AfterCancel(head, rest), paths)
    decreases |rest|
  {
    match React(head, rest[0])
    case Keep =>
      SkippedWithin(head, rest[1..], paths);
      assert SkippedBefore(head, rest)[1..] == SkippedBefore(head, rest[1..]);
    case Becomes(event) => SkippedWithin(event, rest[1..], paths);
    case Cancel =>
  }

  lemma {:induction false} WithinSum(a: seq<DiskEvent>, b: seq<DiskEvent>, paths: set<Path>)
    requires AllWithin(a, paths) && AllWithin(b, paths)
    ensures AllWithin(a + b, paths)
    decreases |a|
  {
    if a == [] {
      assert a + b == b;
    } else {
      WithinSum(a[1..], b, paths);
      assert (a + b)[1..] == a[1..] + b;
    }
  }

  lemma {:induction false} OvertakenWithin(queue: seq<DiskEvent>, paths: set<Path>)
    requires AllWithin(queue, paths)
    ensures AllWithin(Overtaken(queue), paths) && AllWithin(LastRun(queue), paths)
    decreases |queue|
  {
    if queue != [] && !Uncancelled(queue[0], queue[1..]) {
      var after := AfterCancel(queue[0], queue[1..]);
      SkippedWithin(queue[0], queue[1..], paths);
      OvertakenWithin(after, paths);
      WithinSum(SkippedBefore(queue[0], queue[1..]), Overtaken(after), paths);
    }
  }

  /** Without folders and their insides in one queue, a skipped event is away from the cancelled file. */
  lemma {:induction false} FlatSkipsAway(head: DiskEvent, rest: seq<DiskEvent>, m: Places, paths: set<Path>)
    requires !Uncancelled(head, rest) && FitAll(rest, m) && Current(head) in m
    requires Flat(paths) && AllWithin(rest, paths) && Current(head) in paths
    ensures SkipsAway(head, rest)
    decreases |rest|
  {
    OnlyCreationsCancel(head, rest);
    var e, t := rest[0], Current(head);
    assert t <= t;
    match React(head, e)
    case Keep =>
      assert Source(e) != t && Current(e) != t;
      assert EventApart(e, t);
      ActElsewhere(e, m, t);
      FlatSkipsAway(head, rest[1..], Act(e, m), paths);
    case Becomes(event) =>
      if e.Renamed? {
        CallShows(e, m);
      }
      FlatSkipsAway(event, rest[1..], Act(e, m), paths);
    case Cancel =>
  }

  lemma {:induction false} FlatIsClean(queue: seq<DiskEvent>, m: Places, paths: set<Path>)
    requires FitAll(queue, m) && Flat(paths) && AllWithin(queue, paths)
    ensures CleanCancels(queue)
    decreases |queue|
  {
    if queue != [] && !Uncancelled(queue[0], queue[1..]) {
      var head, rest := queue[0], queue[1..];
      OnlyCreationsCancel(head, rest);
      FlatSkipsAway(head, rest, Act(head, m), paths);
      CancelRuns(head, rest, m, true);
      SkippedWithin(head, rest, paths);
      FlatIsClean(AfterCancel(head, rest), ActAll(SkippedBefore(head, rest), m), paths);
    }
  }

  lemma StepsOne(c: DiskEvent, m: Places)
    ensures FitAll([c], m) <==> Fits(c, m)
    ensures ActAll([c], m) == Act(c, m)
  {
    assert [c][1..] == [];
  }

  lemma AwayIsApart(events: seq<DiskEvent>, c: DiskEvent)
    requires AllAway(events, c)
    ensures AllApart(events, Source(c)) && AllApart(events, Current(c))
  {
    assert forall e :: e in events ==> AwayFrom(e, c);
  }

  /** The file ends where it started, so that its calls move nothing. */
  ghost predicate StaysPut(x: Path, final: DiskEvent) {
    (final.Modified? || final.Renamed?) && Current(final) == x
  }

  /** When the calls move something, events that fit after them must be away from them. */
  lemma CallsNeedRoom(skipped: seq<DiskEvent>, x: Path, final: DiskEvent, m: Places, paths: set<Path>)
    requires !StaysPut(x, final) && Flat(paths) && AllWithin(skipped, paths) && x in paths && Current(final) in paths
    requires var steps := Steps(DiskEventWrap(x, final));
             FitAll(skipped, m) && FitAll(steps, m) && FitAll(skipped, ActAll(steps, m))
    ensures MayOvertake(skipped, x, final)
  {
    hide Fits, Act, Flat, AllWithin;
    var f := Current(final);
    match final
    case Deleted(_) =>
      StepsOne(DiskEvent.Deleted(x), m);
      MustBeAway(skipped, DiskEvent.Deleted(x), m, paths);
      AwayIsApart(skipped, DiskEvent.Deleted(x));
    case Created(_) =>
      StepsOne(DiskEvent.Created(f), m);
      MustBeAway(skipped, DiskEvent.Created(f), m, paths);
      AwayIsApart(skipped, DiskEvent.Created(f));
    case Modified(_) =>
      var c, touch := DiskEvent.Renamed(x, f), DiskEvent.Modified(x);
      ActChain([touch], [c], m);
      FitChain([touch], [c], m);
      StepsOne(touch, m);
      StepsOne(c, Act(touch, m));
      TouchKeepsKeys(m, x);
      KeysDecide(c, m, Act(touch, m));
      KeysDecideAll(skipped, Act(c, m), Act(c, Act(touch, m)));
      MustBeAway(skipped, c, m, paths);
      AwayIsApart(skipped, c);
    case Renamed(_, _) =>
      var c := DiskEvent.Renamed(x, f);
      StepsOne(c, m);
      MustBeAway(skipped, c, m, paths);
      AwayIsApart(skipped, c);
  }

  lemma RoomForCalls(skipped: seq<DiskEvent>, x: Path, final: DiskEvent)
    requires !StaysPut(x, final) && MayOvertake(skipped, x, final)
    ensures forall c :: c in Steps(DiskEventWrap(x, final)) ==> AllAway(skipped, c)
  {
    hide EventApart;
  }

  /** Calls that move nothing fit before the skipped events if the file to be touched was there. */
  lemma PutCalls(skipped: seq<DiskEvent>, left: seq<DiskEvent>, x: Path, final: DiskEvent, m: Places, paths: set<Path>)
    requires StaysPut(x, final) && Flat(paths) && AllWithin(skipped, paths) && x in paths
    requires FitAll(skipped, m) && x in ActAll(skipped, m)
    ensures var steps, mid := Steps(DiskEventWrap(x, final)), ActAll(skipped, m);
            && FitAll(steps, mid) && FitAll(skipped, ActAll(steps, m))
            && (FitAll(steps, m) <==> MayOvertake(skipped, x, final))
            && ActAll(skipped, ActAll(steps, m)).Keys == ActAll(steps, mid).Keys
            && (FitAll(left, ActAll(skipped, ActAll(steps, m))) <==> FitAll(left, ActAll(steps, mid)))
  {
    hide Act, Flat, AllWithin;
    var steps, mid := Steps(DiskEventWrap(x, final)), ActAll(skipped, m);
    FirstArrival(skipped, x, m, paths);
    var touch := DiskEvent.Modified(x);
    if final.Modified? {
      assert [touch] + [] == [touch];
      StepsOne(touch, m);
      StepsOne(touch, mid);
    }
    TouchKeepsKeys(m, x);
    TouchKeepsKeys(mid, x);
    KeysDecideAll(skipped, m, ActAll(steps, m));
    KeysDecideAll(left, ActAll(skipped, ActAll(steps, m)), ActAll(steps, mid));
  }

  /** Whatever the last head becomes, its calls may overtake the skipped events exactly when the condition says so. */
  lemma OvertakingIsExact(
    skipped: seq<DiskEvent>, left: seq<DiskEvent>, x: Path, final: DiskEvent, m: Places, paths: set<Path>
  )
    requires Flat(paths) && AllWithin(skipped, paths) && x in paths && Current(final) in paths
    requires FitAll(skipped, m) && (StaysPut(x, final) ==> x in ActAll(skipped, m))
    ensures var steps, mid := Steps(DiskEventWrap(x, final)), ActAll(skipped, m);
            FitAll(steps, m) && FitAll(skipped, ActAll(steps, m)) && FitAll(left, ActAll(skipped, ActAll(steps, m))) <==>
            MayOvertake(skipped, x, final) && FitAll(steps, mid) && FitAll(left, ActAll(steps, mid))
    ensures var steps, mid := Steps(DiskEventWrap(x, final)), ActAll(skipped, m);
            MayOvertake(skipped, x, final) ==> ActAll(skipped, ActAll(steps, m)).Keys == ActAll(steps, mid).Keys
  {
    hide Flat, AllWithin, Steps, FitAll, ActAll, MayOvertake;
    var steps := Steps(DiskEventWrap(x, final));
    if StaysPut(x, final) {
      PutCalls(skipped, left, x, final, m, paths);
    } else {
      if FitAll(steps, m) && FitAll(skipped, ActAll(steps, m)) {
        CallsNeedRoom(skipped, x, final, m, paths);
      }
      if MayOvertake(skipped, x, final) {
        RoomForCalls(skipped, x, final);
        CallsOvertake(steps, skipped, m);
      }
    }
  }

  /**
   On queues that do not mix a folder with its inside, cancelled heads included, the
   reduced events fit the mirror if and only if the last run is undisturbed and may
   overtake what was skipped before it; and then the same paths hold files in the end.
   */
  lemma {:induction false} ReducibleIsExact(queue: seq<DiskEvent>, s: Mirror, paths: set<Path>)
    requires queue != [] && WellFormed(s) && RunReady(queue, s)
    requires Flat(paths) && AllWithin(queue, paths)
    ensures ReducedReady(queue, s) <==> Reducible(queue)
    ensures ReducedReady(queue, s) ==> View(RunReduced(queue, s)).Keys == View(Run(queue, s)).Keys
  {
    hide View, WellFormed, LeftOver, Overtaken, LastRun, Steps, RunReady, Run, Flat, AllWithin, FitAll, ActAll,
      UndisturbedQueue, MayOvertake, ReducedReady, Fits;
    RunShown(queue, s);
    FlatIsClean(queue, View(s), paths);
    TailFits(queue, s);
    ReducedShown(queue, s);
    OvertakenWithin(queue, paths);
    var tail, skipped, m := LastRun(queue), Overtaken(queue), View(s);
    RunShown(skipped, s);
    if tail != [] {
      var mid := Run(skipped, s);
      var x, final := Source(tail[0]), Final(tail[0], tail[1..]);
      TailShown(tail, mid);
      UndisturbedIsExact(tail, mid, paths);
      HeadThere(tail, mid, paths);
      var steps, left := StepsOf(tail), LeftOver(tail[0], tail[1..]);
      OvertakingIsExact(skipped, left, x, final, m, paths);
      if Reducible(queue) {
        ReducingKeepsMeaning(tail, mid);
        HeadReady(tail, mid);
        SameMeaningShown(tail, mid);
        KeysDecideAll(left, ActAll(skipped, ActAll(steps, m)), ActAll(steps, View(mid)));
      }
    } else {
      EmptyRun(Run(skipped, s));
    }
  }

  lemma HeadThere(tail: seq<DiskEvent>, mid: Mirror, paths: set<Path>)
    requires tail != [] && Uncancelled(tail[0], tail[1..]) && WellFormed(mid) && RunReady(tail, mid) && AllWithin(tail, paths)
    ensures var x, final := Source(tail[0]), Final(tail[0], tail[1..]);
            x in paths && Current(final) in paths && (StaysPut(x, final) ==> x in View(mid))
  {
    KindKept(tail[0], tail[1..]);
    FinalWithin(tail[0], tail[1..], paths);
    ViewShows(mid);
    ShownFits(tail[0], mid, View(mid));
  }

  /** Staying away is more than is needed: a modification may overtake another one of the same file. */
  lemma TouchOvertakesTouch()
    ensures var touch := DiskEvent.Modified(["x"]);
            var queue := [DiskEvent.Created(["a"]), touch, DiskEvent.Deleted(["a"]), touch];
            Reducible(queue) && !StaysAway(queue)
  {
    var touch, rest := DiskEvent.Modified(["x"]), [DiskEvent.Deleted(["a"]), DiskEvent.Modified(["x"])];
    var head := DiskEvent.Created(["a"]);
    var queue := [head, touch] + rest;
    Singletons("a", "x");
    assert queue == [head, touch, DiskEvent.Deleted(["a"]), touch];
    assert queue[1..] == [touch] + rest && ([touch] + rest)[1..] == rest && rest[1..] == [touch];
    assert React(head, touch) == Keep && React(head, rest[0]) == Cancel;
    assert !Uncancelled(head, rest) && SkippedBefore(head, rest) == [] && AfterCancel(head, rest) == [touch];
    assert !Uncancelled(head, queue[1..]) && AfterCancel(head, queue[1..]) == [touch];
    assert SkippedBefore(head, queue[1..]) == [touch] + [] == [touch];
    assert [touch][1..] == [] && Uncancelled(touch, []) && Final(touch, []) == touch;
    assert LastRun([touch]) == [touch] && Overtaken([touch]) == [];
    assert LastRun(queue) == [touch] && Overtaken(queue) == [touch] + [] == [touch];
    assert UndisturbedQueue([touch]) && !ArrivesFirst([touch], ["x"]);
    assert touch in [touch] && !EventApart(touch, ["x"]);
  }
}
