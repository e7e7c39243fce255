/** What happens to each raw event of a queue, and why the queue always drains. */
module ReducerQueue {
  import opened Wrappers
  import opened Forest
  import opened Reducer

  lemma {:induction false} ScanShortens(head: DiskEventWrap, rest: seq<DiskEvent>, kept: seq<DiskEvent>)
    ensures |Scan(head, rest, kept).1| <= |kept| + |rest|
    decreases |rest|
  {
    if rest != [] {
      match React(head.event, rest[0])
      case Keep => ScanShortens(head, rest[1..], kept + [rest[0]]);
      case Becomes(event) => ScanShortens(DiskEventWrap(head.stored, event), rest[1..], kept);
      case Cancel =>
        if |rest| > 1 {
          ScanShortens(Wrap(rest[1]), rest[2..], kept);
        }
    }
  }

  /** Every call on a non-empty queue shortens it, also when it hands out nothing. */
  lemma EveryCallShortens(queue: seq<DiskEvent>)
    requires queue != []
    ensures |Reduce(queue).1| < |queue|
  {
    ScanShortens(Wrap(queue[0]), queue[1..], []);
  }

  /** Everything repeated calls hand out, until the queue is empty. */
  ghost function Drain(queue: seq<DiskEvent>): (handed: seq<DiskEventWrap>)
    ensures |handed| <= |queue|
    decreases |queue|
  {
    if queue == [] then []
    else
      EveryCallShortens(queue);
      var (event, left) := Reduce(queue);
      (if event.Some? then [event.value] else []) + Drain(left)
  }

  /** The path of the file of event `h`, followed through every rename read before event `i`. */
  ghost function TrackedAt(queue: seq<DiskEvent>, h: nat, i: nat): Path
    requires h < i <= |queue|
    decreases i
  {
    if i == h + 1 then Current(queue[h])
    else
      var p := TrackedAt(queue, h, i - 1);
      if queue[i - 1].Renamed? && queue[i - 1].before == p then queue[i - 1].after else p
  }

  /** The path that the last rename of the file of head `h` read before event `i` took it from. */
  ghost function RenamedFrom(queue: seq<DiskEvent>, h: nat, i: nat): Path
    requires h < i <= |queue|
    decreases i
  {
    if i == h + 1 then Source(queue[h])
    else
      var p := TrackedAt(queue, h, i - 1);
      if queue[i - 1].Renamed? && queue[i - 1].before == p then p else RenamedFrom(queue, h, i - 1)
  }

  /** The event by which the file of head `h`, if not created by it, is deleted before event `i` is read. */
  ghost function Deletion(queue: seq<DiskEvent>, h: nat, i: nat): (d: Option<DiskEvent>)
    requires h < i <= |queue|
    ensures d.Some? ==> d.value.Deleted?
    decreases i
  {
    if queue[h].Deleted? then Some(queue[h])
    else if queue[h].Created? || i == h + 1 then None
    else if Deletion(queue, h, i - 1).Some? then Deletion(queue, h, i - 1)
    else if queue[i - 1] == DiskEvent.Deleted(TrackedAt(queue, h, i - 1)) then Some(queue[i - 1])
    else None
  }

  /** Event `i` concerns the file of head `h`, still present. */
  ghost predicate Touches(queue: seq<DiskEvent>, h: nat, i: nat)
    requires h < i < |queue|
  {
    !queue[i].Created? && Source(queue[i]) == TrackedAt(queue, h, i) && Deletion(queue, h, i) == None
  }

  /** Event `i` deletes the file that head `h` created. */
  ghost predicate Cancels(queue: seq<DiskEvent>, h: nat, i: nat)
    requires h <= i < |queue|
  {
    h < i && queue[h].Created? && queue[i] == DiskEvent.Deleted(TrackedAt(queue, h, i))
  }

  /** The head followed once the first `n` events are read: a cancelled head is replaced by the next event. */
  ghost function HeadAfter(queue: seq<DiskEvent>, n: nat): (h: nat)
    requires 0 < n <= |queue|
    ensures h < n
    decreases n
  {
    if n == 1 then 0
    else
      var h := HeadAfter(queue, n - 1);
      if Cancels(queue, h, n - 2) then n - 1 else h
  }

  /** Event `i` is neither taken as head nor dropped. */
  ghost predicate Skipped(queue: seq<DiskEvent>, i: nat)
    requires i < |queue|
  {
    i > 0 && HeadAfter(queue, i + 1) != i && !Touches(queue, HeadAfter(queue, i), i)
  }

  /** The skipped events among the first `n`, in their order. */
  ghost function SkippedAmong(queue: seq<DiskEvent>, n: nat): seq<DiskEvent>
    requires n <= |queue|
    decreases n
  {
    if n == 0 then []
    else SkippedAmong(queue, n - 1) + if Skipped(queue, n - 1) then [queue[n - 1]] else []
  }

  /** `event` is what the raw event at `h` has become once the first `n` events are read. */
  ghost predicate Evolved(queue: seq<DiskEvent>, h: nat, n: nat, event: DiskEvent)
    requires h < n <= |queue|
  {
    if Deletion(queue, h, n).Some? then event == Deletion(queue, h, n).value
    else
      match queue[h]
      case Created(_) => event == DiskEvent.Created(TrackedAt(queue, h, n))
      case Modified(_) => event == DiskEvent.Modified(TrackedAt(queue, h, n))
      case _ => event == DiskEvent.Renamed(RenamedFrom(queue, h, n), TrackedAt(queue, h, n))
  }

  lemma EvolvedNext(queue: seq<DiskEvent>, h: nat, n: nat, event: DiskEvent)
    requires h < n < |queue| && Evolved(queue, h, n, event)
    ensures match React(event, queue[n])
            case Keep =>
              !Touches(queue, h, n) && Evolved(queue, h, n + 1, event) && !Cancels(queue, h, n)
            case Becomes(e) =>
              Touches(queue, h, n) && Evolved(queue, h, n + 1, e) && !Cancels(queue, h, n)
            case Cancel =>
              Touches(queue, h, n) && Cancels(queue, h, n)
  {
  }

  /** The pass of the reducer, by positions in the raw queue. */
  ghost function ScanAt(queue: seq<DiskEvent>, n: nat, head: DiskEventWrap, kept: seq<DiskEvent>)
    : (Option<DiskEventWrap>, seq<DiskEvent>)
    requires n <= |queue|
    decreases |queue| - n
  {
    if n == |queue| then (Some(head), kept)
    else
      match React(head.event, queue[n])
      case Keep => ScanAt(queue, n + 1, head, kept + [queue[n]])
      case Becomes(event) => ScanAt(queue, n + 1, DiskEventWrap(head.stored, event), kept)
      case Cancel =>
        if n + 1 == |queue| then (None, kept) else ScanAt(queue, n + 2, Wrap(queue[n + 1]), kept)
  }

  lemma {:induction false} ScanIsScanAt(queue: seq<DiskEvent>, n: nat, head: DiskEventWrap, kept: seq<DiskEvent>)
    requires n <= |queue|
    ensures Scan(head, queue[n..], kept) == ScanAt(queue, n, head, kept)
    decreases |queue| - n
  {
    if n < |queue| {
      assert queue[n..][1..] == queue[n + 1..];
      match React(head.event, queue[n])
      case Keep => ScanIsScanAt(queue, n + 1, head, kept + [queue[n]]);
      case Becomes(event) => ScanIsScanAt(queue, n + 1, DiskEventWrap(head.stored, event), kept);
      case Cancel =>
        if n + 1 < |queue| {
          assert queue[n..][2..] == queue[n + 2..];
          ScanIsScanAt(queue, n + 2, Wrap(queue[n + 1]), kept);
        }
    }
  }

  lemma {:induction false} ScanOutcome(queue: seq<DiskEvent>, n: nat, head: DiskEventWrap)
    requires 0 < n <= |queue|
    requires var h := HeadAfter(queue, n);
             head.stored == Source(queue[h]) && Evolved(queue, h, n, head.event) && !Cancels(queue, h, n - 1)
    ensures var r := ScanAt(queue, n, head, SkippedAmong(queue, n));
            var h := HeadAfter(queue, |queue|);
            && r.1 == SkippedAmong(queue, |queue|)
            && if Cancels(queue, h, |queue| - 1) then r.0 == None
               else r.0.Some? && r.0.value.stored == Source(queue[h]) && Evolved(queue, h, |queue|, r.0.value.event)
    decreases |queue| - n
  {
    if n < |queue| {
      EvolvedNext(queue, HeadAfter(queue, n), n, head.event);
      match React(head.event, queue[n])
      case Keep =>
        assert SkippedAmong(queue, n + 1) == SkippedAmong(queue, n) + [queue[n]];
        ScanOutcome(queue, n + 1, head);
      case Becomes(event) =>
        assert SkippedAmong(queue, n + 1) == SkippedAmong(queue, n);
        ScanOutcome(queue, n + 1, DiskEventWrap(head.stored, event));
      case Cancel =>
        assert SkippedAmong(queue, n + 1) == SkippedAmong(queue, n);
        if n + 1 < |queue| {
          assert SkippedAmong(queue, n + 2) == SkippedAmong(queue, n + 1);
          ScanOutcome(queue, n + 2, Wrap(queue[n + 1]));
        }
    }
  }

  /**
   The fate of every raw event. The queue left behind is the selection, in order, of
   the events that neither became head nor touched the file followed when they were
   read; the stored path is the source path of the last raw event taken as head; its
   current path is that event's file followed through every rename. Nothing is handed
   out exactly when the last head is cancelled by the very last event.
   */
  lemma EveryEventAccountedFor(queue: seq<DiskEvent>)
    requires queue != []
    ensures var (event, left) := Reduce(queue);
            var h := HeadAfter(queue, |queue|);
            && left == SkippedAmong(queue, |queue|)
            && (event == None <==> Cancels(queue, h, |queue| - 1))
            && (event.Some? ==> event.value.stored == Source(queue[h]) && Evolved(queue, h, |queue|, event.value.event))
  {
    ScanIsScanAt(queue, 1, Wrap(queue[0]), []);
    assert SkippedAmong(queue, 1) == [];
    ScanOutcome(queue, 1, Wrap(queue[0]));
  }

  /** Nothing can be handed out although an event stays parked in the queue until the next delivery. */
  lemma ParkedEventExists()
    ensures exists queue :: Reduce(queue).0 == None && Reduce(queue).1 != []
  {
    var queue := [DiskEvent.Created(["a"]), DiskEvent.Modified(["b"]), DiskEvent.Deleted(["a"])];
    assert React(queue[0], queue[1]) == Keep by { assert ["a"] != ["b"] by { assert "a"[0] != "b"[0]; } }
    assert queue[1..][1..] == [queue[2]];
    assert [] + [queue[1]] == [queue[1]];
    assert Reduce(queue) == (None, [queue[1]]);
  }
}
