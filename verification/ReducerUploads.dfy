/** Exactly when the reducer forgets an upload. */
module ReducerUploads {
  import opened Forest
  import opened Reducer
  import opened ReducerMeaning

  /** No event moves, touches or deletes the file at `f`. */
  ghost predicate LeaveAlone(events: seq<DiskEvent>, f: Path) {
    forall e :: e in events ==> e.Created? || Source(e) != f
  }

  lemma {:induction false} LeftOverAlone(head: DiskEvent, rest: seq<DiskEvent>, paths: set<Path>)
    requires Uncancelled(head, rest) && !Final(head, rest).Deleted? && Undisturbed(head, rest, Final(head, rest))
    requires Flat(paths) && AllWithin(rest, paths)
    ensures LeaveAlone(LeftOver(head, rest), Current(Final(head, rest))) && AllWithin(LeftOver(head, rest), paths)
    decreases |rest|
  {
    if Steady(head, rest) {
      SteadyIsFinal(head, rest);
      SteadyAlone(head, rest);
    } else {
      match React(head, rest[0])
      case Keep =>
        LeftOverAlone(head, rest[1..], paths);
        assert LeftOver(head, rest)[1..] == LeftOver(head, rest[1..]);
      case Becomes(event) => LeftOverAlone(event, rest[1..], paths);
    }
  }

  lemma {:induction false} SteadyAlone(head: DiskEvent, rest: seq<DiskEvent>)
    requires Steady(head, rest) && !head.Deleted?
    ensures LeaveAlone(rest, Current(head))
    decreases |rest|
  {
    if rest != [] {
      SteadyAlone(head, rest[1..]);
    }
  }

  /** A file that the events leave alone keeps its place and its mark. */
  lemma {:induction false} FileKept(events: seq<DiskEvent>, r: Mirror, h: nat, f: Path, paths: set<Path>)
    requires RunReady(events, r) && FreshNumber(r) && h in r.files && r.files[h].path == f
    requires LeaveAlone(events, f) && Flat(paths) && AllWithin(events, paths) && f in paths
    ensures h in Run(events, r).files && Run(events, r).files[h] == r.files[h]
    decreases |events|
  {
    if events != [] {
      var e := events[0];
      assert e in events && (e.Created? || Source(e) != f);
      FileKept(events[1..], Apply(e, r), h, f, paths);
    }
  }

  /** A modification was absorbed by a rename of a file that had no upload pending. */
  ghost predicate ForgetsUpload(queue: seq<DiskEvent>, s: Mirror)
    requires queue != [] && Uncancelled(queue[0], queue[1..]) && Ready(queue[0], s)
  {
    && LosesUpload(queue[0], queue[1..])
    && var h := HeadId(queue[0], s); h in s.files && !s.files[h].dirty
  }

  /**
   On undisturbed queues that do not mix a folder with its inside, the reduced events
   bring the mirror where the raw ones bring it if and only if no upload is forgotten.
   */
  lemma {:induction false} UploadIsExact(queue: seq<DiskEvent>, s: Mirror, paths: set<Path>)
    requires queue != [] && WellFormed(s) && RunReady(queue, s)
    requires Uncancelled(queue[0], queue[1..]) && UndisturbedQueue(queue)
    requires Flat(paths) && AllWithin(queue, paths)
    ensures RunReduced(queue, s) == Run(queue, s) <==> !ForgetsUpload(queue, s)
  {
    assert Ready(queue[0], s);
    hide RunReady, Run, Undisturbed, UndisturbedQueue, WellFormed, Flat, AllWithin;
    ReducingKeepsMeaning(queue, s);
    KeepsUploads(queue[0], queue[1..]);
    if LosesUpload(queue[0], queue[1..]) {
      var h := HeadId(queue[0], s);
      var raw, reduced := Run(queue, s), RunReduced(queue, s);
      MarkKept(queue, s, paths);
      if s.files[h].dirty {
        assert Alike(raw, reduced, h, false);
        AlikeIsEqual(raw, reduced, h);
      }
    }
  }

  /** The calls for a rename leave the file's mark as it was, and so do the events left in the queue. */
  lemma {:induction false} MarkKept(queue: seq<DiskEvent>, s: Mirror, paths: set<Path>)
    requires queue != [] && WellFormed(s) && RunReady(queue, s)
    requires Uncancelled(queue[0], queue[1..]) && UndisturbedQueue(queue)
    requires Flat(paths) && AllWithin(queue, paths)
    requires LosesUpload(queue[0], queue[1..]) && queue[0].Renamed?
    ensures var h := HeadId(queue[0], s);
            h in s.files && h in RunReduced(queue, s).files && RunReduced(queue, s).files[h].dirty == s.files[h].dirty
  {
    hide Undisturbed, LosesUpload;
    var head, rest := queue[0], queue[1..];
    ReducingKeepsMeaning(queue, s);
    ReduceUncancelled(queue);
    KindKept(head, rest);
    NotDeleted(head, rest);
    FinalWithin(head, rest, paths);
    LeftOverAlone(head, rest, paths);
    var t, f, h := Source(head), Current(Final(head, rest)), HeadId(head, s);
    if t != f {
      RunOne(DiskEvent.Renamed(t, f), s);
    }
    Named(s, h, t, f);
    var r := Run(Naming(t, f), s);
    MovedNowhere(t, t);
    assert Moved(t, t, f) == f by { assert t[|t|..] == [] && f + [] == f; }
    FileKept(LeftOver(head, rest), r, h, f, paths);
  }

  lemma {:induction false} NotDeleted(head: DiskEvent, rest: seq<DiskEvent>)
    requires Uncancelled(head, rest) && LosesUpload(head, rest)
    ensures !Final(head, rest).Deleted?
  {
  }
}
