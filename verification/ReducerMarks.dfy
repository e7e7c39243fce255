/**
 Which uploads stay pending when heads are cancelled: a call made before the events that
 its own event followed marks the file that was there then.
 */
module ReducerMarks {
  import opened Wrappers
  import opened Forest
  import opened Reducer
  import opened ReducerMeaning
  import opened ReducerPlaces
  import opened ReducerUploads
  import opened ReducerCancel

  // ---- Following a file and its mark

  /** Where the events take the file at `p`. */
  ghost function Followed(events: seq<DiskEvent>, p: Path): Option<Path>
    decreases |events|
  {
    if events == [] then Some(p)
    else if events[0].Created? || Source(events[0]) != p then Followed(events[1..], p)
    else if events[0].Deleted? then None
    else Followed(events[1..], Current(events[0]))
  }

  /** The events delete the file at `p` or mark it themselves, so that its mark before them does not matter. */
  ghost predicate Remarked(events: seq<DiskEvent>, p: Path)
    decreases |events|
  {
    events != [] &&
    if events[0].Created? || Source(events[0]) != p then Remarked(events[1..], p)
    else events[0].Deleted? || events[0].Modified? || Remarked(events[1..], Current(events[0]))
  }

  /** An event that does not concern a path leaves its mark alone, whatever it is. */
  lemma MarkUnseen(e: DiskEvent, m: Places, p: Path, mark: bool)
    requires !Concerns(e, p) && p in m
    ensures p in Act(e, m) && Act(e, m[p := mark]) == Act(e, m)[p := mark]
  {
    hide Act, Fits;
    var n := m[p := mark];
    ActElsewhere(e, m, p);
    forall q | Concerns(e, q) ensures SameAt(n, m, q) && q != p {
    }
    var now, expected := Act(e, n), Act(e, m)[p := mark];
    forall q ensures SameAt(now, expected, q) {
      if Concerns(e, q) {
        ActLocally(e, n, m, q);
      } else {
        ActElsewhere(e, n, q);
        ActElsewhere(e, m, q);
      }
    }
    EqualPlaces(now, expected);
  }

  lemma RenamedAt(m: Places, p: Path, a: Path, q: Path)
    requires FreeAt(m, a)
    ensures var now := Act(DiskEvent.Renamed(p, a), m);
            if a <= q then SameMark(now, q, m, p + q[|a|..])
            else (q in now <==> q in m && !(p <= q)) && (q in now ==> now[q] == m[q])
  {
    if a <= q {
      var k := p + q[|a|..];
      assert p <= k && a + k[|p|..] == q;
    }
  }

  ghost predicate SameMark(m: Places, p: Path, n: Places, q: Path) {
    (p in m <==> q in n) && (p in m ==> m[p] == n[q])
  }

  lemma MarkCarried(m: Places, p: Path, a: Path, mark: bool)
    requires p in m && FreeAt(m, a)
    ensures a in Act(DiskEvent.Renamed(p, a), m)
    ensures Act(DiskEvent.Renamed(p, a), m[p := mark]) == Act(DiskEvent.Renamed(p, a), m)[a := mark]
  {
    hide Act;
    var e, n := DiskEvent.Renamed(p, a), m[p := mark];
    assert a[|a|..] == [] && p + [] == p;
    RenamedAt(m, p, a, a);
    var now, expected := Act(e, n), Act(e, m)[a := mark];
    forall q ensures SameAt(now, expected, q) {
      RenamedAt(m, p, a, q);
      RenamedAt(n, p, a, q);
      assert a <= q && p + q[|a|..] == p ==> |q| == |a| && q == a;
    }
    EqualPlaces(now, expected);
  }

  /** An event that is not about the file at `p` does not concern that place. */
  lemma NotAbout(e: DiskEvent, m: Places, p: Path, paths: set<Path>)
    requires Fits(e, m) && p in m && Flat(paths) && Within(e, paths) && p in paths
    requires e.Created? || Source(e) != p
    ensures !Concerns(e, p)
  {
    assert p <= p;
    assert Source(e) != p && Current(e) != p;
  }

  /** The mark of a file goes with it, until the events delete it or mark it themselves. */
  lemma {:induction false} MarkFollows(events: seq<DiskEvent>, m: Places, p: Path, mark: bool, paths: set<Path>)
    requires FitAll(events, m) && p in m && Flat(paths) && AllWithin(events, paths) && p in paths
    ensures var g, end := Followed(events, p), ActAll(events, m);
            && (g.Some? ==> g.value in paths && g.value in end && (Remarked(events, p) ==> end[g.value]))
            && (g.None? ==> Remarked(events, p))
            && ActAll(events, m[p := mark]) == if Remarked(events, p) then end else end[g.value := mark]
    decreases |events|
  {
    hide Act, Fits, Flat;
    if events != [] {
      var e := events[0];
      var now := Act(e, m);
      if e.Created? || Source(e) != p {
        NotAbout(e, m, p, paths);
        MarkUnseen(e, m, p, mark);
        MarkFollows(events[1..], now, p, mark, paths);
      } else {
        AboutSame(e, m, p, mark);
        if !e.Deleted? {
          MarkFollows(events[1..], now, Current(e), mark, paths);
          if e.Modified? {
            MarkFollows(events[1..], now, p, true, paths);
          }
        }
      }
    }
  }

  /** What an event about the file at `p` makes of its mark. */
  lemma AboutSame(e: DiskEvent, m: Places, p: Path, mark: bool)
    requires Fits(e, m) && !e.Created? && Source(e) == p && p in m
    ensures e.Deleted? ==> Act(e, m[p := mark]) == Act(e, m)
    ensures e.Modified? ==> Act(e, m[p := mark]) == Act(e, m) == Act(e, m)[p := true] && p in Act(e, m)
    ensures e.Renamed? ==> Act(e, m[p := mark]) == Act(e, m)[Current(e) := mark] && Current(e) in Act(e, m)
  {
    if e.Renamed? {
      MarkCarried(m, p, e.after, mark);
    }
  }

  /** Different files go to different places. */
  lemma {:induction false} FollowedApart(events: seq<DiskEvent>, m: Places, p: Path, q: Path, paths: set<Path>)
    requires FitAll(events, m) && p in m && q in m && p != q
    requires Flat(paths) && AllWithin(events, paths) && p in paths && q in paths
    requires Followed(events, p).Some? && Followed(events, q).Some?
    ensures Followed(events, p) != Followed(events, q)
    decreases |events|
  {
    hide Act, Flat;
    if events != [] {
      var e := events[0];
      var a := if e.Created? || Source(e) != p then p else Current(e);
      var b := if e.Created? || Source(e) != q then q else Current(e);
      StaysOrGoes(e, m, p, paths);
      StaysOrGoes(e, m, q, paths);
      assert p <= p && q <= q;
      FollowedApart(events[1..], Act(e, m), a, b, paths);
    }
  }

  lemma StaysOrGoes(e: DiskEvent, m: Places, p: Path, paths: set<Path>)
    requires Fits(e, m) && p in m && Flat(paths) && Within(e, paths) && p in paths
    ensures e.Created? || Source(e) != p ==> p in Act(e, m)
    ensures !e.Created? && Source(e) == p && !e.Deleted? ==> Current(e) in Act(e, m)
  {
    if e.Created? || Source(e) != p {
      NotAbout(e, m, p, paths);
      ActElsewhere(e, m, p);
    } else {
      AboutSame(e, m, p, true);
    }
  }

  lemma {:induction false} AloneStays(events: seq<DiskEvent>, x: Path)
    requires LeaveAlone(events, x)
    ensures Followed(events, x) == Some(x) && !Remarked(events, x)
    decreases |events|
  {
    if events != [] {
      assert events[0] in events;
      AloneStays(events[1..], x);
    }
  }

  // ---- A modification that overtakes the events before it

  /**
   Marking the file at `x` before the overtaken events gives the marks that marking it
   after them gives: it is the same file, or the file that came instead was marked
   anyway, and so is the one that left, unless it is deleted or marked later.
   */
  ghost predicate SameMarks(overtaken: seq<DiskEvent>, left: seq<DiskEvent>, x: Path, mid: Places) {
    var g := Followed(overtaken, x);
    || g == Some(x)
    || (x in mid && mid[x] && (g.None? || (g.value in mid && mid[g.value]) || Remarked(left, g.value)))
  }

  lemma SetTwice(z: Places, x: Path, y: Path)
    requires x in z && y in z && x != y
    ensures z[y := true] == z[x := true] <==> z[x] && z[y]
    ensures z == z[x := true] <==> z[x]
  {
    if z[y := true] == z[x := true] {
      assert z[y := true][x] == z[x := true][x] && z[y := true][y] == z[x := true][y];
    }
    if z == z[x := true] {
      assert z[x := true][x];
    }
  }

  lemma SetOnce(z: Places, x: Path)
    requires x in z
    ensures z == z[x := true] <==> z[x]
  {
    if z == z[x := true] {
      assert z[x := true][x];
    }
  }

  lemma {:induction false} OvertakingMarks(
    overtaken: seq<DiskEvent>, left: seq<DiskEvent>, x: Path, m: Places, paths: set<Path>
  )
    requires Flat(paths) && AllWithin(overtaken, paths) && AllWithin(left, paths) && x in paths
    requires FitAll(overtaken, m) && x in m && x in ActAll(overtaken, m)
    requires FitAll(left, ActAll(overtaken, m)) && LeaveAlone(left, x)
    ensures var mid := ActAll(overtaken, m);
            ActAll(left, ActAll(overtaken, m[x := true])) == ActAll(left, mid[x := true]) <==> SameMarks(overtaken, left, x, mid)
  {
    hide FitAll, ActAll, Flat, AllWithin, Followed, Remarked, LeaveAlone;
    var mid, g := ActAll(overtaken, m), Followed(overtaken, x);
    MarkFollows(overtaken, m, x, true, paths);
    AloneStays(left, x);
    MarkFollows(left, mid, x, true, paths);
    MarkFollows(left, mid, x, mid[x], paths);
    var end := ActAll(left, mid);
    assert mid[x := mid[x]] == mid;
    SetOnce(end, x);
    assert end[x] == mid[x];
    if g.Some? {
      assert ActAll(overtaken, m[x := true]) == mid[g.value := true];
      if g.value != x {
        MarkFollows(left, mid, g.value, true, paths);
        MarkFollows(left, mid, g.value, mid[g.value], paths);
        assert mid[g.value := mid[g.value]] == mid;
        if !Remarked(left, g.value) {
          FollowedApart(left, mid, g.value, x, paths);
          SetTwice(end, x, Followed(left, g.value).value);
        }
      }
    }
  }

  // ---- The last run on its own

  lemma {:induction false} TailUploads(tail: seq<DiskEvent>, mid: Mirror, paths: set<Path>)
    requires tail != [] && WellFormed(mid) && RunReady(tail, mid)
    requires Uncancelled(tail[0], tail[1..]) && UndisturbedQueue(tail)
    requires Flat(paths) && AllWithin(tail, paths)
    ensures View(RunReduced(tail, mid)) == View(Run(tail, mid)) <==> !ForgetsUpload(tail, mid)
  {
    assert Ready(tail[0], mid);
    hide RunReady, Run, Undisturbed, UndisturbedQueue, WellFormed, Flat, AllWithin, View, Reduce, LosesUpload;
    UploadIsExact(tail, mid, paths);
    if ForgetsUpload(tail, mid) {
      KeepsUploads(tail[0], tail[1..]);
      ReducingKeepsMeaning(tail, mid);
      MarkKept(tail, mid, paths);
      ReadyRunWellFormed(tail, mid);
      ReducedWellFormed(tail, mid);
      var h, raw, reduced := HeadId(tail[0], mid), Run(tail, mid), RunReduced(tail, mid);
      assert Alike(raw, reduced, h, true);
      ViewShows(raw);
      ViewShows(reduced);
      assert View(raw)[raw.files[h].path] && !View(reduced)[reduced.files[h].path];
    }
  }

  lemma ReducedWellFormed(queue: seq<DiskEvent>, s: Mirror)
    requires WellFormed(s) && ReducedReady(queue, s)
    ensures WellFormed(RunReduced(queue, s))
  {
    var (event, left) := Reduce(queue);
    if event.Some? {
      ReadyRunWellFormed(Steps(event.value), s);
      ReadyRunWellFormed(left, Run(Steps(event.value), s));
    } else {
      ReadyRunWellFormed(left, s);
    }
  }

  // ---- Exactly which marks agree

  /** The last head is a modification of a file that is where it was, so that one call marks it. */
  ghost predicate MarksOnly(x: Path, final: DiskEvent) {
    final.Modified? && Current(final) == x
  }

  /** The condition under which the same uploads are pending. */
  ghost predicate MarksAgree(queue: seq<DiskEvent>, s: Mirror) {
    var tail, mid := LastRun(queue), Run(Overtaken(queue), s);
    tail != [] ==>
      var x, final := Source(tail[0]), Final(tail[0], tail[1..]);
      if MarksOnly(x, final) then SameMarks(Overtaken(queue), LeftOver(tail[0], tail[1..]), x, View(mid))
      else Ready(tail[0], mid) ==> !ForgetsUpload(tail, mid)
  }

  /** A head that moves something, or that only makes no call, may be called before the overtaken events. */
  lemma CallsSwap(skipped: seq<DiskEvent>, x: Path, final: DiskEvent, m: Places)
    requires MayOvertake(skipped, x, final) && !MarksOnly(x, final)
    ensures var steps := Steps(DiskEventWrap(x, final));
            ActAll(skipped, ActAll(steps, m)) == ActAll(steps, ActAll(skipped, m))
  {
    hide Act, Fits, EventApart, ArrivesFirst;
    if StaysPut(x, final) {
      assert Steps(DiskEventWrap(x, final)) == [];
    } else {
      RoomForCalls(skipped, x, final);
      CallsOvertake(Steps(DiskEventWrap(x, final)), skipped, m);
    }
  }

  lemma TouchCall(x: Path, final: DiskEvent, m: Places)
    requires MarksOnly(x, final) && x in m
    ensures ActAll(Steps(DiskEventWrap(x, final)), m) == m[x := true]
    ensures m[x := true].Keys == m.Keys
  {
    assert [DiskEvent.Modified(x)] + [] == [DiskEvent.Modified(x)];
    StepsOne(DiskEvent.Modified(x), m);
  }

  lemma TouchingTail(tail: seq<DiskEvent>, paths: set<Path>)
    requires tail != [] && Uncancelled(tail[0], tail[1..]) && UndisturbedQueue(tail) && Flat(paths) && AllWithin(tail, paths)
    requires MarksOnly(Source(tail[0]), Final(tail[0], tail[1..]))
    ensures !LosesUpload(tail[0], tail[1..])
    ensures LeaveAlone(LeftOver(tail[0], tail[1..]), Source(tail[0])) && AllWithin(LeftOver(tail[0], tail[1..]), paths)
  {
    KindKept(tail[0], tail[1..]);
    KeepsUploads(tail[0], tail[1..]);
    LeftOverAlone(tail[0], tail[1..], paths);
  }

  /** The case of a head that only marks a file: the marks of the whole queue, by those of the overtaken events. */
  lemma TouchMarks(skipped: seq<DiskEvent>, tail: seq<DiskEvent>, m: Places, paths: set<Path>)
    requires tail != [] && Uncancelled(tail[0], tail[1..]) && UndisturbedQueue(tail)
    requires Flat(paths) && AllWithin(skipped, paths) && AllWithin(tail, paths) && Source(tail[0]) in paths
    requires var x, final := Source(tail[0]), Final(tail[0], tail[1..]);
             MarksOnly(x, final) && MayOvertake(skipped, x, final) && FitAll(skipped, m) && x in ActAll(skipped, m)
    requires FitAll(LeftOver(tail[0], tail[1..]), ActAll(StepsOf(tail), ActAll(skipped, m)))
    ensures var steps, left, mid := StepsOf(tail), LeftOver(tail[0], tail[1..]), ActAll(skipped, m);
            ActAll(left, ActAll(skipped, ActAll(steps, m))) == ActAll(left, ActAll(steps, mid)) <==>
            SameMarks(skipped, left, Source(tail[0]), mid)
  {
    hide Act, Fits, Flat, AllWithin, Steps, UndisturbedQueue, LeftOver, FitAll, ActAll;
    var x, final := Source(tail[0]), Final(tail[0], tail[1..]);
    var left, mid := LeftOver(tail[0], tail[1..]), ActAll(skipped, m);
    TouchingTail(tail, paths);
    FirstArrival(skipped, x, m, paths);
    TouchCall(x, final, m);
    TouchCall(x, final, mid);
    KeysDecideAll(left, mid[x := true], mid);
    OvertakingMarks(skipped, left, x, m, paths);
  }

  /**
   On queues that do not mix a folder with its inside, cancelled heads included, when the
   reduced events fit: the same paths hold files with the same uploads pending if and
   only if no rename forgot an upload in the last run, or, when the last head marks a
   file without moving it, the marks agree although it overtakes the skipped events.
   */
  lemma {:induction false} MarksAreExact(queue: seq<DiskEvent>, s: Mirror, paths: set<Path>)
    requires queue != [] && WellFormed(s) && RunReady(queue, s) && ReducedReady(queue, s)
    requires Flat(paths) && AllWithin(queue, paths)
    ensures View(RunReduced(queue, s)) == View(Run(queue, s)) <==> MarksAgree(queue, s)
  {
    hide View, WellFormed, LeftOver, Overtaken, LastRun, Steps, RunReady, Run, Flat, AllWithin, FitAll, ActAll, RunReduced,
      UndisturbedQueue, MayOvertake, ReducedReady, Fits, SameMarks, ForgetsUpload, LosesUpload, MarksOnly, StaysPut;
    ReducibleIsExact(queue, s, paths);
    RunShown(queue, s);
    FlatIsClean(queue, View(s), paths);
    TailFits(queue, s);
    ReducedShown(queue, s);
    OvertakenWithin(queue, paths);
    var tail, skipped, m := LastRun(queue), Overtaken(queue), View(s);
    RunShown(skipped, s);
    var mid := Run(skipped, s);
    if tail != [] {
      var x, final := Source(tail[0]), Final(tail[0], tail[1..]);
      TailShown(tail, mid);
      UndisturbedIsExact(tail, mid, paths);
      HeadReady(tail, mid);
      HeadThere(tail, mid, paths);
      TailUploads(tail, mid, paths);
      if MarksOnly(x, final) {
        OnlyStays(x, final);
        TouchingTail(tail, paths);
        NothingForgotten(tail, mid);
        TouchMarks(skipped, tail, m, paths);
      } else {
        CallsSwap(skipped, x, final, m);
      }
    } else {
      EmptyRun(mid);
    }
  }

  lemma OnlyStays(x: Path, final: DiskEvent)
    requires MarksOnly(x, final)
    ensures StaysPut(x, final)
  {
  }

  lemma NothingForgotten(tail: seq<DiskEvent>, mid: Mirror)
    requires tail != [] && Uncancelled(tail[0], tail[1..]) && Ready(tail[0], mid) && !LosesUpload(tail[0], tail[1..])
    ensures !ForgetsUpload(tail, mid)
  {
  }

  // ---- An upload that goes to another file

  /** A file among files that are all directly in the folder. */
  ghost predicate Single(m: Places, p: Path) {
    |p| == 1 && forall q :: q in m ==> |q| == 1
  }

  lemma RenameOne(m: Places, b: Path, a: Path)
    requires Single(m, b) && |a| == 1 && b in m && b != a && a !in m
    ensures Fits(DiskEvent.Renamed(b, a), m)
    ensures Act(DiskEvent.Renamed(b, a), m) == (m - {b})[a := m[b]]
  {
    var e := DiskEvent.Renamed(b, a);
    forall q | |q| == 1 ensures (a <= q ==> q == a) && (b <= q ==> q == b) {
    }
    var now, expected := Act(e, m), (m - {b})[a := m[b]];
    forall q ensures SameAt(now, expected, q) {
      RenamedAt(m, b, a, q);
      if a <= q {
        var k := b + q[|a|..];
        assert |k| == |q| && b <= k;
        assert q == a ==> k == b;
      }
    }
    EqualPlaces(now, expected);
  }

  const CREATED_A := DiskEvent.Created(["a"])
  const X_TO_Z := DiskEvent.Renamed(["x"], ["z"])
  const W_TO_X := DiskEvent.Renamed(["w"], ["x"])
  const DELETED_A := DiskEvent.Deleted(["a"])
  const MODIFIED_X := DiskEvent.Modified(["x"])

  /** While "a" is created and deleted, "x" makes room for "w", which is modified then. */
  const EXAMPLE := [CREATED_A, X_TO_Z, W_TO_X, DELETED_A, MODIFIED_X]

  const TWO_FILES := Mirror(map[0 := File(["x"], false), 1 := File(["w"], false)], 2)

  const TWO_PLACES: Places := map[["x"] := false, ["w"] := false]

  lemma ExampleRuns()
    ensures Overtaken(EXAMPLE) == [X_TO_Z, W_TO_X] && LastRun(EXAMPLE) == [MODIFIED_X]
    ensures Uncancelled(MODIFIED_X, []) && Final(MODIFIED_X, []) == MODIFIED_X && LeftOver(MODIFIED_X, []) == []
  {
    Distinct();
    var rest3, rest2, rest1 := [DELETED_A, MODIFIED_X], [W_TO_X, DELETED_A, MODIFIED_X], EXAMPLE[1..];
    assert rest3[1..] == [MODIFIED_X] && rest2[1..] == rest3 && rest1 == [X_TO_Z] + rest2 && rest1[1..] == rest2;
    assert React(CREATED_A, X_TO_Z) == Keep && React(CREATED_A, W_TO_X) == Keep && React(CREATED_A, DELETED_A) == Cancel;
    assert !Uncancelled(CREATED_A, rest3) && !Uncancelled(CREATED_A, rest2) && !Uncancelled(CREATED_A, rest1);
    assert SkippedBefore(CREATED_A, rest3) == [] && AfterCancel(CREATED_A, rest3) == [MODIFIED_X];
    assert SkippedBefore(CREATED_A, rest2) == [W_TO_X] + [] && AfterCancel(CREATED_A, rest2) == [MODIFIED_X];
    assert SkippedBefore(CREATED_A, rest1) == [X_TO_Z] + [W_TO_X] && AfterCancel(CREATED_A, rest1) == [MODIFIED_X];
    assert [MODIFIED_X][1..] == [] && Overtaken([MODIFIED_X]) == [] && LastRun([MODIFIED_X]) == [MODIFIED_X];
    assert [X_TO_Z] + [W_TO_X] + [] == [X_TO_Z, W_TO_X];
  }

  lemma TwoFilesShown()
    ensures WellFormed(TWO_FILES) && View(TWO_FILES) == TWO_PLACES
  {
    Distinct();
    assert TWO_FILES.files[0].path == ["x"] && TWO_FILES.files[1].path == ["w"];
    ShownIsView(TWO_FILES, TWO_PLACES);
  }

  /** "x" makes room for "w", whatever else is there. */
  lemma TwoRenames(m: Places, x: Path, w: Path, z: Path)
    requires Single(m, x) && |w| == 1 && |z| == 1 && x in m && w in m && z !in m && x != w
    ensures var d, e := DiskEvent.Renamed(x, z), DiskEvent.Renamed(w, x);
            && FitAll([d, e], m)
            && ActAll([d, e], m) == (m - {x} - {w})[z := m[x]][x := m[w]]
  {
    hide Act, Fits;
    RenameOne(m, x, z);
    var now := (m - {x})[z := m[x]];
    assert Single(now, w) && w in now && x !in now && now[w] == m[w];
    RenameOne(now, w, x);
    RunsTwo(DiskEvent.Renamed(x, z), DiskEvent.Renamed(w, x), m);
    assert (now - {w})[x := now[w]] == (m - {x} - {w})[z := m[x]][x := m[w]];
  }

  lemma RunsTwo(d: DiskEvent, e: DiskEvent, m: Places)
    ensures ActAll([d, e], m) == Act(e, Act(d, m))
    ensures FitAll([d, e], m) <==> Fits(d, m) && Fits(e, Act(d, m))
  {
    assert [d, e][1..] == [e];
    StepsOne(e, Act(d, m));
  }

  lemma Distinct()
    ensures ["a"] != ["x"] && ["x"] != ["z"] && ["z"] != ["a"] && ["w"] != ["a"] && ["w"] != ["x"] && ["w"] != ["z"]
  {
    assert ["a"][0] != ["x"][0] && ["x"][0] != ["z"][0] && ["a"][0] != ["z"][0];
    assert ["w"][0] != ["a"][0] && ["w"][0] != ["x"][0] && ["w"][0] != ["z"][0];
  }

  /** The raw events fit, and leave the file that came to `x` marked. */
  lemma ExampleFits(m: Places, a: Path, x: Path, w: Path, z: Path)
    requires Single(m, x) && |a| == 1 && |w| == 1 && |z| == 1 && m == map[x := false, w := false]
    requires a != x && a != w && a != z && x != w && x != z && w != z
    ensures var queue := [DiskEvent.Created(a), DiskEvent.Renamed(x, z), DiskEvent.Renamed(w, x), DiskEvent.Deleted(a),
                          DiskEvent.Modified(x)];
            FitAll(queue, m) && ActAll(queue, m) == map[z := false, x := true]
  {
    hide Act, Fits;
    var c, d, e := DiskEvent.Created(a), DiskEvent.Renamed(x, z), DiskEvent.Renamed(w, x);
    var f, touch := DiskEvent.Deleted(a), DiskEvent.Modified(x);
    var queue, created, renamed := [c, d, e, f, touch], m[a := true], map[z := false, x := false, a := true];
    var gone := map[z := false, x := false];
    AloneBetween(m, a);
    TwoRenames(created, x, w, z);
    assert (created - {x} - {w})[z := created[x]][x := created[w]] == renamed;
    Gone(renamed, a);
    assert renamed - {a} == gone;
    TouchedThere(gone, x);
    assert gone[x := true] == map[z := false, x := true];
    assert queue == [c] + ([d, e] + [f, touch]);
    FitChain([c], [d, e] + [f, touch], m);
    ActChain([c], [d, e] + [f, touch], m);
    StepsOne(c, m);
    FitChain([d, e], [f, touch], created);
    ActChain([d, e], [f, touch], created);
    RunsTwo(f, touch, renamed);
  }

  lemma AloneBetween(m: Places, a: Path)
    requires Single(m, a) && a !in m
    ensures Fits(DiskEvent.Created(a), m) && Act(DiskEvent.Created(a), m) == m[a := true]
  {
    forall q | q in m ensures !(a <= q) {
      assert a <= q ==> q == a;
    }
  }

  lemma Gone(m: Places, a: Path)
    requires Single(m, a) && a in m
    ensures Fits(DiskEvent.Deleted(a), m) && Act(DiskEvent.Deleted(a), m) == m - {a}
  {
    forall q | q in m && a <= q ensures q == a {
    }
  }

  lemma TouchedThere(m: Places, x: Path)
    requires x in m
    ensures Fits(DiskEvent.Modified(x), m) && Act(DiskEvent.Modified(x), m) == m[x := true]
  {
  }

  /** What the reduced events come to: the call marks the file that is still at `x`. */
  lemma ExampleReduced(m: Places, x: Path, w: Path, z: Path)
    requires Single(m, x) && |w| == 1 && |z| == 1 && m == map[x := false, w := false]
    requires x != w && x != z && w != z
    ensures var touched := ActAll([DiskEvent.Modified(x)], m);
            && FitAll([DiskEvent.Modified(x)], m)
            && FitAll([DiskEvent.Renamed(x, z), DiskEvent.Renamed(w, x)], touched)
            && ActAll([DiskEvent.Renamed(x, z), DiskEvent.Renamed(w, x)], touched) == map[z := true, x := false]
  {
    hide Act, Fits, FitAll, ActAll;
    TouchedThere(m, x);
    StepsOne(DiskEvent.Modified(x), m);
    var touched := m[x := true];
    TwoRenames(touched, x, w, z);
    assert (touched - {x} - {w})[z := touched[x]][x := touched[w]] == map[z := true, x := false];
  }

  /** The upload goes to another file: the raw events leave "x" to be uploaded, the reduced ones "z". */
  lemma UploadGoesElsewhere()
    ensures WellFormed(TWO_FILES) && RunReady(EXAMPLE, TWO_FILES) && ReducedReady(EXAMPLE, TWO_FILES) && Reducible(EXAMPLE)
    ensures LastRun(EXAMPLE) == [MODIFIED_X] && Uncancelled(MODIFIED_X, []) && !LosesUpload(MODIFIED_X, [])
    ensures View(Run(EXAMPLE, TWO_FILES)) == map[["z"] := false, ["x"] := true]
    ensures View(RunReduced(EXAMPLE, TWO_FILES)) == map[["z"] := true, ["x"] := false]
  {
    hide Act, Fits, FitAll, ActAll, View, WellFormed, RunReady, Run, RunReduced, ReducedReady, Overtaken, LastRun, LeftOver, Final;
    ExampleRuns();
    TwoFilesShown();
    Distinct();
    ExampleFits(TWO_PLACES, ["a"], ["x"], ["w"], ["z"]);
    ExampleReduced(TWO_PLACES, ["x"], ["w"], ["z"]);
    RunShown(EXAMPLE, TWO_FILES);
    ReducedShown(EXAMPLE, TWO_FILES);
    assert [MODIFIED_X] + [] == [MODIFIED_X] && [MODIFIED_X][1..] == [];
    NothingMore(map[["z"] := true, ["x"] := false]);
    ReadsFirst();
  }

  lemma NothingMore(m: Places)
    ensures FitAll([], m) && ActAll([], m) == m
  {
  }

  /** The file that comes to "x" is not the first that events are about there. */
  lemma ReadsFirst()
    ensures !ArrivesFirst([X_TO_Z, W_TO_X], ["x"]) && UndisturbedQueue([MODIFIED_X])
  {
    assert [MODIFIED_X][1..] == [];
  }
}
