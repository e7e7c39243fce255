/**
 Mirrors without identities: which paths hold a file, and whether its upload is pending.
 Whether an event fits and what it does to a path depend on the paths at or below its
 own two only, so events away from each other commute.
 */
module ReducerPlaces {
  import opened Forest
  import opened Reducer
  import opened ReducerMeaning

  type Places = map<Path, bool>

  ghost predicate FreeAt(m: Places, p: Path) {
    forall q :: q in m ==> !(p <= q)
  }

  ghost predicate Fits(e: DiskEvent, m: Places) {
    match e
    case Created(p) => FreeAt(m, p)
    case Renamed(b, a) => b in m && FreeAt(m, a) && !(b <= a)
    case _ => e.path in m
  }

  ghost function Act(e: DiskEvent, m: Places): Places {
    match e
    case Deleted(p) => map q | q in m && !(p <= q) :: m[q]
    case Created(p) => m[p := true]
    case Modified(p) => if p in m then m[p := true] else m
    case Renamed(b, a) =>
      (map q | q in m && !(b <= q) :: m[q]) +
      (map q | q in (set k | k in m && b <= k :: a + k[|b|..]) && b + q[|a|..] in m :: m[b + q[|a|..]])
  }

  ghost predicate FitAll(events: seq<DiskEvent>, m: Places)
    decreases |events|
  {
    events == [] || (Fits(events[0], m) && FitAll(events[1..], Act(events[0], m)))
  }

  ghost function ActAll(events: seq<DiskEvent>, m: Places): Places
    decreases |events|
  {
    if events == [] then m else ActAll(events[1..], Act(events[0], m))
  }

  lemma {:induction false} ActChain(a: seq<DiskEvent>, b: seq<DiskEvent>, m: Places)
    ensures ActAll(a + b, m) == ActAll(b, ActAll(a, m))
    decreases |a|
  {
    if a == [] {
      assert a + b == b;
    } else {
      assert (a + b)[1..] == a[1..] + b;
      ActChain(a[1..], b, Act(a[0], m));
    }
  }

  lemma {:induction false} FitChain(a: seq<DiskEvent>, b: seq<DiskEvent>, m: Places)
    ensures FitAll(a + b, m) <==> FitAll(a, m) && FitAll(b, ActAll(a, m))
    decreases |a|
  {
    if a == [] {
      assert a + b == b;
    } else {
      assert (a + b)[1..] == a[1..] + b;
      FitChain(a[1..], b, Act(a[0], m));
    }
  }

  // ---- What a mirror shows

  ghost function PathsOf(s: Mirror): set<Path> {
    set id | id in s.files :: s.files[id].path
  }

  ghost function View(s: Mirror): Places {
    map p | p in PathsOf(s) :: exists id :: id in s.files && s.files[id].path == p && s.files[id].dirty
  }

  /** Every file stands for a path with its mark. */
  ghost predicate FilesShown(s: Mirror, m: Places) {
    forall id :: id in s.files ==> s.files[id].path in m && m[s.files[id].path] == s.files[id].dirty
  }

  /** Every path stands for a file. */
  ghost predicate PathsHeld(s: Mirror, m: Places) {
    forall p :: p in m ==> exists id :: id in s.files && s.files[id].path == p
  }

  ghost predicate Shows(s: Mirror, m: Places) {
    FilesShown(s, m) && PathsHeld(s, m)
  }

  lemma ViewShows(s: Mirror)
    requires WellFormed(s)
    ensures Shows(s, View(s))
  {
  }

  lemma ShownIsView(s: Mirror, m: Places)
    requires WellFormed(s) && Shows(s, m)
    ensures m == View(s)
  {
    ViewShows(s);
    forall p ensures p in m <==> p in View(s) {
    }
    forall p | p in m ensures m[p] == View(s)[p] {
      var id :| id in s.files && s.files[id].path == p;
    }
  }

  lemma ShownFits(e: DiskEvent, s: Mirror, m: Places)
    requires Shows(s, m)
    ensures Ready(e, s) <==> Fits(e, m)
  {
    forall p ensures Free(s.files, p) <==> FreeAt(m, p) {
    }
    forall p ensures Present(s.files, p) <==> p in m {
    }
  }

  lemma ShownActs(e: DiskEvent, s: Mirror, m: Places)
    requires WellFormed(s) && Shows(s, m) && Ready(e, s)
    ensures Shows(Apply(e, s), Act(e, m))
  {
    hide Ready;
    match e
    case Deleted(p) => ShownDeletion(s, m, p);
    case Created(p) => ShownCreation(s, m, p);
    case Modified(p) => ShownTouch(s, m, p);
    case Renamed(b, a) =>
      RenameShown(s, m, b, a);
      RenameHeld(s, m, b, a);
  }

  lemma ShownDeletion(s: Mirror, m: Places, p: Path)
    requires Shows(s, m)
    ensures Shows(Apply(DiskEvent.Deleted(p), s), Act(DiskEvent.Deleted(p), m))
  {
    var t, n := Apply(DiskEvent.Deleted(p), s), Act(DiskEvent.Deleted(p), m);
    forall q | q in n ensures exists id :: id in t.files && t.files[id].path == q {
      var id :| id in s.files && s.files[id].path == q;
      assert id in t.files && t.files[id].path == q;
    }
  }

  lemma ShownTouch(s: Mirror, m: Places, p: Path)
    requires Shows(s, m)
    ensures Shows(Apply(DiskEvent.Modified(p), s), Act(DiskEvent.Modified(p), m))
  {
    var t, n := Apply(DiskEvent.Modified(p), s), Act(DiskEvent.Modified(p), m);
    forall q | q in n ensures exists id :: id in t.files && t.files[id].path == q {
      var id :| id in s.files && s.files[id].path == q;
      assert id in t.files && t.files[id].path == q;
    }
  }

  lemma ShownCreation(s: Mirror, m: Places, p: Path)
    requires WellFormed(s) && Shows(s, m) && Ready(DiskEvent.Created(p), s)
    ensures Shows(Apply(DiskEvent.Created(p), s), Act(DiskEvent.Created(p), m))
  {
    var t, n := Apply(DiskEvent.Created(p), s), Act(DiskEvent.Created(p), m);
    assert s.next in t.files && t.files[s.next].path == p;
    forall q | q in n && q != p ensures exists id :: id in t.files && t.files[id].path == q {
      var id :| id in s.files && s.files[id].path == q;
      assert id in t.files && t.files[id].path == q;
    }
  }

  lemma RenameShown(s: Mirror, m: Places, b: Path, a: Path)
    requires FilesShown(s, m) && PathsHeld(s, m) && Ready(DiskEvent.Renamed(b, a), s)
    ensures FilesShown(Apply(DiskEvent.Renamed(b, a), s), Act(DiskEvent.Renamed(b, a), m))
  {
    var t, n := Apply(DiskEvent.Renamed(b, a), s), Act(DiskEvent.Renamed(b, a), m);
    forall id | id in t.files ensures t.files[id].path in n && n[t.files[id].path] == t.files[id].dirty {
      var k := s.files[id].path;
      if b <= k {
        assert k == b + (a + k[|b|..])[|a|..];
      } else {
        assert !(a <= k);
      }
    }
  }

  lemma RenameHeld(s: Mirror, m: Places, b: Path, a: Path)
    requires PathsHeld(s, m)
    ensures PathsHeld(Apply(DiskEvent.Renamed(b, a), s), Act(DiskEvent.Renamed(b, a), m))
  {
    var t, n := Apply(DiskEvent.Renamed(b, a), s), Act(DiskEvent.Renamed(b, a), m);
    forall q | q in n ensures exists id :: id in t.files && t.files[id].path == q {
      if a <= q && b + q[|a|..] in m {
        var k := b + q[|a|..];
        var id :| id in s.files && s.files[id].path == k;
        assert t.files[id].path == a + k[|b|..] == q;
      } else {
        assert q in m && !(b <= q);
        var id :| id in s.files && s.files[id].path == q;
        assert t.files[id].path == q;
      }
    }
  }

  /** A run on a mirror is a run on what it shows. */
  lemma {:induction false} RunShown(events: seq<DiskEvent>, s: Mirror)
    requires WellFormed(s)
    ensures RunReady(events, s) <==> FitAll(events, View(s))
    ensures RunReady(events, s) ==> WellFormed(Run(events, s)) && View(Run(events, s)) == ActAll(events, View(s))
    decreases |events|
  {
    hide View, Shows, WellFormed, Ready, Fits, Apply, Act;
    if events != [] {
      var e := events[0];
      ViewShows(s);
      ShownFits(e, s, View(s));
      if Ready(e, s) {
        ReadyKeepsWellFormed(e, s);
        ShownActs(e, s, View(s));
        ShownIsView(Apply(e, s), Act(e, View(s)));
        RunShown(events[1..], Apply(e, s));
      }
    }
  }

  // ---- Events act locally

  /** The path is at or below one of the event's. */
  ghost predicate Concerns(e: DiskEvent, q: Path) {
    Source(e) <= q || Current(e) <= q
  }

  ghost predicate SameAt(m: Places, n: Places, q: Path) {
    (q in m <==> q in n) && (q in m ==> m[q] == n[q])
  }

  ghost predicate AgreeFor(e: DiskEvent, m: Places, n: Places) {
    forall q :: Concerns(e, q) ==> SameAt(m, n, q)
  }

  lemma EqualPlaces(m: Places, n: Places)
    requires forall q :: SameAt(m, n, q)
    ensures m == n
  {
    forall q ensures q in m <==> q in n {
      assert SameAt(m, n, q);
    }
    forall q | q in m ensures m[q] == n[q] {
      assert SameAt(m, n, q);
    }
  }

  lemma ActElsewhere(e: DiskEvent, m: Places, q: Path)
    requires !Concerns(e, q)
    ensures SameAt(Act(e, m), m, q)
  {
  }

  lemma FitsLocally(e: DiskEvent, m: Places, n: Places)
    requires AgreeFor(e, m, n)
    ensures Fits(e, m) <==> Fits(e, n)
  {
    assert SameAt(m, n, Source(e)) by { assert Concerns(e, Source(e)); }
    forall q | Current(e) <= q ensures SameAt(m, n, q) {
      assert Concerns(e, q);
    }
    assert FreeAt(m, Current(e)) <==> FreeAt(n, Current(e)) by {
      assert forall q :: q in m && Current(e) <= q ==> SameAt(m, n, q);
      assert forall q :: q in n && Current(e) <= q ==> SameAt(m, n, q);
    }
  }

  lemma AgreesAt(e: DiskEvent, m: Places, n: Places, q: Path)
    requires AgreeFor(e, m, n) && Concerns(e, q)
    ensures SameAt(m, n, q)
  {
  }

  lemma ActLocally(e: DiskEvent, m: Places, n: Places, q: Path)
    requires AgreeFor(e, m, n) && Concerns(e, q)
    ensures SameAt(Act(e, m), Act(e, n), q)
  {
    hide AgreeFor, FreeAt;
    AgreesAt(e, m, n, q);
    if e.Renamed? && e.after <= q {
      var b, a := e.before, e.after;
      var k := b + q[|a|..];
      assert b <= k;
      AgreesAt(e, m, n, k);
      assert a + k[|b|..] == q;
      assert k in m ==> q in Act(e, m) && Act(e, m)[q] == m[k];
      assert k in n ==> q in Act(e, n) && Act(e, n)[q] == n[k];
    }
  }

  /** Neither path of one event is related to a path of the other. */
  ghost predicate AwayFrom(e: DiskEvent, c: DiskEvent) {
    EventApart(e, Source(c)) && EventApart(e, Current(c))
  }

  lemma AwayMeansElsewhere(e: DiskEvent, c: DiskEvent, q: Path)
    requires AwayFrom(e, c) && Concerns(e, q)
    ensures !Concerns(c, q)
  {
  }

  /** Events away from each other fit and act alike in either order. */
  lemma Commute(e: DiskEvent, c: DiskEvent, m: Places)
    requires AwayFrom(e, c)
    ensures Fits(e, Act(c, m)) <==> Fits(e, m)
    ensures Fits(c, Act(e, m)) <==> Fits(c, m)
    ensures Act(c, Act(e, m)) == Act(e, Act(c, m))
  {
    hide Fits, Act, Concerns, AwayFrom, SameAt;
    forall q | Concerns(e, q) ensures SameAt(Act(c, m), m, q) {
      AwayMeansElsewhere(e, c, q);
      ActElsewhere(c, m, q);
    }
    forall q | Concerns(c, q) ensures !Concerns(e, q) && SameAt(Act(e, m), m, q) {
      if Concerns(e, q) {
        AwayMeansElsewhere(e, c, q);
      }
      ActElsewhere(e, m, q);
    }
    FitsLocally(e, Act(c, m), m);
    FitsLocally(c, Act(e, m), m);
    forall q ensures SameAt(Act(c, Act(e, m)), Act(e, Act(c, m)), q) {
      CommuteAt(e, c, m, q);
    }
    EqualPlaces(Act(c, Act(e, m)), Act(e, Act(c, m)));
  }

  lemma CommuteAt(e: DiskEvent, c: DiskEvent, m: Places, q: Path)
    requires AwayFrom(e, c) && AgreeFor(e, Act(c, m), m) && AgreeFor(c, Act(e, m), m)
    ensures SameAt(Act(c, Act(e, m)), Act(e, Act(c, m)), q)
  {
    hide Act, Concerns, AwayFrom, AgreeFor;
    if Concerns(e, q) {
      AwayMeansElsewhere(e, c, q);
      ActElsewhere(c, Act(e, m), q);
      ActLocally(e, Act(c, m), m, q);
    } else {
      ActElsewhere(e, Act(c, m), q);
      if Concerns(c, q) {
        ActLocally(c, Act(e, m), m, q);
      } else {
        ActElsewhere(c, Act(e, m), q);
        ActElsewhere(e, m, q);
        ActElsewhere(c, m, q);
      }
    }
  }

  ghost predicate AllAway(events: seq<DiskEvent>, c: DiskEvent) {
    forall e :: e in events ==> AwayFrom(e, c)
  }

  /** An event away from a whole series can be taken before it or after it. */
  lemma {:induction false} CommuteSeries(events: seq<DiskEvent>, c: DiskEvent, m: Places)
    requires AllAway(events, c)
    ensures FitAll(events, Act(c, m)) <==> FitAll(events, m)
    ensures Fits(c, ActAll(events, m)) <==> Fits(c, m)
    ensures ActAll(events, Act(c, m)) == Act(c, ActAll(events, m))
    decreases |events|
  {
    hide Fits, Act, AwayFrom;
    if events != [] {
      assert events[0] in events;
      Commute(events[0], c, m);
      CommuteSeries(events[1..], c, Act(events[0], m));
    }
  }

  // ---- Marks do not decide what fits

  lemma KeysDecide(e: DiskEvent, m: Places, n: Places)
    requires m.Keys == n.Keys
    ensures Fits(e, m) <==> Fits(e, n)
    ensures Act(e, m).Keys == Act(e, n).Keys
  {
    forall q ensures q in m <==> q in n {
      assert q in m.Keys <==> q in n.Keys;
    }
    forall q ensures q in Act(e, m) <==> q in Act(e, n) {
    }
  }

  lemma {:induction false} KeysDecideAll(events: seq<DiskEvent>, m: Places, n: Places)
    requires m.Keys == n.Keys
    ensures FitAll(events, m) <==> FitAll(events, n)
    ensures ActAll(events, m).Keys == ActAll(events, n).Keys
    decreases |events|
  {
    hide Fits, Act;
    if events != [] {
      KeysDecide(events[0], m, n);
      KeysDecideAll(events[1..], Act(events[0], m), Act(events[0], n));
    }
  }

  lemma TouchKeepsKeys(m: Places, p: Path)
    ensures Act(DiskEvent.Modified(p), m).Keys == m.Keys
  {
  }
}
