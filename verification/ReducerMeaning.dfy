/**
 What the reduced events mean. A mirror records where each file is and whether its
 bytes still have to be uploaded; raw events and handed-out events both act on it.
 Renaming or deleting a folder acts on everything below it.
 */
module ReducerMeaning {
  import opened Wrappers
  import opened Forest
  import opened Reducer
  import opened ReducerQueue

  datatype File = File(path: Path, dirty: bool)

  /** Files by identity; `next` numbers the next file created. */
  datatype Mirror = Mirror(files: map<nat, File>, next: nat)

  ghost predicate Apart(p: Path, q: Path) {
    !(p <= q) && !(q <= p)
  }

  ghost predicate Free(m: map<nat, File>, p: Path) {
    forall id :: id in m ==> !(p <= m[id].path)
  }

  ghost predicate Present(m: map<nat, File>, p: Path) {
    exists id :: id in m && m[id].path == p
  }

  /** Where a path ends up when `before` becomes `after`. */
  ghost function Moved(p: Path, before: Path, after: Path): Path {
    if before <= p then after + p[|before|..] else p
  }

  /** The event fits the mirror: created paths and rename targets are free, the other paths present. */
  ghost predicate Ready(e: DiskEvent, s: Mirror) {
    match e
    case Created(p) => Free(s.files, p)
    case Renamed(b, a) => Present(s.files, b) && Free(s.files, a) && !(b <= a)
    case _ => Present(s.files, e.path)
  }

  ghost function Apply(e: DiskEvent, s: Mirror): Mirror {
    match e
    case Deleted(p) => s.(files := Without(s.files, p))
    case Created(p) => Mirror(s.files[s.next := File(p, true)], s.next + 1)
    case Modified(p) => s.(files := Touched(s.files, p))
    case Renamed(b, a) => s.(files := Relocated(s.files, b, a))
  }

  ghost function Without(m: map<nat, File>, p: Path): map<nat, File> {
    map id | id in m && !(p <= m[id].path) :: m[id]
  }

  ghost function Touched(m: map<nat, File>, p: Path): map<nat, File> {
    map id | id in m :: if m[id].path == p then File(p, true) else m[id]
  }

  ghost function Relocated(m: map<nat, File>, before: Path, after: Path): map<nat, File> {
    map id | id in m :: File(Moved(m[id].path, before, after), m[id].dirty)
  }

  ghost function Run(events: seq<DiskEvent>, s: Mirror): Mirror
    decreases |events|
  {
    if events == [] then s else Run(events[1..], Apply(events[0], s))
  }

  ghost predicate RunReady(events: seq<DiskEvent>, s: Mirror)
    decreases |events|
  {
    events == [] || (Ready(events[0], s) && RunReady(events[1..], Apply(events[0], s)))
  }

  /** The remote calls made for a handed-out event: the stored path finds the file, the event tells its new place. */
  ghost function Steps(w: DiskEventWrap): seq<DiskEvent> {
    match w.event
    case Deleted(_) => [DiskEvent.Deleted(w.stored)]
    case Created(p) => [DiskEvent.Created(p)]
    case Modified(p) => [DiskEvent.Modified(w.stored)] + Naming(w.stored, p)
    case Renamed(_, a) => Naming(w.stored, a)
  }

  ghost function Naming(stored: Path, p: Path): seq<DiskEvent> {
    if stored == p then [] else [DiskEvent.Renamed(stored, p)]
  }

  ghost predicate FreshNumber(s: Mirror) {
    forall id :: id in s.files ==> id < s.next
  }

  ghost predicate WellFormed(s: Mirror) {
    && FreshNumber(s)
    && (forall a, b :: a in s.files && b in s.files && s.files[a].path == s.files[b].path ==> a == b)
  }

  lemma ReadyKeepsWellFormed(e: DiskEvent, s: Mirror)
    requires WellFormed(s) && Ready(e, s)
    ensures WellFormed(Apply(e, s))
  {
    if e.Renamed? {
      var t := Apply(e, s);
      forall x, y | x in t.files && y in t.files && t.files[x].path == t.files[y].path ensures x == y {
        MovedInjective(s.files[x].path, s.files[y].path, e.before, e.after);
      }
    }
  }

  lemma MovedInjective(p: Path, q: Path, before: Path, after: Path)
    requires Moved(p, before, after) == Moved(q, before, after)
    requires !(after <= p) && !(after <= q)
    ensures p == q
  {
    if before <= p && before <= q {
      assert p == before + p[|before|..] && q == before + q[|before|..];
      assert (after + p[|before|..])[|after|..] == p[|before|..];
      assert (after + q[|before|..])[|after|..] == q[|before|..];
    }
  }

  // ---- Two mirrors that differ by the place of the followed file

  /**
   `r` is `s` with everything at or below `t` moved to `f`; the followed file `h` is
   at `t` in `s`, and `lost` tells that an upload of it is missing in `r`.
   */
  ghost predicate Shifted(s: Mirror, r: Mirror, h: nat, t: Path, f: Path, lost: bool) {
    && SameBut(s, r, h, lost, t, f)
    && h in s.files && s.files[h].path == t
    && (t == f || (Apart(t, f) && Free(s.files, f)))
    && FreshNumber(s)
  }

  ghost predicate SameBut(s: Mirror, r: Mirror, h: nat, lost: bool, t: Path, f: Path) {
    && r.next == s.next && h < s.next
    && r.files.Keys == s.files.Keys
    && forall id :: id in s.files ==>
         && r.files[id].path == Moved(s.files[id].path, t, f)
         && (s.files[id].dirty <==> r.files[id].dirty || (lost && id == h))
  }

  lemma MovedNowhere(p: Path, t: Path)
    ensures Moved(p, t, t) == p
  {
    if t <= p {
      assert t + p[|t|..] == p;
    }
  }

  /** Moving twice is moving once. */
  lemma MovedTwice(p: Path, t: Path, u: Path, f: Path)
    requires !(u <= p)
    ensures Moved(Moved(p, t, u), u, f) == Moved(p, t, f)
  {
    if t <= p {
      assert (u + p[|t|..])[|u|..] == p[|t|..];
    }
  }

  /** A path apart from both places sees the same files below it. */
  lemma MovedApart(p: Path, x: Path, t: Path, f: Path)
    requires Apart(x, t) && Apart(x, f)
    ensures x <= Moved(p, t, f) <==> x <= p
    ensures x == Moved(p, t, f) <==> x == p
    ensures x <= p ==> Moved(p, t, f) == p
  {
    if t <= p {
      var q := f + p[|t|..];
      PrefixesCompare(x, t, p);
      assert f <= q;
      PrefixesCompare(x, f, q);
    }
  }

  lemma PrefixesCompare(x: Path, y: Path, p: Path)
    requires Apart(x, y) && y <= p
    ensures !(x <= p)
  {
  }

  lemma MovesCommute(p: Path, x: Path, y: Path, t: Path, f: Path)
    requires Apart(x, t) && Apart(x, f) && Apart(y, t) && Apart(y, f)
    ensures Moved(Moved(p, x, y), t, f) == Moved(Moved(p, t, f), x, y)
  {
    MovedApart(p, x, t, f);
    MovedApart(p, t, x, y);
    if x <= p {
      PrefixesCompare(t, x, p);
      PrefixesCompare(t, y, y + p[|x|..]);
    }
  }

  ghost predicate EventApart(e: DiskEvent, p: Path) {
    Apart(Source(e), p) && Apart(Current(e), p)
  }

  /** Both mirrors have the same files at and below `x`. */
  ghost predicate SameBelow(s: Mirror, r: Mirror, x: Path) {
    forall id :: id in s.files ==>
      && id in r.files
      && (x <= r.files[id].path <==> x <= s.files[id].path)
      && (x == r.files[id].path <==> x == s.files[id].path)
  }

  lemma ApartMeansSameBelow(s: Mirror, r: Mirror, h: nat, t: Path, f: Path, lost: bool, x: Path)
    requires SameBut(s, r, h, lost, t, f) && Apart(x, t) && Apart(x, f)
    ensures SameBelow(s, r, x)
  {
    forall id | id in s.files
      ensures x <= r.files[id].path <==> x <= s.files[id].path
      ensures x == r.files[id].path <==> x == s.files[id].path
    {
      MovedApart(s.files[id].path, x, t, f);
    }
  }

  lemma SkippedReady(e: DiskEvent, s: Mirror, r: Mirror)
    requires SameBelow(s, r, Source(e)) && SameBelow(s, r, Current(e)) && s.files.Keys == r.files.Keys
    ensures Ready(e, s) ==> Ready(e, r)
  {
    if Ready(e, s) && !e.Created? {
      var id :| id in s.files && s.files[id].path == Source(e);
      assert id in r.files && r.files[id].path == Source(e);
    }
  }

  /** An event away from both places acts alike on both mirrors. */
  lemma {:induction false} SkippedStep(e: DiskEvent, s: Mirror, r: Mirror, h: nat, t: Path, f: Path, lost: bool)
    requires Shifted(s, r, h, t, f, lost) && Ready(e, s)
    requires EventApart(e, t) && EventApart(e, f)
    ensures Ready(e, r)
    ensures Shifted(Apply(e, s), Apply(e, r), h, t, f, lost)
  {
    var x, y := Source(e), Current(e);
    ApartMeansSameBelow(s, r, h, t, f, lost, x);
    ApartMeansSameBelow(s, r, h, t, f, lost, y);
    SkippedReady(e, s, r);
    match e
    case Created(p) => SkippedCreation(s, r, h, t, f, lost, p);
    case Renamed(_, _) => SkippedRename(s, r, h, t, f, lost, x, y);
    case Deleted(p) => SkippedDeletion(s, r, h, t, f, lost, p);
    case Modified(p) => SkippedTouch(s, r, h, t, f, lost, p);
  }

  lemma SkippedCreation(s: Mirror, r: Mirror, h: nat, t: Path, f: Path, lost: bool, p: Path)
    requires Shifted(s, r, h, t, f, lost) && Apart(p, t) && Apart(p, f)
    ensures Shifted(Apply(DiskEvent.Created(p), s), Apply(DiskEvent.Created(p), r), h, t, f, lost)
  {
    assert Moved(p, t, f) == p;
    assert s.next !in s.files;
  }

  lemma SkippedDeletion(s: Mirror, r: Mirror, h: nat, t: Path, f: Path, lost: bool, p: Path)
    requires Shifted(s, r, h, t, f, lost) && Apart(p, t) && Apart(p, f)
    requires SameBelow(s, r, p)
    ensures Shifted(Apply(DiskEvent.Deleted(p), s), Apply(DiskEvent.Deleted(p), r), h, t, f, lost)
  {
    assert Without(r.files, p).Keys == Without(s.files, p).Keys;
  }

  lemma SkippedTouch(s: Mirror, r: Mirror, h: nat, t: Path, f: Path, lost: bool, p: Path)
    requires Shifted(s, r, h, t, f, lost) && Apart(p, t) && Apart(p, f)
    requires SameBelow(s, r, p)
    ensures Shifted(Apply(DiskEvent.Modified(p), s), Apply(DiskEvent.Modified(p), r), h, t, f, lost)
  {
    var m, n := Touched(s.files, p), Touched(r.files, p);
    forall id | id in m
      ensures m[id].path == s.files[id].path && n[id].path == r.files[id].path
      ensures m[id].dirty <==> n[id].dirty || (lost && id == h)
    {
      assert p == s.files[id].path <==> p == r.files[id].path;
    }
    SamePlaces(s, r, h, t, f, lost, m, n);
  }

  /** Marking files for upload moves nothing. */
  lemma SamePlaces(
    s: Mirror, r: Mirror, h: nat, t: Path, f: Path, lost: bool, m: map<nat, File>, n: map<nat, File>
  )
    requires Shifted(s, r, h, t, f, lost)
    requires m.Keys == n.Keys == s.files.Keys
    requires forall id :: id in m ==>
               && m[id].path == s.files[id].path && n[id].path == r.files[id].path
               && (m[id].dirty <==> n[id].dirty || (lost && id == h))
    ensures Shifted(s.(files := m), r.(files := n), h, t, f, lost)
  {
  }

  lemma {:induction false} SkippedRename(s: Mirror, r: Mirror, h: nat, t: Path, f: Path, lost: bool, x: Path, y: Path)
    requires Shifted(s, r, h, t, f, lost)
    requires Apart(x, t) && Apart(x, f) && Apart(y, t) && Apart(y, f)
    ensures Shifted(Apply(DiskEvent.Renamed(x, y), s), Apply(DiskEvent.Renamed(x, y), r), h, t, f, lost)
  {
    var m, n := Relocated(s.files, x, y), Relocated(r.files, x, y);
    forall id | id in m ensures n[id].path == Moved(m[id].path, t, f) {
      MovesCommute(s.files[id].path, x, y, t, f);
    }
    StillFree(s.files, f, x, y);
    assert m[h].path == t;
  }

  lemma StillFree(m: map<nat, File>, f: Path, x: Path, y: Path)
    requires Apart(f, x) && Apart(f, y)
    ensures Free(Relocated(m, x, y), f) <==> Free(m, f)
  {
    forall id | id in m ensures f <= Moved(m[id].path, x, y) <==> f <= m[id].path {
      MovedApart(m[id].path, f, x, y);
    }
    forall id | id in m ensures f <= Relocated(m, x, y)[id].path <==> f <= m[id].path {
    }
    if Free(Relocated(m, x, y), f) {
      forall id | id in m ensures !(f <= m[id].path) {
        assert id in Relocated(m, x, y);
      }
    }
  }

  /** Following one rename of the file itself keeps the two mirrors related. */
  lemma AbsorbedRename(s: Mirror, r: Mirror, h: nat, t: Path, u: Path, f: Path, lost: bool)
    requires Shifted(s, r, h, t, f, lost) && Ready(DiskEvent.Renamed(t, u), s)
    requires u == f || Apart(u, f)
    ensures Shifted(Apply(DiskEvent.Renamed(t, u), s), r, h, u, f, lost)
  {
    var m := Relocated(s.files, t, u);
    forall id | id in m ensures r.files[id].path == Moved(m[id].path, u, f) {
      MovedTwice(s.files[id].path, t, u, f);
    }
    assert m[h].path == u;
    if u != f {
      FreeAfterOwn(s.files, t, u, f);
    }
  }

  lemma FreeAfterOwn(m: map<nat, File>, t: Path, u: Path, f: Path)
    requires Apart(u, f) && (t == f || Free(m, f))
    ensures Free(Relocated(m, t, u), f)
  {
    forall id | id in m ensures !(f <= Moved(m[id].path, t, u)) {
      if t <= m[id].path {
        PrefixesCompare(f, u, u + m[id].path[|t|..]);
      }
    }
  }

  lemma AbsorbedTouch(s: Mirror, r: Mirror, h: nat, t: Path, f: Path, lost: bool, now: bool)
    requires Shifted(s, r, h, t, f, lost) && WellFormed(s)
    requires now || r.files[h].dirty
    requires lost ==> now
    ensures Shifted(Apply(DiskEvent.Modified(t), s), r, h, t, f, now)
  {
    assert forall id :: id in s.files && s.files[id].path == t ==> id == h;
  }

  /** The same files at the same places; only an upload of `h` may be missing in `r`. */
  ghost predicate Alike(s: Mirror, r: Mirror, h: nat, lost: bool) {
    && r.next == s.next && h < s.next
    && r.files.Keys == s.files.Keys
    && forall id :: id in s.files ==>
         && r.files[id].path == s.files[id].path
         && (s.files[id].dirty <==> r.files[id].dirty || (lost && id == h))
  }

  /** Once the file is at its final place, every event acts alike. */
  lemma SettledStep(e: DiskEvent, s: Mirror, r: Mirror, h: nat, lost: bool)
    requires Alike(s, r, h, lost) && Ready(e, s)
    ensures Ready(e, r)
    ensures Alike(Apply(e, s), Apply(e, r), h, lost)
  {
    if !e.Created? {
      var id :| id in s.files && s.files[id].path == Source(e);
      assert id in r.files && r.files[id].path == Source(e);
    }
    if e.Deleted? {
      assert Without(r.files, e.path).Keys == Without(s.files, e.path).Keys;
    }
  }

  lemma {:induction false} SettledRun(events: seq<DiskEvent>, s: Mirror, r: Mirror, h: nat, lost: bool)
    requires Alike(s, r, h, lost) && RunReady(events, s)
    ensures RunReady(events, r)
    ensures Alike(Run(events, s), Run(events, r), h, lost)
    decreases |events|
  {
    if events != [] {
      SettledStep(events[0], s, r, h, lost);
      SettledRun(events[1..], Apply(events[0], s), Apply(events[0], r), h, lost);
    }
  }

  // ---- Which queues keep their meaning

  ghost predicate Uncancelled(head: DiskEvent, rest: seq<DiskEvent>)
    decreases |rest|
  {
    rest == [] ||
    match React(head, rest[0])
    case Keep => Uncancelled(head, rest[1..])
    case Becomes(event) => Uncancelled(event, rest[1..])
    case Cancel => false
  }

  /** What the head has become at the end of the queue. */
  ghost function Final(head: DiskEvent, rest: seq<DiskEvent>): DiskEvent
    requires Uncancelled(head, rest)
    decreases |rest|
  {
    if rest == [] then head
    else
      match React(head, rest[0])
      case Keep => Final(head, rest[1..])
      case Becomes(event) => Final(event, rest[1..])
  }

  ghost function LeftOver(head: DiskEvent, rest: seq<DiskEvent>): seq<DiskEvent>
    requires Uncancelled(head, rest)
    decreases |rest|
  {
    if rest == [] then []
    else
      match React(head, rest[0])
      case Keep => [rest[0]] + LeftOver(head, rest[1..])
      case Becomes(event) => LeftOver(event, rest[1..])
  }

  lemma {:induction false} ScanUncancelled(head: DiskEventWrap, rest: seq<DiskEvent>, kept: seq<DiskEvent>)
    requires Uncancelled(head.event, rest)
    ensures Scan(head, rest, kept) ==
            (Some(DiskEventWrap(head.stored, Final(head.event, rest))), kept + LeftOver(head.event, rest))
    decreases |rest|
  {
    if rest == [] {
      assert kept + [] == kept;
    } else {
      match React(head.event, rest[0])
      case Keep =>
        ScanUncancelled(head, rest[1..], kept + [rest[0]]);
        assert kept + [rest[0]] + LeftOver(head.event, rest[1..]) ==
               kept + ([rest[0]] + LeftOver(head.event, rest[1..]));
      case Becomes(event) =>
        ScanUncancelled(DiskEventWrap(head.stored, event), rest[1..], kept);
    }
  }

  /** Nothing more is absorbed. */
  ghost predicate Steady(head: DiskEvent, rest: seq<DiskEvent>)
    decreases |rest|
  {
    rest == [] || (React(head, rest[0]) == Keep && Steady(head, rest[1..]))
  }

  lemma {:induction false} SteadyIsFinal(head: DiskEvent, rest: seq<DiskEvent>)
    requires Steady(head, rest)
    ensures Uncancelled(head, rest) && Final(head, rest) == head && LeftOver(head, rest) == rest
    decreases |rest|
  {
    if rest != [] {
      SteadyIsFinal(head, rest[1..]);
    }
  }

  lemma {:induction false} DeletedIsSteady(head: DiskEvent, rest: seq<DiskEvent>)
    requires head.Deleted?
    ensures Steady(head, rest)
    decreases |rest|
  {
    if rest != [] {
      DeletedIsSteady(head, rest[1..]);
    }
  }

  /** A place of the file is its last one or away from it. */
  ghost predicate OnTheWay(p: Path, final: DiskEvent) {
    final.Deleted? || p == Current(final) || Apart(p, Current(final))
  }

  /**
   Every event skipped before the last absorbed one is away from the file's place at
   that moment and, unless the file ends deleted, from its last place.
   */
  ghost predicate Undisturbed(head: DiskEvent, rest: seq<DiskEvent>, final: DiskEvent)
    decreases |rest|
  {
    Steady(head, rest) ||
    match React(head, rest[0])
    case Keep =>
      && EventApart(rest[0], Current(head))
      && (final.Deleted? || EventApart(rest[0], Current(final)))
      && Undisturbed(head, rest[1..], final)
    case Becomes(event) =>
      OnTheWay(Current(event), final) && Undisturbed(event, rest[1..], final)
    case Cancel => false
  }

  /** A modification is absorbed by a rename and its upload forgotten. */
  ghost predicate LosesUpload(head: DiskEvent, rest: seq<DiskEvent>)
    requires Uncancelled(head, rest)
    decreases |rest|
  {
    && rest != []
    && !Final(head, rest).Deleted?
    && match React(head, rest[0])
       case Keep => LosesUpload(head, rest[1..])
       case Becomes(event) => (head.Renamed? && rest[0].Modified?) || LosesUpload(event, rest[1..])
  }

  // ---- The followed file is still present at the end

  /** The last place of the file is free from the start. */
  lemma {:induction false} LastPlaceFree(head: DiskEvent, rest: seq<DiskEvent>, s: Mirror)
    requires Uncancelled(head, rest) && !Final(head, rest).Deleted?
    requires OnTheWay(Current(head), Final(head, rest)) && Undisturbed(head, rest, Final(head, rest))
    requires RunReady(rest, s) && WellFormed(s)
    ensures Current(head) == Current(Final(head, rest)) || Free(s.files, Current(Final(head, rest)))
    decreases |rest|
  {
    var t, f := Current(head), Current(Final(head, rest));
    if Steady(head, rest) {
      SteadyIsFinal(head, rest);
    } else {
      var e := rest[0];
      ReadyKeepsWellFormed(e, s);
      match React(head, e)
      case Keep =>
        LastPlaceFree(head, rest[1..], Apply(e, s));
        if t != f {
          FreeBefore(e, s, f);
        }
      case Becomes(event) =>
        if event.Deleted? {
          DeletedIsSteady(event, rest[1..]);
          SteadyIsFinal(event, rest[1..]);
        } else {
          LastPlaceFree(event, rest[1..], Apply(e, s));
          if t != f && Current(event) != f {
            FreeBeforeOwn(e, s, t, f);
          }
        }
    }
  }

  lemma FreeBefore(e: DiskEvent, s: Mirror, f: Path)
    requires EventApart(e, f) && Ready(e, s) && Free(Apply(e, s).files, f)
    requires FreshNumber(s)
    ensures Free(s.files, f)
  {
    if e.Renamed? {
      StillFree(s.files, f, e.before, e.after);
    } else {
      forall id | id in s.files ensures !(f <= s.files[id].path) {
        if e.Deleted? && e.path <= s.files[id].path {
          PrefixesCompare(f, e.path, s.files[id].path);
        } else {
          assert id in Apply(e, s).files;
        }
      }
    }
  }

  lemma FreeBeforeOwn(e: DiskEvent, s: Mirror, t: Path, f: Path)
    requires Source(e) == t && (e.Renamed? || e.Modified?) && Apart(t, f) && Free(Apply(e, s).files, f)
    ensures Free(s.files, f)
  {
    forall id | id in s.files ensures !(f <= s.files[id].path) {
      assert id in Apply(e, s).files;
      if t <= s.files[id].path {
        PrefixesCompare(f, t, s.files[id].path);
      }
    }
  }

  /** `r` already has the file of `head` at its last place `f`; a creation or modification is already uploaded. */
  ghost predicate Ahead(head: DiskEvent, s: Mirror, r: Mirror, h: nat, f: Path, lost: bool) {
    Shifted(s, r, h, Current(head), f, lost) && WellFormed(s) && (!head.Renamed? ==> r.files[h].dirty)
  }

  lemma {:induction false} AheadSkipped(head: DiskEvent, e: DiskEvent, s: Mirror, r: Mirror, h: nat, f: Path, lost: bool)
    requires Ahead(head, s, r, h, f, lost) && Ready(e, s)
    requires EventApart(e, Current(head)) && EventApart(e, f)
    ensures Ready(e, r) && Ahead(head, Apply(e, s), Apply(e, r), h, f, lost)
  {
    SkippedStep(e, s, r, h, Current(head), f, lost);
    ReadyKeepsWellFormed(e, s);
  }

  lemma {:induction false} AheadAbsorbed(head: DiskEvent, e: DiskEvent, s: Mirror, r: Mirror, h: nat, f: Path, lost: bool)
    requires Ahead(head, s, r, h, f, lost) && Ready(e, s)
    requires React(head, e).Becomes? && !e.Deleted?
    requires Current(React(head, e).event) == f || Apart(Current(React(head, e).event), f)
    ensures Ahead(React(head, e).event, Apply(e, s), r, h, f, lost || (head.Renamed? && e.Modified?))
  {
    ReadyKeepsWellFormed(e, s);
    if e.Renamed? {
      AbsorbedRename(s, r, h, Current(head), e.after, f, lost);
    } else {
      AbsorbedTouch(s, r, h, Current(head), f, lost, lost || head.Renamed?);
    }
  }

  lemma {:induction false} Pursue(head: DiskEvent, rest: seq<DiskEvent>, s: Mirror, r: Mirror, h: nat, lost: bool)
    requires Uncancelled(head, rest) && !Final(head, rest).Deleted?
    requires Undisturbed(head, rest, Final(head, rest)) && RunReady(rest, s)
    requires Ahead(head, s, r, h, Current(Final(head, rest)), lost)
    ensures RunReady(LeftOver(head, rest), r)
    ensures Alike(Run(rest, s), Run(LeftOver(head, rest), r), h, lost || LosesUpload(head, rest))
    decreases |rest|
  {
    var f := Current(Final(head, rest));
    if Steady(head, rest) {
      SteadyIsFinal(head, rest);
      SteadyLosesNothing(head, rest);
      ArrivedIsAlike(s, r, h, f, lost);
      SettledRun(rest, s, r, h, lost);
    } else {
      var e := rest[0];
      match React(head, e)
      case Keep =>
        AheadSkipped(head, e, s, r, h, f, lost);
        Pursue(head, rest[1..], Apply(e, s), Apply(e, r), h, lost);
        assert LeftOver(head, rest)[1..] == LeftOver(head, rest[1..]);
      case Becomes(event) =>
        if event.Deleted? {
          DeletedIsSteady(event, rest[1..]);
          SteadyIsFinal(event, rest[1..]);
        } else {
          AheadAbsorbed(head, e, s, r, h, f, lost);
          Pursue(event, rest[1..], Apply(e, s), r, h, lost || (head.Renamed? && e.Modified?));
        }
    }
  }

  lemma ArrivedIsAlike(s: Mirror, r: Mirror, h: nat, t: Path, lost: bool)
    requires Shifted(s, r, h, t, t, lost)
    ensures Alike(s, r, h, lost)
  {
    forall id | id in s.files ensures r.files[id].path == s.files[id].path {
      MovedNowhere(s.files[id].path, t);
    }
  }

  lemma {:induction false} SteadyLosesNothing(head: DiskEvent, rest: seq<DiskEvent>)
    requires Steady(head, rest) && Uncancelled(head, rest)
    ensures !LosesUpload(head, rest)
    decreases |rest|
  {
    if rest != [] {
      SteadyLosesNothing(head, rest[1..]);
    }
  }

  // ---- The followed file is deleted in the end

  lemma {:induction false} PursueDeleted(head: DiskEvent, rest: seq<DiskEvent>, s: Mirror, r: Mirror)
    requires Uncancelled(head, rest) && Final(head, rest).Deleted? && !head.Deleted?
    requires Undisturbed(head, rest, Final(head, rest))
    requires RunReady(rest, s)
    requires r == s.(files := Without(s.files, Current(head)))
    ensures RunReady(LeftOver(head, rest), r)
    ensures Run(LeftOver(head, rest), r) == Run(rest, s)
    decreases |rest|
  {
    if Steady(head, rest) {
      SteadyIsFinal(head, rest);
    } else {
      var e, t := rest[0], Current(head);
      match React(head, e)
      case Keep =>
        AwayFromDeleted(e, s, t);
        PursueDeleted(head, rest[1..], Apply(e, s), Apply(e, r));
        assert LeftOver(head, rest)[1..] == LeftOver(head, rest[1..]);
      case Becomes(event) =>
        if event.Deleted? {
          DeletedIsSteady(event, rest[1..]);
          SteadyIsFinal(event, rest[1..]);
        } else {
          DeletedElsewhere(e, s, t);
          PursueDeleted(event, rest[1..], Apply(e, s), r);
        }
    }
  }

  lemma ReadyAway(e: DiskEvent, s: Mirror, t: Path)
    requires EventApart(e, t) && Ready(e, s)
    ensures Ready(e, s.(files := Without(s.files, t)))
  {
    if !e.Created? {
      var id :| id in s.files && s.files[id].path == Source(e);
      assert id in Without(s.files, t);
    }
  }

  /** An event away from the deleted file does not care whether it happens before or after the deletion. */
  lemma AwayFromDeleted(e: DiskEvent, s: Mirror, t: Path)
    requires EventApart(e, t) && Ready(e, s)
    ensures var r := s.(files := Without(s.files, t));
            Ready(e, r) && Apply(e, r) == Apply(e, s).(files := Without(Apply(e, s).files, t))
  {
    hide Moved, Ready;
    ReadyAway(e, s, t);
    if e.Renamed? {
      forall id | id in s.files ensures t <= Moved(s.files[id].path, e.before, e.after) <==> t <= s.files[id].path {
        MovedApart(s.files[id].path, t, e.before, e.after);
      }
    }
    assert Apply(e, s.(files := Without(s.files, t))).files == Without(Apply(e, s).files, t);
  }

  /** Deleting the file where it was or where it went is the same. */
  lemma DeletedElsewhere(e: DiskEvent, s: Mirror, t: Path)
    requires Source(e) == t && (e.Renamed? || e.Modified?) && Ready(e, s)
    ensures Without(Apply(e, s).files, Current(e)) == Without(s.files, t)
  {
    forall id | id in s.files && !(t <= s.files[id].path) ensures Apply(e, s).files[id] == s.files[id] {
    }
  }

  // ---- The main results

  lemma {:induction false} KindKept(head: DiskEvent, rest: seq<DiskEvent>)
    requires Uncancelled(head, rest)
    ensures var final := Final(head, rest);
            final.Deleted? || (head.Created? && final.Created?) || (head.Modified? && final.Modified?) ||
            (head.Renamed? && final.Renamed?)
    decreases |rest|
  {
    if rest != [] {
      match React(head, rest[0])
      case Keep => KindKept(head, rest[1..]);
      case Becomes(event) => KindKept(event, rest[1..]);
    }
  }

  /** The identity of the file the head is about. */
  ghost function HeadId(head: DiskEvent, s: Mirror): nat
    requires Ready(head, s)
  {
    if head.Created? then s.next else var id :| id in s.files && s.files[id].path == Source(head); id
  }

  ghost predicate StartsFree(head: DiskEvent, s: Mirror, f: Path) {
    Source(head) == f || (Apart(Source(head), f) && Free(s.files, f))
  }

  lemma RunOne(e: DiskEvent, s: Mirror)
    ensures Run([e], s) == Apply(e, s)
    ensures RunReady([e], s) <==> Ready(e, s)
  {
    assert [e][1..] == [];
  }

  lemma RunTwo(d: DiskEvent, e: DiskEvent, s: Mirror)
    ensures Run([d] + [e], s) == Apply(e, Apply(d, s))
    ensures RunReady([d] + [e], s) <==> Ready(d, s) && Ready(e, Apply(d, s))
  {
    assert ([d] + [e])[1..] == [e];
    RunOne(e, Apply(d, s));
  }

  /** `m` is the mirror once the file at `t`, if it has to move, is renamed to its last place. */
  lemma Named(s: Mirror, h: nat, t: Path, f: Path)
    requires FreshNumber(s) && h in s.files && s.files[h].path == t
    requires t == f || (Apart(t, f) && Free(s.files, f))
    ensures RunReady(Naming(t, f), s)
    ensures Shifted(s, Run(Naming(t, f), s), h, t, f, false)
    ensures Run(Naming(t, f), s).files[h].dirty == s.files[h].dirty
  {
    if t == f {
      forall id | id in s.files ensures Moved(s.files[id].path, t, f) == s.files[id].path {
        MovedNowhere(s.files[id].path, t);
      }
    } else {
      RunOne(DiskEvent.Renamed(t, f), s);
    }
  }

  /** Handing out the head at its last place, against the raw head alone. */
  lemma Start(head: DiskEvent, final: DiskEvent, s: Mirror)
    requires WellFormed(s) && Ready(head, s)
    requires (head.Created? && final.Created?) || (head.Modified? && final.Modified?) ||
             (head.Renamed? && final.Renamed?)
    requires StartsFree(head, s, Current(final)) && OnTheWay(Current(head), final)
    ensures var w := DiskEventWrap(Source(head), final);
            && RunReady(Steps(w), s)
            && Shifted(Apply(head, s), Run(Steps(w), s), HeadId(head, s), Current(head), Current(final), false)
            && (!head.Renamed? ==> Run(Steps(w), s).files[HeadId(head, s)].dirty)
  {
    var t, f, h := Source(head), Current(final), HeadId(head, s);
    match head
    case Created(_) => StartCreated(s, t, f);
    case Modified(_) =>
      var s1 := Apply(head, s);
      Named(s1, h, t, f);
      assert ([head] + Naming(t, f))[1..] == Naming(t, f);
    case Renamed(_, _) =>
      Named(s, h, t, f);
      AbsorbedRename(s, Run(Naming(t, f), s), h, t, head.after, f, false);
  }

  lemma StartCreated(s: Mirror, t: Path, f: Path)
    requires FreshNumber(s) && Free(s.files, t) && (t == f || (Apart(t, f) && Free(s.files, f)))
    ensures RunReady([DiskEvent.Created(f)], s)
    ensures Shifted(Apply(DiskEvent.Created(t), s), Run([DiskEvent.Created(f)], s), s.next, t, f, false)
    ensures Run([DiskEvent.Created(f)], s).files[s.next].dirty
  {
    RunOne(DiskEvent.Created(f), s);
    assert Moved(t, t, f) == f;
    forall id | id in s.files ensures Moved(s.files[id].path, t, f) == s.files[id].path {
    }
  }

  ghost predicate UndisturbedQueue(queue: seq<DiskEvent>)
    requires queue != [] && Uncancelled(queue[0], queue[1..])
  {
    var final := Final(queue[0], queue[1..]);
    && OnTheWay(Source(queue[0]), final)
    && OnTheWay(Current(queue[0]), final)
    && Undisturbed(queue[0], queue[1..], final)
  }

  /** The calls made for the handed-out event fit the mirror, and so do the events left in the queue after them. */
  ghost predicate ReducedReady(queue: seq<DiskEvent>, s: Mirror) {
    var (event, left) := Reduce(queue);
    if event.None? then RunReady(left, s)
    else RunReady(Steps(event.value), s) && RunReady(left, Run(Steps(event.value), s))
  }

  ghost function RunReduced(queue: seq<DiskEvent>, s: Mirror): Mirror {
    var (event, left) := Reduce(queue);
    Run(left, if event.Some? then Run(Steps(event.value), s) else s)
  }

  /** How the raw events and the reduced ones compare: only the upload of the head's file may differ. */
  ghost predicate SameMeaning(queue: seq<DiskEvent>, s: Mirror)
    requires queue != [] && Uncancelled(queue[0], queue[1..]) && Ready(queue[0], s)
  {
    var raw, reduced := Run(queue, s), RunReduced(queue, s);
    if LosesUpload(queue[0], queue[1..]) then Alike(raw, reduced, HeadId(queue[0], s), true)
    else reduced == raw
  }

  lemma AlikeIsEqual(s: Mirror, r: Mirror, h: nat)
    requires Alike(s, r, h, false)
    ensures s == r
  {
    forall id | id in s.files ensures s.files[id] == r.files[id] {
      assert s.files[id].path == r.files[id].path;
    }
    assert s.files == r.files;
  }

  lemma ReduceUncancelled(queue: seq<DiskEvent>)
    requires queue != [] && Uncancelled(queue[0], queue[1..])
    ensures Reduce(queue) ==
            (Some(DiskEventWrap(Source(queue[0]), Final(queue[0], queue[1..]))), LeftOver(queue[0], queue[1..]))
  {
    ScanUncancelled(Wrap(queue[0]), queue[1..], []);
    assert [] + LeftOver(queue[0], queue[1..]) == LeftOver(queue[0], queue[1..]);
  }

  lemma KeepsMeaningDeleted(queue: seq<DiskEvent>, s: Mirror)
    requires queue != [] && WellFormed(s) && RunReady(queue, s)
    requires Uncancelled(queue[0], queue[1..]) && Final(queue[0], queue[1..]).Deleted?
    requires UndisturbedQueue(queue)
    ensures ReducedReady(queue, s) && RunReduced(queue, s) == Run(queue, s)
  {
    var head, rest := queue[0], queue[1..];
    ReduceUncancelled(queue);
    KindKept(head, rest);
    var r := Apply(DiskEvent.Deleted(Source(head)), s);
    RunOne(DiskEvent.Deleted(Source(head)), s);
    if head.Deleted? {
      DeletedIsSteady(head, rest);
      SteadyIsFinal(head, rest);
    } else if head.Created? {
      CreatedNeverDeleted(head, rest);
    } else {
      DeletedElsewhere(head, s, Source(head));
      PursueDeleted(head, rest, Apply(head, s), r);
    }
  }

  lemma {:induction false} CreatedNeverDeleted(head: DiskEvent, rest: seq<DiskEvent>)
    requires Uncancelled(head, rest) && head.Created?
    ensures Final(head, rest).Created?
    decreases |rest|
  {
    if rest != [] {
      match React(head, rest[0])
      case Keep => CreatedNeverDeleted(head, rest[1..]);
      case Becomes(event) => CreatedNeverDeleted(event, rest[1..]);
    }
  }

  lemma {:induction false} KeepsUploads(head: DiskEvent, rest: seq<DiskEvent>)
    requires Uncancelled(head, rest)
    ensures LosesUpload(head, rest) ==> head.Renamed?
    decreases |rest|
  {
    if rest != [] {
      match React(head, rest[0])
      case Keep => KeepsUploads(head, rest[1..]);
      case Becomes(event) => KeepsUploads(event, rest[1..]);
    }
  }

  /**
   Reducing keeps the meaning of the queue: when no event skipped before the last
   absorbed one interferes with the head's file, the handed-out event followed by the
   queue left behind brings the mirror where the raw events bring it. The one thing
   that can be missing is an upload absorbed by a rename, which cannot happen to a head
   that began as a creation or a modification.
   */
  lemma {:induction false} ReducingKeepsMeaning(queue: seq<DiskEvent>, s: Mirror)
    requires queue != [] && WellFormed(s) && RunReady(queue, s)
    requires Uncancelled(queue[0], queue[1..]) && UndisturbedQueue(queue)
    ensures ReducedReady(queue, s)
    ensures SameMeaning(queue, s)
    ensures queue[0].Created? || queue[0].Modified? ==> RunReduced(queue, s) == Run(queue, s)
  {
    KeepsUploads(queue[0], queue[1..]);
    var head, rest := queue[0], queue[1..];
    var final := Final(head, rest);
    if final.Deleted? {
      KeepsMeaningDeleted(queue, s);
    } else {
      ReduceUncancelled(queue);
      KindKept(head, rest);
      var s1 := Apply(head, s);
      ReadyKeepsWellFormed(head, s);
      LastPlaceFree(head, rest, s1);
      var f, h := Current(final), HeadId(head, s);
      if Source(head) != f {
        FreeAtStart(head, s, f);
      }
      Start(head, final, s);
      var r := Run(Steps(DiskEventWrap(Source(head), final)), s);
      Pursue(head, rest, s1, r, h, false);
      if !LosesUpload(head, rest) {
        AlikeIsEqual(Run(rest, s1), Run(LeftOver(head, rest), r), h);
      }
    }
  }

  lemma FreeAtStart(head: DiskEvent, s: Mirror, f: Path)
    requires WellFormed(s) && Ready(head, s) && !head.Deleted? && Apart(Source(head), f)
    requires Current(head) == f || Free(Apply(head, s).files, f)
    ensures Free(s.files, f)
  {
    if head.Created? {
      forall id | id in s.files ensures !(f <= s.files[id].path) {
        assert id in Apply(head, s).files;
      }
    } else if Current(head) != f {
      FreeBeforeOwn(head, s, Source(head), f);
    }
  }

  // ---- The condition is exact

  /** Any two of the paths are equal or unrelated: no event concerns a folder and something inside it. */
  ghost predicate Flat(paths: set<Path>) {
    forall p, q :: p in paths && q in paths ==> p == q || Apart(p, q)
  }

  ghost predicate Within(e: DiskEvent, paths: set<Path>) {
    Source(e) in paths && Current(e) in paths
  }

  ghost predicate AllWithin(events: seq<DiskEvent>, paths: set<Path>)
    decreases |events|
  {
    events == [] || (Within(events[0], paths) && AllWithin(events[1..], paths))
  }

  lemma {:induction false} FinalWithin(head: DiskEvent, rest: seq<DiskEvent>, paths: set<Path>)
    requires Uncancelled(head, rest) && Within(head, paths) && AllWithin(rest, paths)
    ensures Within(Final(head, rest), paths)
    decreases |rest|
  {
    if rest != [] {
      match React(head, rest[0])
      case Keep => FinalWithin(head, rest[1..], paths);
      case Becomes(event) => FinalWithin(event, rest[1..], paths);
    }
  }

  /** A skipped event that fits both mirrors touches neither place of the file. */
  lemma SkippedIsApart(head: DiskEvent, e: DiskEvent, s: Mirror, r: Mirror, h: nat, f: Path, lost: bool, paths: set<Path>)
    requires Ahead(head, s, r, h, f, lost) && Ready(e, s) && Ready(e, r)
    requires React(head, e) == Keep && !head.Deleted?
    requires Flat(paths) && Within(e, paths) && Current(head) in paths && f in paths
    ensures EventApart(e, Current(head)) && EventApart(e, f)
  {
    var t := Current(head);
    assert t <= s.files[h].path;
    assert r.files[h].path == f + t[|t|..] == f;
    assert Current(e) != t;
    assert Current(e) != f || !(e.Created? || e.Renamed?);
  }

  lemma {:induction false} DisturbedFails(
    head: DiskEvent, rest: seq<DiskEvent>, s: Mirror, r: Mirror, h: nat, lost: bool, paths: set<Path>
  )
    requires Uncancelled(head, rest) && !Final(head, rest).Deleted?
    requires RunReady(rest, s) && RunReady(LeftOver(head, rest), r)
    requires Ahead(head, s, r, h, Current(Final(head, rest)), lost)
    requires Flat(paths) && Within(head, paths) && AllWithin(rest, paths)
    ensures Undisturbed(head, rest, Final(head, rest))
    decreases |rest|
  {
    if head.Deleted? {
      DeletedIsSteady(head, rest);
    } else if !Steady(head, rest) {
      var e, f := rest[0], Current(Final(head, rest));
      FinalWithin(head, rest, paths);
      match React(head, e)
      case Keep =>
        assert LeftOver(head, rest)[1..] == LeftOver(head, rest[1..]);
        SkippedIsApart(head, e, s, r, h, f, lost, paths);
        AheadSkipped(head, e, s, r, h, f, lost);
        DisturbedFails(head, rest[1..], Apply(e, s), Apply(e, r), h, lost, paths);
      case Becomes(event) =>
        if event.Deleted? {
          DeletedIsSteady(event, rest[1..]);
          SteadyIsFinal(event, rest[1..]);
        } else {
          assert Within(event, paths) && f in paths;
          AheadAbsorbed(head, e, s, r, h, f, lost);
          DisturbedFails(event, rest[1..], Apply(e, s), r, h, lost || (head.Renamed? && e.Modified?), paths);
        }
    }
  }

  lemma {:induction false} DeletedUndisturbed(head: DiskEvent, rest: seq<DiskEvent>, s: Mirror, paths: set<Path>)
    requires Uncancelled(head, rest) && Final(head, rest).Deleted?
    requires WellFormed(s) && RunReady(rest, s) && (head.Deleted? || Present(s.files, Current(head)))
    requires Flat(paths) && Within(head, paths) && AllWithin(rest, paths)
    ensures Undisturbed(head, rest, Final(head, rest))
    decreases |rest|
  {
    if head.Deleted? {
      DeletedIsSteady(head, rest);
    } else if !Steady(head, rest) {
      var e, t := rest[0], Current(head);
      var id :| id in s.files && s.files[id].path == t;
      ReadyKeepsWellFormed(e, s);
      match React(head, e)
      case Keep =>
        assert Source(e) in paths && Current(e) in paths && t in paths;
        assert t <= s.files[id].path;
        assert EventApart(e, t);
        if e.Deleted? {
          assert id in Apply(e, s).files;
        }
        assert Apply(e, s).files[id].path == t;
        DeletedUndisturbed(head, rest[1..], Apply(e, s), paths);
      case Becomes(event) =>
        if event.Deleted? {
          DeletedIsSteady(event, rest[1..]);
        } else {
          assert Apply(e, s).files[id].path == Current(event);
          DeletedUndisturbed(event, rest[1..], Apply(e, s), paths);
        }
    }
  }

  /** A call sequence that fits finds the last place free, or the file already there. */
  lemma StepsNeedFree(head: DiskEvent, final: DiskEvent, s: Mirror)
    requires WellFormed(s) && Ready(head, s)
    requires (head.Created? && final.Created?) || (head.Modified? && final.Modified?) ||
             (head.Renamed? && final.Renamed?)
    requires Source(head) == Current(final) || Apart(Source(head), Current(final))
    requires RunReady(Steps(DiskEventWrap(Source(head), final)), s)
    ensures StartsFree(head, s, Current(final))
  {
    var t, f := Source(head), Current(final);
    if t != f {
      match head
      case Created(_) => RunOne(DiskEvent.Created(f), s);
      case Modified(_) =>
        RunTwo(head, DiskEvent.Renamed(t, f), s);
        forall id | id in s.files ensures !(f <= s.files[id].path) {
          assert Apply(head, s).files[id].path == s.files[id].path;
        }
      case Renamed(_, _) => RunOne(DiskEvent.Renamed(t, f), s);
    }
  }

  /**
   On queues that do not mix a folder with its inside, the condition is exact: the
   reduced events fit the mirror if and only if the queue is undisturbed.
   */
  lemma {:induction false} UndisturbedIsExact(queue: seq<DiskEvent>, s: Mirror, paths: set<Path>)
    requires queue != [] && WellFormed(s) && RunReady(queue, s) && Uncancelled(queue[0], queue[1..])
    requires Flat(paths) && AllWithin(queue, paths)
    ensures ReducedReady(queue, s) <==> UndisturbedQueue(queue)
  {
    var head, rest := queue[0], queue[1..];
    var final := Final(head, rest);
    FinalWithin(head, rest, paths);
    KindKept(head, rest);
    ReduceUncancelled(queue);
    ReadyKeepsWellFormed(head, s);
    assert Source(head) in paths && Current(head) in paths && Current(final) in paths;
    if UndisturbedQueue(queue) {
      ReducingKeepsMeaning(queue, s);
    }
    if final.Deleted? {
      PresentAfter(head, s);
      DeletedUndisturbed(head, rest, Apply(head, s), paths);
    } else if ReducedReady(queue, s) {
      StepsNeedFree(head, final, s);
      Start(head, final, s);
      var w := DiskEventWrap(Source(head), final);
      DisturbedFails(head, rest, Apply(head, s), Run(Steps(w), s), HeadId(head, s), false, paths);
    }
  }

  lemma PresentAfter(head: DiskEvent, s: Mirror)
    requires WellFormed(s) && Ready(head, s)
    ensures head.Deleted? || Present(Apply(head, s).files, Current(head))
  {
    if !head.Deleted? {
      assert Apply(head, s).files[HeadId(head, s)].path == Current(head);
    }
  }

  /** Every call made while the queue drains finds its queue uncancelled and undisturbed. */
  ghost predicate AlwaysUndisturbed(queue: seq<DiskEvent>)
    decreases |queue|
  {
    queue != [] ==>
      && Uncancelled(queue[0], queue[1..])
      && UndisturbedQueue(queue)
      && !LosesUpload(queue[0], queue[1..])
      && (EveryCallShortens(queue); AlwaysUndisturbed(Reduce(queue).1))
  }

  ghost function RunHanded(handed: seq<DiskEventWrap>, s: Mirror): Mirror
    decreases |handed|
  {
    if handed == [] then s else RunHanded(handed[1..], Run(Steps(handed[0]), s))
  }

  lemma ReadyRunWellFormed(events: seq<DiskEvent>, s: Mirror)
    requires WellFormed(s) && RunReady(events, s)
    ensures WellFormed(Run(events, s))
    decreases |events|
  {
    if events != [] {
      ReadyKeepsWellFormed(events[0], s);
      ReadyRunWellFormed(events[1..], Apply(events[0], s));
    }
  }

  /** Draining the whole queue brings the mirror exactly where the raw events bring it. */
  lemma {:induction false} DrainingKeepsMeaning(queue: seq<DiskEvent>, s: Mirror)
    requires WellFormed(s) && RunReady(queue, s) && AlwaysUndisturbed(queue)
    ensures RunHanded(Drain(queue), s) == Run(queue, s)
    decreases |queue|
  {
    if queue != [] {
      ReducingKeepsMeaning(queue, s);
      ReduceUncancelled(queue);
      EveryCallShortens(queue);
      var (event, left) := Reduce(queue);
      ReadyRunWellFormed(Steps(event.value), s);
      DrainingKeepsMeaning(left, Run(Steps(event.value), s));
      assert Drain(queue)[1..] == Drain(left);
    }
  }

  // ---- Queues whose meaning is lost

  /** A modification absorbed by a rename: the new bytes are never uploaded. */
  lemma UploadLost()
    ensures var queue := [DiskEvent.Renamed(["a"], ["b"]), DiskEvent.Modified(["b"])];
            var s := Mirror(map[0 := File(["a"], false)], 1);
            && WellFormed(s) && RunReady(queue, s) && Uncancelled(queue[0], queue[1..])
            && Run(queue, s).files == map[0 := File(["b"], true)]
            && RunReduced(queue, s).files == map[0 := File(["b"], false)]
  {
    var queue := [DiskEvent.Renamed(["a"], ["b"]), DiskEvent.Modified(["b"])];
    var s := Mirror(map[0 := File(["a"], false)], 1);
    Singletons("a", "b");
    var s1 := Apply(queue[0], s);
    assert s.files[0].path == ["a"];
    assert s1.files == map[0 := File(["b"], false)];
    assert s1.files[0].path == ["b"];
    assert Ready(queue[0], s) && Ready(queue[1], s1);
    assert queue == [queue[0]] + [queue[1]];
    RunTwo(queue[0], queue[1], s);
    assert Apply(queue[1], s1).files == map[0 := File(["b"], true)];
    assert queue[1..] == [queue[1]] && [queue[1]][1..] == [];
    assert React(queue[0], queue[1]) == Becomes(queue[0]);
    ReduceUncancelled(queue);
    assert Reduce(queue) == (Some(DiskEventWrap(["a"], queue[0])), []);
    RunOne(queue[0], s);
  }

  lemma Singletons(x: Name, y: Name)
    requires x != y
    ensures Apart([x], [y])
    ensures Moved([x], [x], [y]) == [y]
  {
    assert [x][0] != [y][0];
    assert [y] + [x][1..] == [y];
  }

  /** After a cancellation the next event overtakes the creation of its own file, so its call cannot succeed. */
  lemma CancellationOvertakes()
    ensures var a, b := DiskEvent.Created(["a"]), DiskEvent.Created(["b"]);
            var queue := [a, b, DiskEvent.Deleted(["a"]), DiskEvent.Modified(["b"])];
            && RunReady(queue, Mirror(map[], 0))
            && Reduce(queue) == (Some(DiskEventWrap(["b"], DiskEvent.Modified(["b"]))), [b])
            && !ReducedReady(queue, Mirror(map[], 0))
  {
    var a, b, c, d := DiskEvent.Created(["a"]), DiskEvent.Created(["b"]), DiskEvent.Deleted(["a"]), DiskEvent.Modified(["b"]);
    var queue := [a, b, c, d];
    Singletons("a", "b");
    var s0 := Mirror(map[], 0);
    var s1, s2 := Apply(a, s0), Apply(b, Apply(a, s0));
    assert s2.files[0].path == ["a"] && s2.files[1].path == ["b"];
    assert Apply(c, s2).files[1].path == ["b"];
    assert queue[1..][1..] == [c, d] && [c, d][1..] == [d] && [d][1..] == [];
    assert queue[1..] == [b, c, d] && [b, c, d][1..] == [c, d];
    assert RunReady([d], Apply(c, s2));
    assert RunReady([c, d], s2);
    assert Scan(Wrap(a), [c, d], [b]) == Scan(Wrap(d), [c, d][2..], [b]);
    assert [] + [b] == [b];
    assert Reduce(queue) == Scan(Wrap(a), [c, d], [b]);
    assert Steps(Wrap(d)) == [d] by { assert [d] + [] == [d]; }
  }
}
