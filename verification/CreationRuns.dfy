/**
 The rounds over a list of new contents: whatever the order of the list, they store
 exactly the grounded contents, level by level, and hand back exactly the others.
 */
module CreationRuns {
  import opened Wrappers
  import opened Forest
  import opened Disk
  import opened DiskState
  import opened DiskIndex
  import opened Operator
  import opened OperateChanges
  import opened Creation

  /** The changes from `i` on whose content is not in `ids`, in their order. */
  ghost function Missing(changes: seq<RemoteChange>, i: nat, ids: set<ContentId>): seq<RemoteChange>
    requires i <= |changes|
    decreases |changes| - i
  {
    if i == |changes| then []
    else if changes[i].id in ids then Missing(changes, i + 1, ids)
    else [changes[i]] + Missing(changes, i + 1, ids)
  }

  lemma {:induction false} MissingMembers(changes: seq<RemoteChange>, i: nat, ids: set<ContentId>)
    requires i <= |changes|
    ensures |Missing(changes, i, ids)| <= |changes| - i
    ensures Missing(changes, i, ids) == [] <==> forall k :: i <= k < |changes| ==> changes[k].id in ids
    ensures forall c :: c in Missing(changes, i, ids) <==> c.id !in ids && exists k :: i <= k < |changes| && changes[k] == c
    decreases |changes| - i
  {
    if i < |changes| {
      MissingMembers(changes, i + 1, ids);
    }
  }

  /** When none has gone, every change is still missing. */
  lemma {:induction false} AllMissing(changes: seq<RemoteChange>, i: nat, ids: set<ContentId>, k: nat)
    requires i <= k < |changes| && |Missing(changes, i, ids)| == |changes| - i
    ensures changes[k].id !in ids
    decreases k - i
  {
    MissingMembers(changes, i + 1, ids);
    if i < k {
      AllMissing(changes, i + 1, ids, k);
    }
  }

  lemma {:induction false} MissingShift(a: seq<RemoteChange>, b: seq<RemoteChange>, i: nat, ids: set<ContentId>)
    requires i <= |b|
    ensures Missing(a + b, |a| + i, ids) == Missing(b, i, ids)
    decreases |b| - i
  {
    if i < |b| {
      assert (a + b)[|a| + i] == b[i];
      MissingShift(a, b, i + 1, ids);
    }
  }

  /** What is missing now is missing among what was missing before. */
  lemma {:induction false} MissingAgain(changes: seq<RemoteChange>, i: nat, ids: set<ContentId>, more: set<ContentId>)
    requires i <= |changes| && ids <= more
    ensures Missing(Missing(changes, i, ids), 0, more) == Missing(changes, i, more)
    decreases |changes| - i
  {
    if i < |changes| {
      MissingAgain(changes, i + 1, ids, more);
      if changes[i].id !in ids {
        MissingShift([changes[i]], Missing(changes, i + 1, ids), 0, more);
      }
    }
  }

  /** What has been created so far. */
  ghost function Done(w0: World, w: World): set<ContentId> {
    w.rows.Keys - w0.rows.Keys
  }

  /** A world on the way from `w0`, with the contents of the list created so far. */
  ghost predicate Underway(w0: World, w: World, all: seq<RemoteChange>, server: Server) {
    Creatable(w0, all, server) && PartlyCreated(w0, w, Listed(all), server, Done(w0, w))
  }

  lemma UnderwayKeys(w0: World, w: World, all: seq<RemoteChange>, server: Server, done: set<ContentId>)
    requires Creatable(w0, all, server) && PartlyCreated(w0, w, Listed(all), server, done)
    ensures done == Done(w0, w) && w.rows.Keys == w0.rows.Keys + done && done <= Listed(all) && Underway(w0, w, all, server)
  {
    hide Target, GroundedSet, DiskTree, DiskHolds, PlacesFit, Sound, PathOf, UniqueSiblings;
    TargetHolds(w0.rows, Listed(all), server);
    assert done == Done(w0, w);
  }

  lemma TickKeeps(w0: World, w: World, all: seq<RemoteChange>, server: Server, clock: nat)
    requires Underway(w0, w, all, server)
    ensures Underway(w0, w.(clock := clock), all, server)
  {
    hide Creatable, Target, GroundedSet, DiskTree, DiskHolds, PlacesFit, Sound, PathOf, UniqueSiblings;
    assert Done(w0, w.(clock := clock)) == Done(w0, w);
  }

  /** One change that is still to do: done now if its parent is stored, put aside otherwise. */
  lemma TryCreates(
    w0: World, w: World, all: seq<RemoteChange>, server: Server, change: RemoteChange, remaining: seq<RemoteChange>,
    oracle: Oracle
  )
    requires Underway(w0, w, all, server) && AllSucceed(oracle, server)
    requires change in all && change.id !in w.rows
    ensures change.id in server
    ensures var (r, now) := Try(w, change, remaining, oracle);
            && Underway(w0, now, all, server)
            && (if ParentStored(w, server[change.id])
                then r == Ok(remaining) && now.rows.Keys == w.rows.Keys + {change.id}
                else r == Ok(remaining + [change]) && now.rows.Keys == w.rows.Keys)
  {
    hide PartlyCreated, OperateOn, Target, GroundedSet, DiskTree, UniqueSiblings, PathOf, Sound;
    var id := change.id;
    assert change.New?;
    assert id in Listed(all);
    UnderwayKeys(w0, w, all, server, Done(w0, w));
    if ParentStored(w, server[id]) {
      CreateReady(w0, w, all, server, Done(w0, w), oracle, id);
      var now := OperateOn(w, EventOf(change), oracle).1;
      UnderwayKeys(w0, now, all, server, Done(w0, w) + {id});
    } else {
      CreateMissing(w0, w, all, server, Done(w0, w), oracle, id);
      TickKeeps(w0, w, all, server, w.clock + 2);
    }
  }

  /** The changes from `i` on are changes of the list, each for a content still to create. */
  ghost predicate StillToDo(changes: seq<RemoteChange>, i: nat, all: seq<RemoteChange>, rows: Rows)
    requires i <= |changes|
  {
    && (forall k :: i <= k < |changes| ==> changes[k] in all && changes[k].id !in rows)
    && (forall j, k :: i <= j < k < |changes| ==> changes[j].id != changes[k].id)
  }

  /** Of the changes from `i` on, at least those whose parent is stored in `w` are stored in `now`; the others follow `remaining`. */
  ghost predicate RoundEnds(
    w: World, now: World, r: Result<seq<RemoteChange>, OperatorError>, changes: seq<RemoteChange>, i: nat,
    remaining: seq<RemoteChange>, server: Server
  )
    requires i <= |changes|
  {
    && w.rows.Keys <= now.rows.Keys <= w.rows.Keys + IdsFrom(changes, i)
    && r == Ok(remaining + Missing(changes, i, now.rows.Keys))
    && (forall k :: i <= k < |changes| && changes[k].id in server && ParentStored(w, server[changes[k].id]) ==>
          changes[k].id in now.rows)
  }

  /**
   A whole round stores every content whose parent was stored when it began, perhaps
   more, and keeps the others in their order.
   */
  lemma {:induction false} RoundCreates(
    w0: World, w: World, all: seq<RemoteChange>, server: Server, changes: seq<RemoteChange>, i: nat,
    remaining: seq<RemoteChange>, oracle: Oracle
  )
    requires Underway(w0, w, all, server) && AllSucceed(oracle, server)
    requires i <= |changes| && StillToDo(changes, i, all, w.rows)
    ensures var (r, now) := Round(w, changes, i, remaining, oracle);
            Underway(w0, now, all, server) && RoundEnds(w, now, r, changes, i, remaining, server)
    decreases |changes| - i
  {
    hide Underway, Try;
    if i < |changes| {
      TryCreates(w0, w, all, server, changes[i], remaining, oracle);
      var (tried, next) := Try(w, changes[i], remaining, oracle);
      RoundCreates(w0, next, all, server, changes, i + 1, tried.value, oracle);
      var now := Round(next, changes, i + 1, tried.value, oracle).1;
      assert IdsFrom(changes, i) == {changes[i].id} + IdsFrom(changes, i + 1);
      assert changes[i].id !in IdsFrom(changes, i + 1);
      var rest := Missing(changes, i + 1, now.rows.Keys);
      assert remaining + [changes[i]] + rest == remaining + ([changes[i]] + rest);
      assert remaining + [] + rest == remaining + rest;
      assert [] + rest == rest;
    } else {
      assert remaining + [] == remaining;
    }
  }

  /** Every grounded content of level at most `k` is stored. */
  ghost predicate StoredUpTo(w0: World, w: World, all: seq<RemoteChange>, server: Server, k: nat) {
    forall id, n: nat :: Level(w0.rows.Keys, Listed(all), server, id, n) && n <= k ==> id in w.rows
  }

  /** No chain of listed parents is longer than `m`. */
  ghost predicate ChainsWithin(w0: World, all: seq<RemoteChange>, server: Server, m: nat) {
    forall id, n: nat :: Level(w0.rows.Keys, Listed(all), server, id, n) ==> n <= m
  }

  /** Of the contents not stored in `w`, those whose parent is stored in `w` are stored in `now`. */
  ghost predicate ReadyOnesStored(w: World, now: World, listed: set<ContentId>, server: Server) {
    forall id :: id in listed && id in server && id !in w.rows && ParentStored(w, server[id]) ==> id in now.rows
  }

  /** A round gains a level. */
  lemma LevelGained(w0: World, w: World, now: World, all: seq<RemoteChange>, server: Server, k: nat)
    requires StoredUpTo(w0, w, all, server, k) && w0.rows.Keys <= w.rows.Keys <= now.rows.Keys
    requires ReadyOnesStored(w, now, Listed(all), server)
    ensures StoredUpTo(w0, now, all, server, k + 1)
  {
    forall id, n: nat | Level(w0.rows.Keys, Listed(all), server, id, n) && n <= k + 1 ensures id in now.rows {
      if n > 1 {
        assert Level(w0.rows.Keys, Listed(all), server, server[id].parent.value, n - 1);
      }
    }
  }

  /** When no content is ready, every grounded one is stored. */
  lemma {:induction false} NoneReady(w0: World, w: World, all: seq<RemoteChange>, server: Server, id: ContentId, n: nat)
    requires w0.rows.Keys <= w.rows.Keys && ReadyOnesStored(w, w, Listed(all), server)
    requires Level(w0.rows.Keys, Listed(all), server, id, n)
    ensures id in w.rows
    decreases n
  {
    if n > 1 {
      NoneReady(w0, w, all, server, server[id].parent.value, n - 1);
    }
  }

  lemma {:induction false} MissingSame(changes: seq<RemoteChange>, i: nat, a: set<ContentId>, b: set<ContentId>)
    requires i <= |changes| && forall k :: i <= k < |changes| ==> (changes[k].id in a <==> changes[k].id in b)
    ensures Missing(changes, i, a) == Missing(changes, i, b)
    decreases |changes| - i
  {
    if i < |changes| {
      MissingSame(changes, i + 1, a, b);
    }
  }

  lemma {:induction false} MissingDistinct(changes: seq<RemoteChange>, i: nat, ids: set<ContentId>)
    requires i <= |changes| && forall j, k :: i <= j < k < |changes| ==> changes[j].id != changes[k].id
    ensures var m := Missing(changes, i, ids); forall j, k :: 0 <= j < k < |m| ==> m[j].id != m[k].id
    decreases |changes| - i
  {
    if i < |changes| {
      MissingDistinct(changes, i + 1, ids);
      MissingMembers(changes, i + 1, ids);
    }
  }

  /** One round over exactly the contents not stored yet. */
  lemma {:induction false} OneRoundCreates(w0: World, w: World, all: seq<RemoteChange>, server: Server, oracle: Oracle)
    requires Underway(w0, w, all, server) && AllSucceed(oracle, server)
    ensures var (r, now) := Round(w, Missing(all, 0, w.rows.Keys), 0, [], oracle);
            && Underway(w0, now, all, server) && w0.rows.Keys <= w.rows.Keys <= now.rows.Keys
            && r == Ok(Missing(all, 0, now.rows.Keys))
            && ReadyOnesStored(w, now, Listed(all), server)
  {
    hide PartlyCreated, Sound, UniqueSiblings, PathOf, Target, GroundedSet, DiskTree, Round, Missing, Agrees;
    var changes := Missing(all, 0, w.rows.Keys);
    UnderwayKeys(w0, w, all, server, Done(w0, w));
    MissingMembers(all, 0, w.rows.Keys);
    MissingDistinct(all, 0, w.rows.Keys);
    assert forall k :: 0 <= k < |changes| ==> changes[k] in changes;
    RoundCreates(w0, w, all, server, changes, 0, [], oracle);
    var now := Round(w, changes, 0, [], oracle).1;
    MissingAgain(all, 0, w.rows.Keys, now.rows.Keys);
    assert [] + Missing(changes, 0, now.rows.Keys) == Missing(changes, 0, now.rows.Keys);
    forall id | id in Listed(all) && id in server && id !in w.rows && ParentStored(w, server[id]) ensures id in now.rows {
      var c :| c in all && c.id == id;
      assert c in changes;
    }
  }

  /** Once nothing is ready any more, what is stored of the list is what is grounded. */
  lemma {:induction false} NoneReadyIsExact(w0: World, w: World, all: seq<RemoteChange>, server: Server)
    requires Underway(w0, w, all, server) && ReadyOnesStored(w, w, Listed(all), server)
    ensures Done(w0, w) == GroundedSet(w0.rows.Keys, Listed(all), server)
    ensures Missing(all, 0, w.rows.Keys) == Missing(all, 0, GroundedSet(w0.rows.Keys, Listed(all), server))
  {
    hide Sound, UniqueSiblings, PathOf, Target, DiskTree, DiskHolds, PlacesFit;
    var grounded := GroundedSet(w0.rows.Keys, Listed(all), server);
    UnderwayKeys(w0, w, all, server, Done(w0, w));
    forall id | id in grounded ensures id in Done(w0, w) {
      var n: nat :| Level(w0.rows.Keys, Listed(all), server, id, n);
      NoneReady(w0, w, all, server, id, n);
    }
    forall k | 0 <= k < |all| ensures all[k].id in w.rows.Keys <==> all[k].id in grounded {
      assert all[k].id in Listed(all);
    }
    MissingSame(all, 0, w.rows.Keys, grounded);
  }

  /** The end of the rounds: what is stored, what is handed back, and after how many rounds. */
  ghost predicate Completed(w0: World, o: Operated, all: seq<RemoteChange>, server: Server, k: nat, m: nat) {
    var grounded := GroundedSet(w0.rows.Keys, Listed(all), server);
    var rest := Missing(all, 0, grounded);
    && PartlyCreated(w0, o.world, Listed(all), server, grounded)
    && o.result == (if rest == [] then Ok(()) else Err(MissingParents(rest)))
    && k + o.rounds <= (if rest == [] then Max(m, k + 1) else Max(m, k) + 1)
  }

  function Max(a: nat, b: nat): nat {
    if a < b then b else a
  }

  lemma {:induction false} RoundsCreate(
    w0: World, w: World, all: seq<RemoteChange>, server: Server, oracle: Oracle, k: nat, m: nat
  )
    requires Underway(w0, w, all, server) && AllSucceed(oracle, server)
    requires StoredUpTo(w0, w, all, server, k) && ChainsWithin(w0, all, server, m)
    ensures Completed(w0, Rounds(w, Missing(all, 0, w.rows.Keys), oracle), all, server, k, m)
    decreases |Missing(all, 0, w.rows.Keys)|
  {
    hide PartlyCreated, Sound, UniqueSiblings, Target, Round, ChainsWithin, Creatable, Missing;
    var changes := Missing(all, 0, w.rows.Keys);
    OneRoundCreates(w0, w, all, server, oracle);
    var now := Round(w, changes, 0, [], oracle).1;
    var remaining := Missing(all, 0, now.rows.Keys);
    MissingAgain(all, 0, w.rows.Keys, now.rows.Keys);
    MissingMembers(changes, 0, now.rows.Keys);
    assert |remaining| <= |changes|;
    LevelGained(w0, w, now, all, server, k);
    if remaining == [] || |remaining| == |changes| {
      RoundsEnd(w0, w, now, all, server);
    } else {
      RoundsCreate(w0, now, all, server, oracle, k + 1, m);
      if m <= k {
        NoGain(w0, w, now, all, server, m);
      } else if m == k + 1 && Missing(all, 0, GroundedSet(w0.rows.Keys, Listed(all), server)) == [] {
        AllLevelsStored(w0, now, all, server, m);
      }
    }
  }

  lemma NoGain(w0: World, w: World, now: World, all: seq<RemoteChange>, server: Server, m: nat)
    requires Underway(w0, now, all, server) && w0.rows.Keys <= w.rows.Keys <= now.rows.Keys
    requires StoredUpTo(w0, w, all, server, m) && ChainsWithin(w0, all, server, m)
    ensures now.rows.Keys == w.rows.Keys
  {
    hide Creatable;
    UnderwayKeys(w0, now, all, server, Done(w0, now));
    forall id | id in Done(w0, now) ensures id in w.rows {
      var n: nat :| Level(w0.rows.Keys, Listed(all), server, id, n);
    }
  }

  lemma NothingStored(w0: World, w: World, now: World, all: seq<RemoteChange>, server: Server)
    requires Underway(w0, now, all, server) && w0.rows.Keys <= w.rows.Keys <= now.rows.Keys
    requires |Missing(all, 0, now.rows.Keys)| == |Missing(all, 0, w.rows.Keys)|
    ensures now.rows.Keys == w.rows.Keys
  {
    hide PartlyCreated, Creatable;
    var changes := Missing(all, 0, w.rows.Keys);
    UnderwayKeys(w0, now, all, server, Done(w0, now));
    MissingMembers(all, 0, w.rows.Keys);
    MissingAgain(all, 0, w.rows.Keys, now.rows.Keys);
    forall id | id in now.rows && id !in w.rows ensures false {
      var c :| c in all && c.id == id;
      assert c in changes;
      var k :| 0 <= k < |changes| && changes[k] == c;
      AllMissing(changes, 0, now.rows.Keys, k);
    }
  }

  lemma AllLevelsStored(w0: World, now: World, all: seq<RemoteChange>, server: Server, m: nat)
    requires StoredUpTo(w0, now, all, server, m) && ChainsWithin(w0, all, server, m)
    requires Missing(all, 0, GroundedSet(w0.rows.Keys, Listed(all), server)) == []
    ensures Missing(all, 0, now.rows.Keys) == []
  {
    var grounded := GroundedSet(w0.rows.Keys, Listed(all), server);
    MissingMembers(all, 0, grounded);
    MissingMembers(all, 0, now.rows.Keys);
    forall k | 0 <= k < |all| ensures all[k].id in now.rows {
      var n: nat :| Level(w0.rows.Keys, Listed(all), server, all[k].id, n);
    }
  }

  /** A round that leaves nothing, or changes nothing, leaves nothing that is ready. */
  lemma RoundsEnd(w0: World, w: World, now: World, all: seq<RemoteChange>, server: Server)
    requires Underway(w0, w, all, server) && Underway(w0, now, all, server)
    requires w0.rows.Keys <= w.rows.Keys <= now.rows.Keys && ReadyOnesStored(w, now, Listed(all), server)
    requires var rest := Missing(all, 0, now.rows.Keys);
             rest == [] || |rest| == |Missing(all, 0, w.rows.Keys)|
    ensures var grounded := GroundedSet(w0.rows.Keys, Listed(all), server);
            && PartlyCreated(w0, now, Listed(all), server, grounded)
            && Missing(all, 0, now.rows.Keys) == Missing(all, 0, grounded)
  {
    hide PartlyCreated, Sound, UniqueSiblings, Target, Creatable, GroundedSet;
    var rest := Missing(all, 0, now.rows.Keys);
    MissingMembers(all, 0, now.rows.Keys);
    if rest != [] {
      NothingStored(w0, w, now, all, server);
    }
    forall id | id in Listed(all) && id in server && ParentStored(now, server[id]) ensures id in now.rows {
      if rest == [] {
        var k :| 0 <= k < |all| && all[k].id == id;
      } else {
        assert ParentStored(w, server[id]);
      }
    }
    NoneReadyIsExact(w0, now, all, server);
  }

  // ---- The main results

  /** Everything is still to do at the start. */
  lemma NothingYet(w0: World, changes: seq<RemoteChange>, server: Server)
    requires Creatable(w0, changes, server)
    ensures Underway(w0, w0, changes, server) && StoredUpTo(w0, w0, changes, server, 0)
    ensures Missing(changes, 0, w0.rows.Keys) == changes
  {
    hide Target, UniqueSiblings, PathOf, Sound, DiskTree, GroundedSet;
    assert Done(w0, w0) == {};
    TargetHolds(w0.rows, Listed(changes), server);
    assert GroundedSet(w0.rows.Keys, Listed(changes), server) - {} == GroundedSet(w0.rows.Keys, Listed(changes), server);
    forall k | 0 <= k < |changes| ensures changes[k].id !in w0.rows {
      assert changes[k].id in Listed(changes);
    }
    MissingNone(changes, 0, w0.rows.Keys);
  }

  lemma {:induction false} MissingNone(changes: seq<RemoteChange>, i: nat, ids: set<ContentId>)
    requires i <= |changes| && forall k :: i <= k < |changes| ==> changes[k].id !in ids
    ensures Missing(changes, i, ids) == changes[i..]
    decreases |changes| - i
  {
    if i < |changes| {
      MissingNone(changes, i + 1, ids);
      assert changes[i..] == [changes[i]] + changes[i + 1..];
    }
  }

  /** Exactly the grounded contents are stored, exactly the others handed back, within the bound on rounds. */
  ghost predicate EndsExactly(w0: World, o: Operated, changes: seq<RemoteChange>, server: Server, longest: nat) {
    var grounded := GroundedSet(w0.rows.Keys, Listed(changes), server);
    && PartlyCreated(w0, o.world, Listed(changes), server, grounded)
    && (o.result.Ok? <==> grounded == Listed(changes))
    && (o.result.Err? ==> o.result.error == MissingParents(Missing(changes, 0, grounded)))
    && o.rounds <= (if o.result.Ok? then Max(longest, 1) else longest + 1)
  }

  /**
   Creating a list of contents: in the end exactly the grounded ones are stored, each at
   its place in the target, beside everything that was there. The call succeeds exactly
   when all are grounded; otherwise it hands back exactly the others, in their original
   order. It takes at most as many rounds as the longest chain of listed parents, and
   one more to find out that nothing moves any more.
   */
  lemma {:induction false} RetryIsExact(w0: World, changes: seq<RemoteChange>, server: Server, oracle: Oracle, longest: nat)
    requires Creatable(w0, changes, server) && AllSucceed(oracle, server)
    requires ChainsWithin(w0, changes, server, longest)
    ensures EndsExactly(w0, Rounds(w0, changes, oracle), changes, server, longest)
  {
    hide PartlyCreated, Creatable, Target, Rounds;
    NothingYet(w0, changes, server);
    RoundsCreate(w0, w0, changes, server, oracle, 0, longest);
    var grounded := GroundedSet(w0.rows.Keys, Listed(changes), server);
    MissingMembers(changes, 0, grounded);
    forall k | 0 <= k < |changes| && grounded == Listed(changes) ensures changes[k].id in grounded {
      assert changes[k].id in Listed(changes);
    }
    if Missing(changes, 0, grounded) == [] {
      assert forall id :: id in Listed(changes) ==> id in grounded;
    }
  }

  /** With every parent stored or listed and no cycle among the listed contents, all are grounded. */
  lemma {:induction false} AcyclicIsGrounded(
    stored: set<ContentId>, listed: set<ContentId>, server: Server, id: ContentId, tree: Tree
  )
    requires listed <= server.Keys && listed !! stored && id in listed
    requires forall x :: x in listed && server[x].parent.Some? ==> server[x].parent.value in stored + listed
    requires Acyclic(tree) && forall x :: x in listed ==> x in tree && tree[x] == NodeOf(server[x])
    ensures Grounded(stored, listed, server, id)
    decreases Depth(tree, id)
  {
    var parent := server[id].parent;
    if parent.None? || parent.value in stored {
      assert Level(stored, listed, server, id, 1);
    } else {
      DepthStep(tree, id);
      AcyclicIsGrounded(stored, listed, server, parent.value, tree);
      var n: nat :| Level(stored, listed, server, parent.value, n);
      assert Level(stored, listed, server, id, n + 1);
    }
  }

  /** Same contents at the same places; only timestamps may differ. */
  ghost predicate SameButDates(a: Rows, b: Rows) {
    && a.Keys == b.Keys
    && forall id :: id in a ==> a[id].path == b[id].path && a[id].revision == b[id].revision && a[id].parent == b[id].parent
  }

  lemma SameRows(w0: World, a: World, b: World, listed: set<ContentId>, server: Server, done: set<ContentId>)
    requires PartlyCreated(w0, a, listed, server, done) && PartlyCreated(w0, b, listed, server, done)
    ensures SameButDates(a.rows, b.rows)
  {
    hide Target, GroundedSet, DiskTree, DiskHolds, PlacesFit, Sound;
  }

  lemma SameDisk(before: Disk, a: Disk, b: Disk, rows: Rows, other: Rows, server: Server, done: set<ContentId>)
    requires done <= server.Keys && done <= rows.Keys && SameButDates(rows, other)
    requires DiskHolds(before, a, rows, server, done) && DiskHolds(before, b, other, server, done)
    ensures a == b
  {
    forall q ensures q in a ==> q in b && a[q] == b[q] {
    }
    forall q ensures q in b ==> q in a {
    }
  }

  lemma CountTwo(s: seq<RemoteChange>, i: nat, j: nat)
    requires i < j < |s| && s[i] == s[j]
    ensures multiset(s)[s[i]] >= 2
  {
    assert s == s[..j] + s[j..];
    assert s[i] == s[..j][i] && s[j] == s[j..][0];
  }

  lemma TwiceInSeq(s: seq<RemoteChange>, c: RemoteChange) returns (i: nat, j: nat)
    requires multiset(s)[c] >= 2
    ensures i < j < |s| && s[i] == c && s[j] == c
  {
    assert c in multiset(s);
    i :| i < |s| && s[i] == c;
    assert s == s[..i] + [c] + s[i + 1..];
    assert c in multiset(s[..i]) || c in multiset(s[i + 1..]);
    if c in s[..i] {
      var k: nat :| k < i && s[k] == c;
      i, j := k, i;
    } else {
      var k: nat :| k < |s| - i - 1 && s[i + 1..][k] == c;
      j := i + 1 + k;
    }
  }

  /** Any order of the same changes can be created as well. */
  lemma AnyOrder(w0: World, a: seq<RemoteChange>, b: seq<RemoteChange>, server: Server)
    requires Creatable(w0, a, server) && multiset(a) == multiset(b)
    ensures Creatable(w0, b, server) && Listed(a) == Listed(b)
  {
    hide Target, GroundedSet, UniqueSiblings, PathOf, Sound, DiskTree;
    forall c ensures c in a <==> c in b {
      assert c in a <==> c in multiset(a);
      assert c in b <==> c in multiset(b);
    }
    assert Listed(a) == Listed(b);
    forall i, j | 0 <= i < j < |b| ensures b[i].id != b[j].id {
      if b[i].id == b[j].id {
        assert b[i] in b && b[j] in b;
        var p: nat :| p < |a| && a[p] == b[i];
        var q: nat :| q < |a| && a[q] == b[j];
        assert p == q;
        CountTwo(b, i, j);
        var k, l := TwiceInSeq(a, b[i]);
      }
    }
  }

  /** Whatever the order of the list, the same contents end up at the same places. */
  lemma {:induction false} OrderDoesNotMatter(
    w0: World, a: seq<RemoteChange>, b: seq<RemoteChange>, server: Server, oracleA: Oracle, oracleB: Oracle, longest: nat
  )
    requires Creatable(w0, a, server) && multiset(a) == multiset(b)
    requires AllSucceed(oracleA, server) && AllSucceed(oracleB, server) && ChainsWithin(w0, a, server, longest)
    ensures var x, y := Rounds(w0, a, oracleA), Rounds(w0, b, oracleB);
            && (x.result.Ok? <==> y.result.Ok?)
            && SameButDates(x.world.rows, y.world.rows) && x.world.disk == y.world.disk
  {
    hide Creatable, Target, GroundedSet, Rounds, DiskHolds, PlacesFit, DiskTree, SameButDates;
    AnyOrder(w0, a, b, server);
    RetryIsExact(w0, a, server, oracleA, longest);
    RetryIsExact(w0, b, server, oracleB, longest);
    var x, y := Rounds(w0, a, oracleA).world, Rounds(w0, b, oracleB).world;
    var grounded := GroundedSet(w0.rows.Keys, Listed(a), server);
    SameRows(w0, x, y, Listed(a), server, grounded);
    TargetHolds(w0.rows, Listed(a), server);
    SameDisk(w0.disk, x.disk, y.disk, x.rows, y.rows, server, grounded);
  }
}
