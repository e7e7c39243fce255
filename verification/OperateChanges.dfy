/**
 Applying the changes computed at startup: a content whose parent is not there yet is
 tried again after the others, until a whole round brings no progress.
 */
module OperateChanges {
  import opened Wrappers
  import opened Forest
  import opened DiskState
  import opened Executors
  import opened Operator

  datatype RemoteChange =
    | New(id: ContentId, path: Path)
    | Disappear(id: ContentId, path: Path)
    | Updated(id: ContentId, path: Path)

  function EventOf(c: RemoteChange): (e: Event)
    ensures e.Remote?
  {
    match c
    case New(id, _) => Remote(RemoteEvent.Created(id))
    case Disappear(id, _) => Remote(RemoteEvent.Deleted(id))
    case Updated(id, _) => Remote(RemoteEvent.Updated(id))
  }

  ghost function Listed(changes: seq<RemoteChange>): set<ContentId> {
    set c | c in changes :: c.id
  }

  ghost function IdsFrom(changes: seq<RemoteChange>, i: nat): set<ContentId> {
    set k | i <= k < |changes| :: changes[k].id
  }

  datatype ChangesError = Aborted(error: OperatorError) | MissingParents(changes: seq<RemoteChange>)

  predicate LacksParent(r: Result<(), OperatorError>) {
    r.Err? && r.error.ExecutorFailed? && r.error.reason.MissingParent?
  }

  /** One change: done, or put with the remaining ones because its parent is missing, or an error that stops everything. */
  ghost function Try(w: World, change: RemoteChange, remaining: seq<RemoteChange>, oracle: Oracle)
    : (r: (Result<seq<RemoteChange>, OperatorError>, World))
    ensures r.0.Ok? ==> |r.0.value| <= |remaining| + 1
  {
    var (r, now) := OperateOn(w, EventOf(change), oracle);
    (if r.Ok? then Ok(remaining) else if LacksParent(r) then Ok(remaining + [change]) else Err(r.error), now)
  }

  /** One round, from change `i` on. */
  ghost function Round(w: World, changes: seq<RemoteChange>, i: nat, remaining: seq<RemoteChange>, oracle: Oracle)
    : (r: (Result<seq<RemoteChange>, OperatorError>, World))
    requires i <= |changes|
    ensures r.0.Ok? ==> |r.0.value| <= |remaining| + |changes| - i
    decreases |changes| - i
  {
    if i == |changes| then (Ok(remaining), w)
    else
      var (r, now) := Try(w, changes[i], remaining, oracle);
      if r.Ok? then Round(now, changes, i + 1, r.value, oracle) else (r, now)
  }

  datatype Operated = Operated(result: Result<(), ChangesError>, world: World, rounds: nat)

  /** Rounds follow each other as long as each one gets something done: the list shortens every time. */
  ghost function Rounds(w: World, changes: seq<RemoteChange>, oracle: Oracle): Operated
    decreases |changes|
  {
    var (r, now) := Round(w, changes, 0, [], oracle);
    match r
    case Err(error) => Operated(Err(Aborted(error)), now, 1)
    case Ok(remaining) =>
      if remaining == [] then Operated(Ok(()), now, 1)
      else if |remaining| == |changes| then Operated(Err(MissingParents(remaining)), now, 1)
      else
        var o := Rounds(now, remaining, oracle);
        o.(rounds := o.rounds + 1)
  }

  /** Each retry works on a strictly shorter list, so there are at most as many rounds as changes. */
  lemma {:induction false} RetriesShorten(w: World, changes: seq<RemoteChange>, oracle: Oracle)
    ensures var o := Rounds(w, changes, oracle);
            && 1 <= o.rounds <= (if changes == [] then 1 else |changes|)
            && (o.result.Err? && o.result.error.MissingParents? ==> 0 < |o.result.error.changes| <= |changes| - (o.rounds - 1))
    decreases |changes|
  {
    hide Round;
    var (r, now) := Round(w, changes, 0, [], oracle);
    if r.Ok? && r.value != [] && |r.value| != |changes| {
      RetriesShorten(now, r.value, oracle);
    }
  }

  class OperateChanges {
    var changes: seq<RemoteChange>

    constructor (changes: seq<RemoteChange>)
      ensures this.changes == changes
    {
      this.changes := changes;
    }

    static method TryOne(operator: Operator, change: RemoteChange, remaining: seq<RemoteChange>)
      returns (r: Result<seq<RemoteChange>, OperatorError>)
      requires Sound(operator.state.rows)
      modifies operator, operator.state
      ensures (r, operator.Now()) == Try(old(operator.Now()), change, remaining, operator.oracle)
      ensures Sound(operator.state.rows)
    {
      var operated := operator.OperateRemote(EventOf(change).event);
      if operated.Ok? {
        r := Ok(remaining);
      } else if LacksParent(operated) {
        r := Ok(remaining + [change]);
      } else {
        r := Err(operated.error);
      }
    }

    /** Operates every change once and returns those whose parent is missing. */
    method OneRound(operator: Operator) returns (r: Result<seq<RemoteChange>, OperatorError>)
      requires Sound(operator.state.rows)
      modifies operator, operator.state
      ensures (r, operator.Now()) == Round(old(operator.Now()), changes, 0, [], operator.oracle)
      ensures Sound(operator.state.rows)
    {
      hide OperateOn;
      var remainingChanges: seq<RemoteChange> := [];
      for i := 0 to |changes|
        invariant Sound(operator.state.rows)
        invariant Round(old(operator.Now()), changes, 0, [], operator.oracle) ==
                  Round(operator.Now(), changes, i, remainingChanges, operator.oracle)
      {
        r := TryOne(operator, changes[i], remainingChanges);
        if r.Err? {
          return;
        }
        remainingChanges := r.value;
      }
      r := Ok(remainingChanges);
    }

    method Operate(operator: Operator) returns (r: Result<(), ChangesError>)
      requires Sound(operator.state.rows)
      modifies this, operator, operator.state
      ensures var o := Rounds(old(operator.Now()), old(changes), operator.oracle);
              r == o.result && operator.Now() == o.world
      ensures Sound(operator.state.rows)
    {
      ghost var all := Rounds(operator.Now(), changes, operator.oracle);
      while true
        invariant Sound(operator.state.rows)
        invariant all.result == Rounds(operator.Now(), changes, operator.oracle).result
        invariant all.world == Rounds(operator.Now(), changes, operator.oracle).world
        decreases |changes|
      {
        var round := OneRound(operator);
        if round.Err? {
          return Err(Aborted(round.error));
        }
        var remainingChanges := round.value;
        if remainingChanges == [] {
          return Ok(());
        } else if |remainingChanges| == |changes| {
          return Err(MissingParents(remainingChanges));
        }
        changes := remainingChanges;
      }
    }
  }
}
