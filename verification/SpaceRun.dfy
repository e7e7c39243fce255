/** The loop around one synchronized space: after a failure the user may have a content ignored and the space restarted. */
module SpaceRun {
  import opened Wrappers
  import opened Text
  import opened Ignore

  datatype Decision = RestartSpaceSync | IgnoreAndRestart(id: I32) | Disconnected

  datatype Ending = Finished | ConnectionError | Failure(decision: Decision)

  /** What one turn meets: whether the ignore file can be read and written, how the runner ends, and the stop signal. */
  datatype Turn = Turn(readable: bool, ending: Ending, writable: bool, stop: bool)

  datatype RunError = Unreadable | Interrupted

  /**
   Every turn before `n` lets the loop come to the next one: its ignore file is readable,
   and it ends with a connection error, or without a stop signal either finished or with
   a failure for which the user decided something.
   */
  ghost predicate Comes(turns: seq<Turn>, n: nat, channels: bool)
    requires n <= |turns|
  {
    forall j :: 0 <= j < n ==>
      && turns[j].readable
      && (turns[j].ending.ConnectionError? ||
          (!turns[j].stop &&
           (turns[j].ending.Finished? || (channels && turns[j].ending.Failure? && !turns[j].ending.decision.Disconnected?))))
  }

  /** The loop comes to turn `i`, and there the user has a content ignored and the file can be written. */
  ghost predicate Chosen(turns: seq<Turn>, i: nat, channels: bool)
    requires i < |turns|
  {
    && Comes(turns, i, channels)
    && turns[i].readable && turns[i].writable && channels
    && turns[i].ending.Failure? && turns[i].ending.decision.IgnoreAndRestart?
  }

  /** `picks` are the positions before `n` at which an id is chosen, in order. */
  ghost predicate Picks(picks: seq<nat>, turns: seq<Turn>, n: nat, channels: bool)
    requires n <= |turns|
  {
    && (forall i :: i in picks <==> 0 <= i < n && Chosen(turns, i, channels))
    && (forall a, b :: 0 <= a < b < |picks| ==> picks[a] < picks[b])
  }

  /** The ids chosen at these positions. */
  ghost function IdsAt(turns: seq<Turn>, picks: seq<nat>): seq<I32>
    requires forall i :: i in picks ==> i < |turns| && turns[i].ending.Failure? && turns[i].ending.decision.IgnoreAndRestart?
  {
    seq(|picks|, k requires 0 <= k < |picks| => assert picks[k] in picks; turns[picks[k]].ending.decision.id)
  }

  /** How the loop ends: with an unreadable file, with a failure that nobody can decide about, or otherwise well. */
  ghost predicate Ends(turns: seq<Turn>, channels: bool, r: Result<(), RunError>) {
    match r
    case Err(Unreadable) => exists n :: 0 <= n < |turns| && Comes(turns, n, channels) && !turns[n].readable
    case Err(Interrupted) =>
      exists n :: 0 <= n < |turns| && Comes(turns, n, channels) && turns[n].readable && turns[n].ending.Failure? && !channels
    case Ok(_) =>
      forall n :: 0 <= n < |turns| && Comes(turns, n, channels) ==>
        turns[n].readable && (turns[n].ending.Failure? ==> channels)
  }

  function ReadFile(file: Option<string>): ReadOutcome {
    if file.Some? then Read(file.value) else NotFound
  }

  /** The file holds exactly these contents. */
  ghost predicate Holds(file: Option<string>, ids: seq<I32>) {
    if file.None? then ids == [] else file.value == Render(ids)
  }

  lemma Reading(file: Option<string>, ids: seq<I32>)
    requires Holds(file, ids)
    ensures (if file.Some? then Parse(file.value) else []) == ids
  {
    ParseRender(ids);
  }

  lemma Writing(file: Option<string>, ids: seq<I32>, id: I32)
    requires Holds(file, ids)
    ensures Holds(Some(Overwrite(if file.Some? then file.value else "", Render(ids + [id]))), ids + [id])
  {
    RenderExtends(ids, [id]);
  }

  lemma ComesFurther(turns: seq<Turn>, i: nat, channels: bool)
    requires i < |turns|
    ensures Comes(turns, i + 1, channels) <==>
            && Comes(turns, i, channels)
            && turns[i].readable
            && (turns[i].ending.ConnectionError? ||
                (!turns[i].stop &&
                 (turns[i].ending.Finished? ||
                  (channels && turns[i].ending.Failure? && !turns[i].ending.decision.Disconnected?))))
  {
  }

  lemma ChosenHere(turns: seq<Turn>, i: nat, channels: bool)
    requires i < |turns| && Comes(turns, i, channels)
    ensures Chosen(turns, i, channels) <==>
            turns[i].readable && turns[i].writable && channels && turns[i].ending.Failure? &&
            turns[i].ending.decision.IgnoreAndRestart?
  {
  }

  /** Once the loop does not come further, nothing more is chosen and nothing else happens. */
  lemma ComesNoFurther(turns: seq<Turn>, i: nat, channels: bool)
    requires i <= |turns| && !Comes(turns, i, channels)
    ensures forall n :: i <= n <= |turns| ==> !Comes(turns, n, channels)
  {
  }

  lemma PickedNone(picks: seq<nat>, turns: seq<Turn>, i: nat, channels: bool)
    requires i < |turns| && Picks(picks, turns, i, channels) && !Chosen(turns, i, channels)
    ensures Picks(picks, turns, i + 1, channels)
  {
  }

  lemma PickedOne(picks: seq<nat>, turns: seq<Turn>, i: nat, channels: bool)
    requires i < |turns| && Picks(picks, turns, i, channels) && Chosen(turns, i, channels)
    ensures Picks(picks + [i], turns, i + 1, channels)
    ensures IdsAt(turns, picks + [i]) == IdsAt(turns, picks) + [turns[i].ending.decision.id]
  {
    forall k | 0 <= k < |picks| ensures picks[k] < i {
      assert picks[k] in picks;
    }
  }

  /** The loop is over at turn `i`, which it came to. */
  ghost predicate OverAt(turns: seq<Turn>, i: nat, channels: bool)
    requires i <= |turns|
  {
    Comes(turns, i, channels) && (i < |turns| ==> !Comes(turns, i + 1, channels))
  }

  /** What is picked once turn `i` is over is all that is picked. */
  lemma PickedAll(picks: seq<nat>, turns: seq<Turn>, i: nat, channels: bool)
    requires i <= |turns| && OverAt(turns, i, channels) && Picks(picks, turns, if i < |turns| then i + 1 else i, channels)
    ensures Picks(picks, turns, |turns|, channels)
  {
    if i < |turns| {
      ComesNoFurther(turns, i + 1, channels);
    }
  }

  lemma EndsWell(turns: seq<Turn>, i: nat, channels: bool)
    requires i <= |turns| && OverAt(turns, i, channels)
    requires i < |turns| ==> turns[i].readable && (turns[i].ending.Failure? ==> channels)
    ensures Ends(turns, channels, Ok(()))
  {
    if i < |turns| {
      ComesNoFurther(turns, i + 1, channels);
    }
    forall n | 0 <= n < |turns| && Comes(turns, n, channels)
      ensures turns[n].readable && (turns[n].ending.Failure? ==> channels)
    {
      if n < i {
        assert turns[n].readable;
      }
    }
  }

  lemma NothingYet(turns: seq<Turn>, channels: bool)
    ensures Comes(turns, 0, channels) && Picks([], turns, 0, channels) && IdsAt(turns, []) == []
  {
  }

  /**
   Whatever the turns bring, the ignore file ends with the contents it held, followed by
   those the user chose to ignore at the turns the loop comes to, in order; none is
   dropped by the rereading at each turn.
   */
  method Run(file: Option<string>, ghost ids: seq<I32>, turns: seq<Turn>, channels: bool)
    returns (r: Result<(), RunError>, now: Option<string>, ghost picks: seq<nat>)
    requires Holds(file, ids)
    ensures Picks(picks, turns, |turns|, channels)
    ensures Holds(now, ids + IdsAt(turns, picks))
    ensures now.Some? ==> Parse(now.value) == ids + IdsAt(turns, picks)
    ensures Ends(turns, channels, r)
  {
    hide Parse, Render, Overwrite, Comes, IdsAt;
    now, picks, r := file, [], Ok(());
    ghost var held := ids;
    NothingYet(turns, channels);
    assert ids + [] == ids;
    var i := 0;
    while i < |turns|
      invariant i <= |turns| && r == Ok(()) && Comes(turns, i, channels) && Picks(picks, turns, i, channels)
      invariant held == ids + IdsAt(turns, picks) && Holds(now, held)
      decreases |turns| - i
    {
      var turn := turns[i];
      ComesFurther(turns, i, channels);
      ChosenHere(turns, i, channels);
      Reading(now, held);
      if !turn.readable {
        PickedNone(picks, turns, i, channels);
        PickedAll(picks, turns, i, channels);
        return Err(Unreadable), now, picks;
      }
      var ignore := Ignore.From(ReadFile(now));
      if turn.ending.ConnectionError? {
        PickedNone(picks, turns, i, channels);
        i := i + 1;
        continue;
      }
      if turn.ending.Failure? {
        if !channels {
          PickedNone(picks, turns, i, channels);
          PickedAll(picks, turns, i, channels);
          return Err(Interrupted), now, picks;
        }
        if turn.ending.decision.Disconnected? {
          PickedNone(picks, turns, i, channels);
          break;
        }
        if turn.ending.decision.IgnoreAndRestart? {
          var id := turn.ending.decision.id;
          ignore.value.Push(id);
          if turn.writable {
            var text := ignore.value.Write(now);
            Writing(now, held, id);
            PickedOne(picks, turns, i, channels);
            assert ids + IdsAt(turns, picks) + [id] == ids + (IdsAt(turns, picks) + [id]);
            now, held, picks := Some(text), held + [id], picks + [i];
          }
        }
      }
      if !Chosen(turns, i, channels) {
        PickedNone(picks, turns, i, channels);
      }
      if turn.stop {
        break;
      }
      i := i + 1;
    }
    PickedAll(picks, turns, i, channels);
    EndsWell(turns, i, channels);
    Reading(now, held);
  }
}
