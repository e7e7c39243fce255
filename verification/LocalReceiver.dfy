/** The receiver of disk events: what the channel delivers is queued, and reduced before each delivery is waited for. */
module LocalReceiver {
  import opened Wrappers
  import opened Reducer
  import opened ReducerQueue

  // ---- What a call hands out, by positions in the raw queue

  /** No event can be made of the queue: it is empty, or its very last event cancels the file followed. */
  ghost predicate HandsNothing(queue: seq<DiskEvent>) {
    queue == [] || Cancels(queue, HeadAfter(queue, |queue|), |queue| - 1)
  }

  /** `r` is what the last event taken as head has become, with the path where that event found its file. */
  ghost predicate MadeOf(r: Option<DiskEventWrap>, queue: seq<DiskEvent>) {
    if HandsNothing(queue) then r == None
    else
      var h := HeadAfter(queue, |queue|);
      r.Some? && r.value.stored == Source(queue[h]) && Evolved(queue, h, |queue|, r.value.event)
  }

  lemma ReducedFate(queue: seq<DiskEvent>)
    ensures MadeOf(Reduce(queue).0, queue) && Reduce(queue).1 == SkippedAmong(queue, |queue|)
  {
    if queue != [] {
      EveryEventAccountedFor(queue);
    }
  }

  /** The queues reduced one after the other: each one but the last makes no event, and the next delivery joins what it skipped. */
  ghost predicate Awaited(queues: seq<seq<DiskEvent>>, queue: seq<DiskEvent>, batches: seq<seq<DiskEvent>>) {
    && 0 < |queues| <= |batches| + 1
    && queues[0] == queue
    && forall i :: 0 <= i < |queues| - 1 ==>
         HandsNothing(queues[i]) && queues[i + 1] == SkippedAmong(queues[i], |queues[i]|) + batches[i]
  }

  /** The last queue makes the event, or the channel is closed; the events it skips stay, and so do later deliveries. */
  ghost predicate ReceivedAfter(
    queues: seq<seq<DiskEvent>>, queue: seq<DiskEvent>, batches: seq<seq<DiskEvent>>,
    r: Option<DiskEventWrap>, left: seq<DiskEvent>, pending: seq<seq<DiskEvent>>
  ) {
    && Awaited(queues, queue, batches)
    && var k := |queues| - 1;
       && (HandsNothing(queues[k]) ==> k == |batches|)
       && MadeOf(r, queues[k])
       && left == SkippedAmong(queues[k], |queues[k]|)
       && pending == batches[k..]
  }

  class LocalReceiverReducer {
    var events: seq<DiskEvent>

    constructor ()
      ensures events == []
    {
      events := [];
    }

    method TryRemove() returns (e: Option<DiskEvent>)
      modifies this
      ensures old(events) == [] ==> e == None && events == []
      ensures old(events) != [] ==> e == Some(old(events)[0]) && events == old(events)[1..]
    {
      if events == [] { return None; }
      e := Some(events[0]);
      events := events[1..];
    }

    method NextEvent() returns (r: Option<DiskEventWrap>)
      modifies this
      ensures (r, events) == Reduce(old(events))
      ensures MadeOf(r, old(events)) && events == SkippedAmong(old(events), |old(events)|)
    {
      ghost var queue := events;
      var first := TryRemove();
      var diskEvent := if first.Some? then Some(Wrap(first.value)) else None;
      var newDiskEvents: seq<DiskEvent> := [];
      while diskEvent.Some? && events != []
        invariant diskEvent.None? ==> events == [] && Reduce(queue) == (None, newDiskEvents)
        invariant diskEvent.Some? ==> Reduce(queue) == Scan(diskEvent.value, events, newDiskEvents)
        decreases |events|
      {
        label EventsTest:
        while events != []
          invariant diskEvent.Some?
          invariant Reduce(queue) == Scan(diskEvent.value, events, newDiskEvents)
          invariant |events| <= old@EventsTest(|events|)
          decreases |events|
        {
          ghost var unread := events;
          var test := events[0];
          events := events[1..];
          var stored := diskEvent.value.stored;
          assert Reduce(queue) == Scan(diskEvent.value, unread, newDiskEvents);
          match diskEvent.value.event {
            case Created(pathA) =>
              match test {
                case Deleted(pathB) =>
                  if pathA == pathB {
                    // Do not hand out a file that is already gone
                    var next := TryRemove();
                    diskEvent := if next.Some? then Some(Wrap(next.value)) else None;
                    break EventsTest;
                  } else {
                    newDiskEvents := newDiskEvents + [test];
                  }
                case Created(_) => newDiskEvents := newDiskEvents + [test];
                case Modified(pathB) =>
                  if pathA != pathB {
                    newDiskEvents := newDiskEvents + [test];
                  }
                case Renamed(before, after) =>
                  if before == pathA {
                    diskEvent := Some(DiskEventWrap(stored, DiskEvent.Created(after)));
                  } else {
                    newDiskEvents := newDiskEvents + [test];
                  }
              }
            case Deleted(_) => newDiskEvents := newDiskEvents + [test];
            case Modified(pathA) =>
              match test {
                case Deleted(pathB) =>
                  if pathA == pathB {
                    diskEvent := Some(DiskEventWrap(stored, DiskEvent.Deleted(pathB)));
                    break EventsTest;
                  } else {
                    newDiskEvents := newDiskEvents + [test];
                  }
                case Created(_) => newDiskEvents := newDiskEvents + [test];
                case Modified(pathB) =>
                  if pathA != pathB {
                    newDiskEvents := newDiskEvents + [test];
                  }
                case Renamed(before, after) =>
                  if before == pathA {
                    diskEvent := Some(DiskEventWrap(stored, DiskEvent.Modified(after)));
                  } else {
                    newDiskEvents := newDiskEvents + [test];
                  }
              }
            case Renamed(_, afterA) =>
              match test {
                case Deleted(pathB) =>
                  if afterA == pathB {
                    diskEvent := Some(DiskEventWrap(stored, DiskEvent.Deleted(afterA)));
                    break EventsTest;
                  } else {
                    newDiskEvents := newDiskEvents + [test];
                  }
                case Created(_) => newDiskEvents := newDiskEvents + [test];
                case Modified(pathB) =>
                  if afterA != pathB {
                    newDiskEvents := newDiskEvents + [test];
                  }
                case Renamed(before, after) =>
                  if afterA == before {
                    diskEvent := Some(DiskEventWrap(stored, DiskEvent.Renamed(before, after)));
                  } else {
                    newDiskEvents := newDiskEvents + [test];
                  }
              }
          }
        }
      }
      ReducedFate(queue);
      events := newDiskEvents;
      r := diskEvent;
    }

    /**
     `waiting` is what the channel holds already, `batches` what each later delivery
     brings, the channel closing after the last one.
     */
    method Recv(waiting: seq<DiskEvent>, batches: seq<seq<DiskEvent>>)
      returns (r: Option<DiskEventWrap>, pending: seq<seq<DiskEvent>>)
      modifies this
      ensures exists queues :: ReceivedAfter(queues, old(events) + waiting, batches, r, events, pending)
    {
      pending := batches;
      events := events + waiting;
      ghost var queues := [events];
      while true
        invariant Awaited(queues, old(events) + waiting, batches) && pending == batches[|queues| - 1..]
        invariant events == queues[|queues| - 1]
        decreases |pending|
      {
        r := NextEvent();
        if r.Some? || pending == [] {
          assert ReceivedAfter(queues, old(events) + waiting, batches, r, events, pending);
          return;
        }
        queues := queues + [events + pending[0]];
        events := events + pending[0];
        pending := pending[1..];
      }
    }
  }
}
