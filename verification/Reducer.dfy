/**
 The disk-event reducer: before an event leaves the queue it follows its file
 through the later events, absorbing some of them and cancelling a file that was
 created then deleted.
 */
module Reducer {
  import opened Wrappers
  import opened Forest

  datatype DiskEvent =
    | Deleted(path: Path)
    | Created(path: Path)
    | Modified(path: Path)
    | Renamed(before: Path, after: Path)

  /** An event with the path under which the database still knows the file. */
  datatype DiskEventWrap = DiskEventWrap(stored: Path, event: DiskEvent)

  /** Where the file was when the event happened. */
  function Source(e: DiskEvent): Path {
    if e.Renamed? then e.before else e.path
  }

  /** Where the event leaves its file. */
  function Current(e: DiskEvent): Path {
    if e.Renamed? then e.after else e.path
  }

  function Wrap(e: DiskEvent): DiskEventWrap {
    DiskEventWrap(Source(e), e)
  }

  /** What reading `e` does to the event being prepared. */
  datatype Reaction = Keep | Becomes(event: DiskEvent) | Cancel

  function React(head: DiskEvent, e: DiskEvent): Reaction {
    if head.Deleted? || e.Created? || Source(e) != Current(head) then Keep
    else
      match e
      case Deleted(p) => if head.Created? then Cancel else Becomes(DiskEvent.Deleted(p))
      case Modified(_) => Becomes(head)
      case Renamed(b, a) =>
        Becomes(match head
                case Created(_) => DiskEvent.Created(a)
                case Modified(_) => DiskEvent.Modified(a)
                case _ => DiskEvent.Renamed(b, a))
  }

  /** One pass over `rest` with `head` in preparation and `kept` already put back. */
  function Scan(head: DiskEventWrap, rest: seq<DiskEvent>, kept: seq<DiskEvent>)
    : (Option<DiskEventWrap>, seq<DiskEvent>)
    decreases |rest|
  {
    if rest == [] then (Some(head), kept)
    else
      match React(head.event, rest[0])
      case Keep => Scan(head, rest[1..], kept + [rest[0]])
      case Becomes(event) => Scan(DiskEventWrap(head.stored, event), rest[1..], kept)
      case Cancel =>
        if |rest| == 1 then (None, kept) else Scan(Wrap(rest[1]), rest[2..], kept)
  }

  /** The event handed out for a queue, and the queue left behind. */
  function Reduce(queue: seq<DiskEvent>): (Option<DiskEventWrap>, seq<DiskEvent>) {
    if queue == [] then (None, []) else Scan(Wrap(queue[0]), queue[1..], [])
  }
}
