/**
 What one executor attempt does: the modifications it asks for, its effect on the
 disk, and the events it plans to ignore because it causes them itself.
 */
module Executors {
  import opened Wrappers
  import opened Forest
  import opened Contents
  import opened Disk
  import opened DiskState
  import opened Reducer

  datatype RemoteEvent =
    | Deleted(id: ContentId)
    | Created(id: ContentId)
    | Updated(id: ContentId)
    | Renamed(id: ContentId)

  datatype Event = Remote(event: RemoteEvent) | Local(wrap: DiskEventWrap)

  datatype ExecutorError =
    | Unexpected
    | Timeout
    | MissingParent(id: ContentId, parent: ContentId)
    | MaximumRetryCount

  datatype Executor =
    | AbsentFromDisk(id: ContentId)
    | PresentOnDisk(id: ContentId)
    | UpdatedOnDisk(id: ContentId, download: bool)
    | AbsentFromRemote(dbPath: Path)
    | CreatedOnRemote(diskPath: Path)
    | ModifiedOnRemote(dbPath: Path)
    | NamedOnRemote(dbPath: Path, diskPath: Path)

  type Outcome = Result<seq<StateModification>, ExecutorError>

  datatype Attempt = Attempt(outcome: Outcome, disk: Disk, planned: seq<Event>)

  /**
   Everything the outside world decides during one interaction: the server's answers,
   whether disk calls and downloads succeed, the timestamp read afterwards, the paths
   that exist relative to the process directory, and the whole behaviour of an
   executor that acts on the server.
   */
  datatype Answers = Answers(
    contents: map<ContentId, RemoteContent>, ioOk: bool, fillOk: bool, timestamp: Option<nat>,
    cwd: set<Path>, serverOutcome: Outcome, serverPlanned: seq<Event>
  )

  function GetContent(a: Answers, id: ContentId): Option<RemoteContent> {
    if id in a.contents then Some(a.contents[id]) else None
  }

  function GetAsContent(a: Answers, id: ContentId): Option<Content> {
    var r := GetContent(a, id);
    if r.None? then None else FromRemote(r.value)
  }

  function PlanLocal(e: DiskEvent): Event {
    Local(Wrap(e))
  }

  // ---- Disk calls

  function Prefixes(p: Path): set<Path> {
    set k | 1 <= k <= |p| :: p[..k]
  }

  /** Creates the missing folders on the way; refused when a plain file stands in the way. */
  function CreateDirAll(disk: Disk, p: Path, ok: bool): Option<Disk> {
    if ok && forall q :: q in Prefixes(p) && q in disk ==> disk[q] == Directory
    then Some(disk + map q | q in Prefixes(p) :: Directory)
    else None
  }

  function CreateFile(disk: Disk, p: Path, ok: bool): Option<Disk> {
    if ok && p != [] && IsDirectory(disk, ParentPath(p)) && !IsDirectory(disk, p) then Some(disk[p := Plain]) else None
  }

  /** What a rename may replace: nothing, a file by a file, an empty folder by a folder. */
  predicate Replaceable(disk: Disk, source: Path, target: Path)
    requires source in disk
  {
    target in disk ==>
      && disk[target] == disk[source]
      && (disk[target] == Directory ==> forall q :: q in disk && target <= q ==> q == target)
  }

  /** Moves a file, or a folder with everything below it; a folder never goes below itself. */
  function RenameOnDisk(disk: Disk, source: Path, target: Path, ok: bool): Option<Disk> {
    if ok && source in disk && target != [] && !(source <= target)
       && IsDirectory(disk, ParentPath(target)) && Replaceable(disk, source, target)
    then Some(MoveBelow(disk, source, target))
    else None
  }

  function MoveBelow(disk: Disk, source: Path, target: Path): Disk {
    (map q | q in disk && !(source <= q) :: disk[q]) +
    (map q | q in (set k | k in disk && source <= k :: target + k[|source|..]) && source + q[|target|..] in disk ::
       disk[source + q[|target|..]])
  }

  /** A failing removal is only logged. */
  function RemoveFromDisk(disk: Disk, p: Path, kind: ContentType, ok: bool): Disk {
    if kind == Folder then
      if ok && p in disk && disk[p] == Directory then map q | q in disk && !(p <= q) :: disk[q] else disk
    else
      if ok && p in disk && disk[p] == Plain then disk - {p} else disk
  }

  /** Downloading a file creates or overwrites it; there is nothing to download for a folder. */
  function FillFile(disk: Disk, kind: ContentType, p: Path, ok: bool): Option<Disk> {
    if kind == Folder then Some(disk) else CreateFile(disk, p, ok)
  }

  // ---- Executors acting on the disk

  /** An error of the server loses its kind on the way through a disk executor, so none counts as a timeout. */
  predicate NeverRetried(outcome: Outcome) {
    outcome != Err(Timeout) && outcome != Err(MaximumRetryCount)
  }

  ghost function AbsentAttempt(rows: Rows, disk: Disk, id: ContentId, a: Answers): (r: Attempt)
    ensures NeverRetried(r.outcome)
  {
    if id !in rows then Attempt(Err(ExecutorError.Unexpected), disk, [])
    else
      match PathOf(TreeOfRows(rows), id)
      case None => Attempt(Err(ExecutorError.Unexpected), disk, [])
      case Some(path) =>
        Attempt(
          Ok([Forgot(id)]),
          RemoveFromDisk(disk, path, TypeAt(disk, rows[id].path), a.ioOk),
          if Exists(disk, path) then [PlanLocal(DiskEvent.Deleted(path))] else [])
  }

  /** Folders above `p` that do not exist relative to the process directory; the empty path never does. */
  function PlannedAbove(p: Path, cwd: set<Path>): seq<Event> {
    if p == [] then []
    else
      (if ParentPath(p) != [] && ParentPath(p) in cwd then [] else [PlanLocal(DiskEvent.Created(ParentPath(p)))])
      + PlannedAbove(ParentPath(p), cwd)
  }

  /** The only change an attempt for `content` can ask for. */
  predicate AddsOnly(outcome: Outcome, content: Content, path: Path, a: Answers) {
    outcome.Ok? ==> a.timestamp.Some? && outcome.value == [Add(content, path, a.timestamp.value)]
  }

  ghost function PresentAttempt(rows: Rows, disk: Disk, id: ContentId, a: Answers): (r: Attempt)
    ensures NeverRetried(r.outcome)
    ensures r.outcome.Ok? ==>
              && GetAsContent(a, id).Some?
              && var content := GetAsContent(a, id).value;
                 && (content.parent.Some? ==> content.parent.value in rows)
                 && ChildPath(TreeOfRows(rows), content.parent, content.name).Some?
                 && AddsOnly(r.outcome, content, ChildPath(TreeOfRows(rows), content.parent, content.name).value, a)
  {
    match GetAsContent(a, id)
    case None => Attempt(Err(ExecutorError.Unexpected), disk, [])
    case Some(content) =>
      if content.parent.Some? && content.parent.value !in rows
      then Attempt(Err(MissingParent(id, content.parent.value)), disk, [])
      else
        match ChildPath(TreeOfRows(rows), content.parent, content.name)
        case None => Attempt(Err(ExecutorError.Unexpected), disk, [])
        case Some(path) => PlaceAttempt(disk, content, path, a)
  }

  function PlaceAttempt(disk: Disk, content: Content, path: Path, a: Answers): (r: Attempt)
    ensures NeverRetried(r.outcome) && AddsOnly(r.outcome, content, path, a)
  {
    var planned := if Exists(disk, path) then [] else [PlanLocal(DiskEvent.Created(path))];
    var attempt := if content.kind == Folder then FolderAttempt(disk, content, path, a)
                   else FileAttempt(disk, content, path, a);
    attempt.(planned := planned + attempt.planned)
  }

  function AddWhenDated(content: Content, path: Path, a: Answers): Outcome {
    match a.timestamp
    case None => Err(ExecutorError.Unexpected)
    case Some(timestamp) => Ok([Add(content, path, timestamp)])
  }

  /** A folder that cannot be created is no error when something already exists at its path. */
  function FolderAttempt(disk: Disk, content: Content, path: Path, a: Answers): (r: Attempt)
    ensures NeverRetried(r.outcome) && AddsOnly(r.outcome, content, path, a)
  {
    var planned := PlannedAbove(path, a.cwd);
    match CreateDirAll(disk, path, a.ioOk)
    case Some(now) => Attempt(AddWhenDated(content, path, a), now, planned)
    case None =>
      if Exists(disk, path) then Attempt(AddWhenDated(content, path, a), disk, planned)
      else Attempt(Err(ExecutorError.Unexpected), disk, planned)
  }

  /** A creation is planned a second time once the file is there. */
  function FileAttempt(disk: Disk, content: Content, path: Path, a: Answers): (r: Attempt)
    ensures NeverRetried(r.outcome) && AddsOnly(r.outcome, content, path, a)
  {
    match CreateFile(disk, path, a.ioOk)
    case None => Attempt(Err(ExecutorError.Unexpected), disk, [])
    case Some(now) =>
      var planned := if Exists(disk, path) then [] else [PlanLocal(DiskEvent.Created(path))];
      if !a.fillOk then Attempt(Err(ExecutorError.Unexpected), now, planned)
      else Attempt(AddWhenDated(content, path, a), now, planned + [PlanLocal(DiskEvent.Modified(path))])
  }

  /** The only change an update of `content` can ask for, and the only way it can fail. */
  predicate UpdatesOnly(outcome: Outcome, content: Content, id: ContentId, a: Answers) {
    && (outcome.Err? ==> outcome.error == ExecutorError.Unexpected)
    && (outcome.Ok? ==>
          a.timestamp.Some? &&
          outcome.value == [Update(id, content.name, content.revision, content.parent, a.timestamp.value)])
  }

  ghost function UpdatedAttempt(rows: Rows, disk: Disk, id: ContentId, download: bool, a: Answers): (r: Attempt)
    ensures GetAsContent(a, id).None? ==> r.outcome == Err(ExecutorError.Unexpected)
    ensures GetAsContent(a, id).Some? ==> UpdatesOnly(r.outcome, GetAsContent(a, id).value, id, a)
  {
    var local := PathOf(TreeOfRows(rows), id);
    var content := GetAsContent(a, id);
    if local.None? || content.None? then Attempt(Err(ExecutorError.Unexpected), disk, [])
    else
      match ChildPath(TreeOfRows(rows), content.value.parent, content.value.name)
      case None => Attempt(Err(ExecutorError.Unexpected), disk, [])
      case Some(remote) =>
        if local.value == remote then DownloadAttempt(disk, id, download, content.value, remote, remote, a)
        else
          match RenameOnDisk(disk, local.value, remote, a.ioOk)
          case None => Attempt(Err(ExecutorError.Unexpected), disk, [])
          case Some(moved) =>
            var attempt := DownloadAttempt(moved, id, download, content.value, local.value, remote, a);
            attempt.(planned := [PlanLocal(DiskEvent.Renamed(local.value, remote))] + attempt.planned)
  }

  function DownloadAttempt(
    disk: Disk, id: ContentId, download: bool, content: Content, local: Path, remote: Path, a: Answers
  ): (r: Attempt)
    ensures UpdatesOnly(r.outcome, content, id, a)
  {
    var filled := if download then FillFile(disk, content.kind, remote, a.fillOk) else Some(disk);
    match filled
    case None => Attempt(Err(ExecutorError.Unexpected), disk, [])
    case Some(now) =>
      var planned := if download then [PlanLocal(DiskEvent.Modified(local))] else [];
      if a.timestamp.Some? && Exists(now, remote)
      then Attempt(Ok([Update(id, content.name, content.revision, content.parent, a.timestamp.value)]), now, planned)
      else Attempt(Err(ExecutorError.Unexpected), now, planned)
  }

  ghost function AttemptOf(e: Executor, rows: Rows, disk: Disk, a: Answers): Attempt {
    match e
    case AbsentFromDisk(id) => AbsentAttempt(rows, disk, id, a)
    case PresentOnDisk(id) => PresentAttempt(rows, disk, id, a)
    case UpdatedOnDisk(id, download) => UpdatedAttempt(rows, disk, id, download, a)
    case _ => Attempt(a.serverOutcome, disk, a.serverPlanned)
  }
}
