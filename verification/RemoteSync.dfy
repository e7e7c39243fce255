/**
 The startup comparison with the server: the listing is filtered into the remote
 state, which is then compared with the database.
 */
module RemoteSync {
  import opened Wrappers
  import opened Forest
  import opened Contents
  import DiskState
  import opened OperateChanges
  import MemoryState

  type Entries = map<ContentId, RemoteContent>

  datatype SyncError = ClientFailed | NotConvertible(id: ContentId) | AbsentParent(parent: ContentId) | NoPath(id: ContentId)

  /** The first content of the listing with this id. */
  function Find(listing: seq<RemoteContent>, id: ContentId, i: nat): (r: Option<RemoteContent>)
    requires i <= |listing|
    ensures r.Some? <==> exists k :: i <= k < |listing| && listing[k].id == id
    ensures r.Some? ==> r.value in listing && r.value.id == id
    decreases |listing| - i
  {
    if i == |listing| then None
    else if listing[i].id == id then Some(listing[i])
    else Find(listing, id, i + 1)
  }

  ghost function EntriesOf(listing: seq<RemoteContent>): Entries {
    map id | id in (set r | r in listing :: r.id) && Find(listing, id, 0).Some? :: Find(listing, id, 0).value
  }

  ghost function TreeOfEntries(entries: Entries): Tree {
    map id | id in entries :: Node(entries[id].name, entries[id].parent)
  }

  ghost predicate UniqueIds(listing: seq<RemoteContent>) {
    forall i, j :: 0 <= i < j < |listing| ==> listing[i].id != listing[j].id
  }

  /** `id` and all its ancestors up to a root are present, none of them deleted or archived. */
  ghost predicate ChainAlive(entries: Entries, id: ContentId) {
    && id in entries && Stops(TreeOfEntries(entries), id)
    && forall a :: a in entries && Under(TreeOfEntries(entries), a, id) ==>
                     !entries[a].deleted && !entries[a].archived && (entries[a].parent.Some? ==> entries[a].parent.value in entries)
  }

  ghost predicate Alive(entries: Entries, r: RemoteContent) {
    !r.deleted && !r.archived && (r.parent.Some? ==> ChainAlive(entries, r.parent.value))
  }

  /** A file below something else than a folder. */
  ghost predicate IsBelowNonFolder(entries: Entries, r: RemoteContent) {
    && r.kind == Some(File) && r.parent.Some?
    && r.parent.value in entries && entries[r.parent.value].kind != Some(Folder)
  }

  ghost predicate Kept(entries: Entries, r: RemoteContent) {
    Alive(entries, r) && !IsBelowNonFolder(entries, r)
  }

  lemma ChainStep(entries: Entries, id: ContentId)
    requires id in entries
    ensures ChainAlive(entries, id) <==> Alive(entries, entries[id])
  {
    var t := TreeOfEntries(entries);
    if t[id].parent.Some? {
      if Stops(t, id) {
        DepthStep(t, id);
      }
      if Stops(t, t[id].parent.value) {
        StopsFromParent(t, id);
      }
    } else {
      StopsFromParent(t, id);
    }
    if Stops(t, id) {
      UnderStep(t, id, id);
      forall a ensures Under(t, a, id) <==>
                       a == id || (entries[id].parent.Some? && Under(t, a, entries[id].parent.value))
      {
        UnderStep(t, a, id);
      }
    }
  }

  /** The walk from `r` finds a root, an absent parent, or something deleted or archived within `n` steps. */
  ghost predicate WalkEnds(entries: Entries, r: RemoteContent, n: nat)
    decreases n
  {
    || r.deleted || r.archived || r.parent.None? || r.parent.value !in entries
    || (n > 0 && WalkEnds(entries, entries[r.parent.value], n - 1))
  }

  ghost predicate WalksEnd(listing: seq<RemoteContent>) {
    forall r :: r in listing ==> exists n: nat :: WalkEnds(EntriesOf(listing), r, n)
  }

  /** On an acyclic listing every walk ends. */
  lemma {:induction false} AcyclicEnds(entries: Entries, r: RemoteContent) returns (n: nat)
    requires Acyclic(TreeOfEntries(entries))
    ensures WalkEnds(entries, r, n)
    decreases if r.parent.Some? && Stops(TreeOfEntries(entries), r.parent.value)
              then Depth(TreeOfEntries(entries), r.parent.value) + 1 else 0
  {
    n := 0;
    if r.parent.Some? && r.parent.value in entries {
      var t, parent := TreeOfEntries(entries), entries[r.parent.value];
      if parent.parent.Some? {
        DepthStep(t, r.parent.value);
      }
      var m := AcyclicEnds(entries, parent);
      n := m + 1;
    }
  }

  // ---- The filters

  /** The walk has to end somewhere; on a cycle of living contents it would not. */
  method IsDeleted(r: RemoteContent, listing: seq<RemoteContent>) returns (deleted: bool)
    requires exists n: nat :: WalkEnds(EntriesOf(listing), r, n)
    ensures deleted <==> !Alive(EntriesOf(listing), r)
  {
    if r.deleted || r.archived {
      return true;
    }
    ghost var entries := EntriesOf(listing);
    ghost var steps: nat :| WalkEnds(entries, r, steps);
    var current := r;
    while current.parent.Some?
      invariant !current.deleted && !current.archived
      invariant Alive(entries, r) <==> Alive(entries, current)
      invariant WalkEnds(entries, current, steps)
      decreases steps
    {
      var found := Find(listing, current.parent.value, 0);
      if found.None? {
        return true;
      }
      assert entries[current.parent.value] == found.value;
      ChainStep(entries, current.parent.value);
      current := found.value;
      if current.deleted || current.archived {
        return true;
      }
      steps := steps - 1;
    }
    deleted := false;
  }

  method IsAttachment(r: RemoteContent, listing: seq<RemoteContent>) returns (attachment: bool)
    ensures attachment <==> IsBelowNonFolder(EntriesOf(listing), r)
  {
    if r.kind != Some(File) {
      return false;
    }
    if r.parent.Some? {
      for i := 0 to |listing|
        invariant Find(listing, r.parent.value, 0) == Find(listing, r.parent.value, i)
      {
        if listing[i].id == r.parent.value {
          return listing[i].kind != Some(Folder);
        }
      }
    }
    attachment := false;
  }

  // ---- The remote state

  /** What the first `i` contents of the listing leave: the kept ones, a later one replacing an earlier one. */
  ghost function Gathered(listing: seq<RemoteContent>, i: nat): Result<map<ContentId, Content>, SyncError>
    requires i <= |listing|
    decreases i
  {
    if i == 0 then Ok(map[])
    else
      var before := Gathered(listing, i - 1);
      var r := listing[i - 1];
      if before.Err? || !Kept(EntriesOf(listing), r) then before
      else
        match FromRemote(r)
        case None => Err(NotConvertible(r.id))
        case Some(content) => Ok(before.value[r.id := content])
  }

  ghost predicate NamesAbsentParent(contents: map<ContentId, Content>, error: SyncError) {
    error.AbsentParent? && error.parent !in contents &&
    exists id :: id in contents && contents[id].parent == Some(error.parent)
  }

  method State(answer: Option<seq<RemoteContent>>) returns (r: Result<MemoryState.MemoryState, SyncError>)
    requires answer.Some? ==> WalksEnd(answer.value)
    ensures answer.None? ==> r == Err(ClientFailed)
    ensures answer.Some? ==>
              var gathered := Gathered(answer.value, |answer.value|);
              && (gathered.Err? ==> r == Err(gathered.error))
              && (gathered.Ok? ==> (r.Ok? <==> ParentClosed(TreeOf(gathered.value))))
              && (gathered.Ok? && r.Err? ==> NamesAbsentParent(gathered.value, r.error))
              && (r.Ok? ==> fresh(r.value) && gathered == Ok(r.value.contents))
  {
    if answer.None? {
      return Err(ClientFailed);
    }
    var listing := answer.value;
    var contents: map<ContentId, Content> := map[];
    for i := 0 to |listing|
      invariant Gathered(listing, i) == Ok(contents)
    {
      assert listing[i] in listing;
      var deleted := IsDeleted(listing[i], listing);
      var attachment := IsAttachment(listing[i], listing);
      if !deleted && !attachment {
        var content := FromRemote(listing[i]);
        if content.None? {
          GatheredFails(listing, i + 1);
          return Err(NotConvertible(listing[i].id));
        }
        contents := contents[listing[i].id := content.value];
      }
    }
    var state := MemoryState.MemoryState.New(contents, map[]);
    match state {
      case Ok(memory) => r := Ok(memory);
      case Err(error) => r := Err(AbsentParent(error.parent));
    }
  }

  lemma {:induction false} GatheredFails(listing: seq<RemoteContent>, i: nat)
    requires i <= |listing| && Gathered(listing, i).Err?
    ensures Gathered(listing, |listing|) == Gathered(listing, i)
    decreases |listing| - i
  {
    if i < |listing| {
      GatheredFails(listing, i + 1);
    }
  }

  // ---- What the remote state is

  lemma FindUnique(listing: seq<RemoteContent>, k: nat)
    requires UniqueIds(listing) && k < |listing|
    ensures listing[k].id in EntriesOf(listing) && EntriesOf(listing)[listing[k].id] == listing[k]
  {
    var found := Find(listing, listing[k].id, 0);
    assert listing[k] in listing;
  }

  /** Gathering fails at the first kept content that cannot be converted. */
  ghost predicate FailsAt(listing: seq<RemoteContent>, k: nat, error: SyncError)
    requires k < |listing|
  {
    && error == NotConvertible(listing[k].id)
    && Kept(EntriesOf(listing), listing[k]) && FromRemote(listing[k]).None?
    && forall j :: 0 <= j < k && Kept(EntriesOf(listing), listing[j]) ==> FromRemote(listing[j]).Some?
  }

  /** Nothing kept after position `k` and before `i` has the same id. */
  ghost predicate LastKept(listing: seq<RemoteContent>, k: nat, i: nat)
    requires k < i <= |listing|
  {
    && Kept(EntriesOf(listing), listing[k])
    && forall j :: k < j < i && listing[j].id == listing[k].id ==> !Kept(EntriesOf(listing), listing[j])
  }

  /** The gathered contents are exactly the kept ones, each converted; the last one of an id counts. */
  lemma {:induction false} GatheredIsKept(listing: seq<RemoteContent>, i: nat)
    requires i <= |listing|
    ensures Gathered(listing, i).Err? <==> exists k :: 0 <= k < i && FailsAt(listing, k, NotConvertible(listing[k].id))
    ensures Gathered(listing, i).Err? ==> exists k :: 0 <= k < i && FailsAt(listing, k, Gathered(listing, i).error)
    ensures Gathered(listing, i).Ok? ==>
              var contents := Gathered(listing, i).value;
              && (forall k :: 0 <= k < i && LastKept(listing, k, i) ==>
                    listing[k].id in contents && Some(contents[listing[k].id]) == FromRemote(listing[k]))
              && (forall id :: id in contents ==>
                    exists k :: 0 <= k < i && listing[k].id == id && Kept(EntriesOf(listing), listing[k]))
    ensures Gathered(listing, i).Ok? ==>
              forall k :: 0 <= k < i && Kept(EntriesOf(listing), listing[k]) ==> FromRemote(listing[k]).Some?
    decreases i
  {
    hide Kept, EntriesOf;
    if i > 0 {
      GatheredIsKept(listing, i - 1);
    }
  }

  ghost predicate AllConvertible(listing: seq<RemoteContent>) {
    forall r :: r in listing && Kept(EntriesOf(listing), r) ==> r.kind.Some? && r.parent != Some(r.id)
  }

  /** The content is what the server describes. */
  ghost predicate Describes(r: RemoteContent, c: Content) {
    c.id == r.id && c.revision == r.revision && c.name == r.name && c.parent == r.parent && Some(c.kind) == r.kind
  }

  /** No content that is kept has a parent that is left out as a file below a non-folder. */
  ghost predicate NoKeptBelowAttachment(entries: Entries) {
    forall id :: id in entries && Kept(entries, entries[id]) && entries[id].parent.Some? && entries[id].parent.value in entries ==>
      !IsBelowNonFolder(entries, entries[entries[id].parent.value])
  }

  ghost predicate IsRemoteState(entries: Entries, contents: map<ContentId, Content>) {
    && (forall id :: id in contents <==>
          && id in entries && ChainAlive(entries, id)
          && !(entries[id].kind == Some(File) && entries[id].parent.Some? && entries[id].parent.value in entries &&
               entries[entries[id].parent.value].kind != Some(Folder)))
    && (forall id :: id in contents ==> Describes(entries[id], contents[id]))
    && Keyed(contents) && Acyclic(TreeOf(contents))
    && (ParentClosed(TreeOf(contents)) <==> NoKeptBelowAttachment(entries))
  }

  /** What the server answers about a content of its state converts to that content. */
  lemma StateConverts(entries: Entries, contents: map<ContentId, Content>, id: ContentId)
    requires IsRemoteState(entries, contents) && id in contents
    ensures FromRemote(entries[id]) == Some(contents[id])
  {
    if contents[id].parent == Some(id) {
      DepthStep(TreeOf(contents), id);
    }
  }

  /**
   Gathering fails exactly when a kept content cannot be converted. Otherwise the remote
   state holds exactly the contents whose whole chain of ancestors is
   present, undeleted and unarchived and which are not files below a non-folder. It is
   acyclic, and it passes the check on parents exactly when no kept content lies below
   such a file.
   */
  lemma {:induction false} RemoteStateIsExact(listing: seq<RemoteContent>)
    requires UniqueIds(listing)
    ensures Gathered(listing, |listing|).Ok? <==> AllConvertible(listing)
    ensures AllConvertible(listing) ==> IsRemoteState(EntriesOf(listing), Gathered(listing, |listing|).value)
  {
    hide EntriesOf, Gathered, Kept, IsRemoteState;
    GatheredIsKept(listing, |listing|);
    assert forall k :: 0 <= k < |listing| ==> listing[k] in listing;
    if AllConvertible(listing) {
      GatheredAreEntries(listing);
      KeptIsRemoteState(EntriesOf(listing), Gathered(listing, |listing|).value);
    }
  }

  /** The gathered contents are the kept entries. */
  ghost predicate AreKeptEntries(entries: Entries, contents: map<ContentId, Content>) {
    && (forall id :: id in contents <==> id in entries && Kept(entries, entries[id]))
    && (forall id :: id in contents ==> Some(contents[id]) == FromRemote(entries[id]))
    && (forall id :: id in entries ==> entries[id].id == id)
  }

  lemma GatheredAreEntries(listing: seq<RemoteContent>)
    requires UniqueIds(listing) && Gathered(listing, |listing|).Ok?
    ensures AreKeptEntries(EntriesOf(listing), Gathered(listing, |listing|).value)
  {
    hide EntriesOf, Gathered, Kept;
    var entries, contents := EntriesOf(listing), Gathered(listing, |listing|).value;
    GatheredIsKept(listing, |listing|);
    EntriesAreListed(listing);
    forall id | id in entries
      ensures id in contents <==> Kept(entries, entries[id])
      ensures id in contents ==> Some(contents[id]) == FromRemote(entries[id])
    {
      var k :| 0 <= k < |listing| && listing[k].id == id;
      FindUnique(listing, k);
      if id in contents {
        var j :| 0 <= j < |listing| && listing[j].id == id && Kept(entries, listing[j]);
      }
    }
  }

  lemma KeptIsRemoteState(entries: Entries, contents: map<ContentId, Content>)
    requires AreKeptEntries(entries, contents)
    ensures IsRemoteState(entries, contents)
  {
    hide ChainAlive, Alive, NoKeptBelowAttachment;
    forall id | id in entries ensures ChainAlive(entries, id) <==> Alive(entries, entries[id]) {
      ChainStep(entries, id);
    }
    KeptAcyclic(entries, contents);
    KeptParents(entries, contents);
  }

  lemma KeptAcyclic(entries: Entries, contents: map<ContentId, Content>)
    requires AreKeptEntries(entries, contents)
    ensures Acyclic(TreeOf(contents))
  {
    hide Alive, IsBelowNonFolder;
    var t, u := TreeOfEntries(entries), TreeOf(contents);
    forall id | id in u ensures Stops(u, id) {
      ChainStep(entries, id);
      ChainStops(entries, id);
      SubStops(t, u, id);
    }
  }

  lemma ChainStops(entries: Entries, id: ContentId)
    requires ChainAlive(entries, id)
    ensures id in entries && Stops(TreeOfEntries(entries), id)
  {
  }

  lemma EntriesAreListed(listing: seq<RemoteContent>)
    ensures forall id :: id in EntriesOf(listing) <==> exists k :: 0 <= k < |listing| && listing[k].id == id
    ensures forall id :: id in EntriesOf(listing) ==> EntriesOf(listing)[id].id == id
  {
  }

  lemma KeptParents(entries: Entries, contents: map<ContentId, Content>)
    requires AreKeptEntries(entries, contents)
    ensures ParentClosed(TreeOf(contents)) <==> NoKeptBelowAttachment(entries)
  {
    hide ChainAlive, IsBelowNonFolder;
    forall id | id in contents && contents[id].parent.Some?
      ensures var p := contents[id].parent.value;
              p in entries && (p in contents <==> !IsBelowNonFolder(entries, entries[p]))
    {
      var p := contents[id].parent.value;
      assert ChainAlive(entries, p);
      ChainStops(entries, p);
      ChainStep(entries, p);
    }
    if ParentClosed(TreeOf(contents)) {
      forall id | id in entries && Kept(entries, entries[id]) && entries[id].parent.Some? && entries[id].parent.value in entries
        ensures !IsBelowNonFolder(entries, entries[entries[id].parent.value])
      {
        assert id in TreeOf(contents);
      }
    }
  }

  /** A walk that stops also stops in a part of the tree. */
  lemma {:induction false} SubStops(t: Tree, u: Tree, id: ContentId)
    requires Stops(t, id) && forall x :: x in u ==> x in t && u[x].parent == t[x].parent
    ensures Stops(u, id)
    decreases Depth(t, id)
  {
    if id in u && u[id].parent.Some? {
      DepthStep(t, id);
      SubStops(t, u, u[id].parent.value);
    }
    StopsFromParent(u, id);
  }

  /** Folders and html documents have only folders as parents, as the server has it. */
  ghost predicate FoldersHoldFolders(entries: Entries) {
    forall id :: id in entries && entries[id].kind != Some(File) && entries[id].parent.Some? && entries[id].parent.value in entries ==>
      entries[entries[id].parent.value].kind == Some(Folder)
  }

  /** On such a server the remote state is never refused, and it is a forest. */
  lemma FolderParentsSuffice(listing: seq<RemoteContent>)
    requires UniqueIds(listing) && AllConvertible(listing)
    requires FoldersHoldFolders(EntriesOf(listing))
    ensures Gathered(listing, |listing|).Ok? && IsForest(TreeOf(Gathered(listing, |listing|).value))
  {
    hide EntriesOf, Alive, ChainAlive, AllConvertible;
    RemoteStateIsExact(listing);
  }

  // ---- The changes

  /** The differences found once the remote contents of `seen` and the known ones of `checked` are compared. */
  ghost predicate DiffSoFar(
    changes: seq<RemoteChange>, rows: DiskState.Rows, contents: map<ContentId, Content>, ignored: seq<ContentId>,
    seen: set<ContentId>, checked: set<ContentId>
  ) {
    && (forall i, j :: 0 <= i < j < |changes| ==> changes[i].id != changes[j].id)
    && (forall i, j :: 0 <= i < j < |changes| && changes[i].Disappear? ==> changes[j].Disappear?)
    && (forall id, p :: New(id, p) in changes <==>
          id in contents && id in seen && id !in ignored && id !in rows && PathOf(TreeOf(contents), id) == Some(p))
    && (forall id, p :: Updated(id, p) in changes <==>
          && id in contents && id in seen && id !in ignored && id in rows && contents[id].revision != rows[id].revision
          && PathOf(TreeOf(contents), id) == Some(p))
    && (forall id, p :: Disappear(id, p) in changes <==> id in rows && id in checked && id !in contents && p == rows[id].path)
  }

  /** What a comparison must list: each difference once, updates and creations before disappearances. */
  ghost predicate IsDiff(
    changes: seq<RemoteChange>, rows: DiskState.Rows, contents: map<ContentId, Content>, ignored: seq<ContentId>
  ) {
    DiffSoFar(changes, rows, contents, ignored, contents.Keys, rows.Keys)
  }

  lemma DiffIds(
    changes: seq<RemoteChange>, rows: DiskState.Rows, contents: map<ContentId, Content>, ignored: seq<ContentId>,
    seen: set<ContentId>, checked: set<ContentId>, c: RemoteChange
  )
    requires DiffSoFar(changes, rows, contents, ignored, seen, checked) && c in changes
    ensures if c.Disappear? then c.id in checked && c.id !in contents else c.id in seen && c.id in contents
  {
    match c
    case New(id, p) => assert New(id, p) in changes;
    case Updated(id, p) => assert Updated(id, p) in changes;
    case Disappear(id, p) => assert Disappear(id, p) in changes;
  }

  /** The remote contents come in no particular order. */
  method RemoteDifferences(ignored: seq<ContentId>, rows: DiskState.Rows, remote: MemoryState.MemoryState)
    returns (changes: seq<RemoteChange>)
    requires IsForest(TreeOf(remote.contents))
    ensures DiffSoFar(changes, rows, remote.contents, ignored, remote.contents.Keys, {})
  {
    var contents := remote.contents;
    ghost var t := TreeOf(contents);
    changes := [];
    var left: set<ContentId> := contents.Keys;
    while left != {}
      invariant left <= contents.Keys
      invariant DiffSoFar(changes, rows, contents, ignored, contents.Keys - left, {})
      decreases left
    {
      SomeId(left);
      var id :| id in left;
      forall c | c in changes ensures c.id != id && !c.Disappear? {
        DiffIds(changes, rows, contents, ignored, contents.Keys - left, {}, c);
      }
      left := left - {id};
      if id in ignored {
        continue;
      }
      assert id in t;
      PathDefined(t, id);
      var path := remote.Path(id);
      if id in rows {
        if contents[id].revision != rows[id].revision {
          changes := changes + [Updated(id, path.value)];
        }
      } else {
        changes := changes + [New(id, path.value)];
      }
    }
    assert contents.Keys - left == contents.Keys;
  }

  method Compared(ignored: seq<ContentId>, rows: DiskState.Rows, remote: MemoryState.MemoryState)
    returns (changes: seq<RemoteChange>)
    requires IsForest(TreeOf(remote.contents))
    ensures IsDiff(changes, rows, remote.contents, ignored)
  {
    changes := RemoteDifferences(ignored, rows, remote);
    var contents := remote.contents;
    var left: set<ContentId> := rows.Keys;
    assert rows.Keys - left == {};
    while left != {}
      invariant left <= rows.Keys
      invariant DiffSoFar(changes, rows, contents, ignored, contents.Keys, rows.Keys - left)
      decreases left
    {
      SomeId(left);
      var id :| id in left;
      forall c | c in changes ensures c.id != id || id in contents {
        DiffIds(changes, rows, contents, ignored, contents.Keys, rows.Keys - left, c);
      }
      left := left - {id};
      if id !in contents {
        changes := changes + [Disappear(id, rows[id].path)];
      }
    }
    assert rows.Keys - left == rows.Keys;
  }

  /**
   Besides the walks of the filters, those that build the paths of the remote contents
   have to end: a listing that repeats an id with two parents could close a cycle.
   */
  ghost predicate ComparisonEnds(listing: seq<RemoteContent>) {
    && WalksEnd(listing)
    && var gathered := Gathered(listing, |listing|);
       gathered.Ok? && ParentClosed(TreeOf(gathered.value)) ==> Acyclic(TreeOf(gathered.value))
  }

  /** With distinct ids, the walks of the filters are the only ones to worry about. */
  lemma DistinctIdsSuffice(listing: seq<RemoteContent>)
    requires UniqueIds(listing) && WalksEnd(listing)
    ensures ComparisonEnds(listing)
  {
    hide WalksEnd;
    RemoteStateIsExact(listing);
  }

  method Changes(ignored: seq<ContentId>, rows: DiskState.Rows, answer: Option<seq<RemoteContent>>)
    returns (r: Result<seq<RemoteChange>, SyncError>)
    requires answer.Some? ==> ComparisonEnds(answer.value)
    ensures answer.None? ==> r == Err(ClientFailed)
    ensures answer.Some? ==>
              var gathered := Gathered(answer.value, |answer.value|);
              && (gathered.Err? ==> r == Err(gathered.error))
              && (gathered.Ok? ==> (r.Ok? <==> ParentClosed(TreeOf(gathered.value))))
              && (gathered.Ok? && r.Err? ==> NamesAbsentParent(gathered.value, r.error))
              && (r.Ok? ==> IsDiff(r.value, rows, gathered.value, ignored))
  {
    var state := State(answer);
    if state.Err? {
      return Err(state.error);
    }
    var changes := Compared(ignored, rows, state.value);
    r := Ok(changes);
  }
}
