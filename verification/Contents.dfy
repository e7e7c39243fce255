/** Contents as the server describes them and as trsync keeps them. */
module Contents {
  import opened Wrappers
  import opened Forest

  datatype ContentType = File | Folder | HtmlDocument

  datatype Content = Content(
    id: ContentId, revision: int, name: Name, parent: Option<ContentId>, kind: ContentType
  )

  /** `kind` is None for a server type that trsync does not handle. */
  datatype RemoteContent = RemoteContent(
    id: ContentId, revision: int, name: Name, parent: Option<ContentId>, kind: Option<ContentType>,
    deleted: bool, archived: bool
  )

  /** A content cannot be its own parent. */
  function FromRemote(r: RemoteContent): Option<Content> {
    if r.kind.None? || r.parent == Some(r.id) then None
    else Some(Content(r.id, r.revision, r.name, r.parent, r.kind.value))
  }

  ghost function TreeOf(contents: map<ContentId, Content>): Tree {
    map id | id in contents :: Node(contents[id].name, contents[id].parent)
  }

  /** Every content is filed under its own id. */
  ghost predicate Keyed(contents: map<ContentId, Content>) {
    forall id :: id in contents ==> contents[id].id == id
  }
}
