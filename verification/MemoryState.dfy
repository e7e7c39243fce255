/** The in-memory state: contents by id, paths always rebuilt through the parents. */
module MemoryState {
  import opened Wrappers
  import opened Forest
  import opened Contents

  /** A missing parent is told apart only when a whole state is refused. */
  datatype StateError = Unexpected | MissingParent(parent: ContentId)

  type Memory = map<ContentId, Content>

  /** One change of the state, as its callers make it. */
  datatype Op =
    | AddContent(content: Content, timestamp: nat)
    | ForgetContent(id: ContentId)
    | UpdateContent(id: ContentId, name: Name, revision: int, parent: Option<ContentId>, timestamp: nat)

  ghost function ApplyToMemory(memory: Memory, op: Op): Memory {
    match op
    case AddContent(content, _) => memory[content.id := content]
    case ForgetContent(id) => memory - Subtree(TreeOf(memory), id)
    case UpdateContent(id, name, revision, parent, _) =>
      if id in memory then memory[id := memory[id].(name := name, revision := revision, parent := parent)]
      else memory
  }

  class MemoryState {
    var contents: map<ContentId, Content>
    var timestamps: map<ContentId, nat>

    constructor (contents: map<ContentId, Content>, timestamps: map<ContentId, nat>)
      ensures this.contents == contents && this.timestamps == timestamps
    {
      this.contents, this.timestamps := contents, timestamps;
    }

    /** Refused exactly when a content names an absent parent. */
    static method New(contents: map<ContentId, Content>, timestamps: map<ContentId, nat>)
      returns (r: Result<MemoryState, StateError>)
      ensures r.Ok? <==> ParentClosed(TreeOf(contents))
      ensures r.Ok? ==> fresh(r.value) && r.value.contents == contents && r.value.timestamps == timestamps
      ensures r.Err? ==> r.error.MissingParent? && r.error.parent !in contents &&
                         exists id :: id in contents && contents[id].parent == Some(r.error.parent)
    {
      var left: set<ContentId> := contents.Keys;
      while left != {}
        invariant left <= contents.Keys
        invariant forall id :: id in contents && id !in left && contents[id].parent.Some? ==>
                                 contents[id].parent.value in contents
        decreases left
      {
        SomeId(left);
        var id :| id in left;
        left := left - {id};
        if contents[id].parent.Some? && contents[id].parent.value !in contents {
          assert !ParentClosed(TreeOf(contents)) by {
            assert id in TreeOf(contents);
          }
          return Err(MissingParent(contents[id].parent.value));
        }
      }
      var state := new MemoryState(contents, timestamps);
      r := Ok(state);
    }

    method Get(id: ContentId) returns (r: Option<Content>)
      ensures r == if id in contents then Some(contents[id]) else None
    {
      r := if id in contents then Some(contents[id]) else None;
    }

    /** The walk through the parents ends with the path, or with an error when an ancestor is absent. */
    method Path(id: ContentId) returns (r: Result<Path, StateError>)
      requires Stops(TreeOf(contents), id)
      ensures r.Ok? <==> PathOf(TreeOf(contents), id).Some?
      ensures r.Ok? ==> r.value == PathOf(TreeOf(contents), id).value
      ensures r.Err? ==> r.error == Unexpected
    {
      ghost var t := TreeOf(contents);
      PathStep(t, id);
      if id !in contents {
        return Err(Unexpected);
      }
      var parts := [contents[id].name];
      var current := contents[id];
      ghost var at := id;
      while current.parent.Some?
        invariant at in contents && contents[at] == current && Stops(t, at)
        invariant PathOf(t, id) == Extend(FolderPath(t, current.parent), parts)
        decreases Depth(t, at)
      {
        var parentId := current.parent.value;
        DepthStep(t, at);
        PathStep(t, parentId);
        if parentId !in contents {
          return Err(Unexpected);
        }
        at, current := parentId, contents[parentId];
        ghost var above := FolderPath(t, current.parent);
        assert above.Some? ==> above.value + [current.name] + parts == above.value + ([current.name] + parts);
        parts := [current.name] + parts;
      }
      assert [] + parts == parts;
      r := Ok(parts);
    }

    /** Contents are compared one by one in no particular order. */
    method ContentIdForPath(path: Path) returns (r: Result<Option<ContentId>, StateError>)
      requires Acyclic(TreeOf(contents))
      ensures r.Ok? && r.value.Some? ==>
                r.value.value in contents && PathOf(TreeOf(contents), r.value.value) == Some(path)
      ensures r == Ok(None) ==> forall id :: id in contents ==> PathOf(TreeOf(contents), id) != Some(path)
      ensures ParentClosed(TreeOf(contents)) ==> r.Ok?
      ensures ParentClosed(TreeOf(contents)) && UniqueSiblings(TreeOf(contents)) ==>
                forall id :: id in contents && PathOf(TreeOf(contents), id) == Some(path) ==> r == Ok(Some(id))
    {
      ghost var t := TreeOf(contents);
      var left: set<ContentId> := contents.Keys;
      while left != {}
        invariant left <= contents.Keys
        invariant forall id :: id in contents && id !in left ==> PathOf(t, id) != Some(path)
        decreases left
      {
        SomeId(left);
        var id :| id in left;
        left := left - {id};
        assert id in t;
        var p := Path(id);
        if p.Err? {
          assert !ParentClosed(t) by {
            if ParentClosed(t) {
              PathDefined(t, id);
            }
          }
          return Err(p.error);
        }
        if p.value == path {
          forall x | x in contents && PathOf(t, x) == Some(path) && IsForest(t) && UniqueSiblings(t) ensures x == id {
            assert x in t;
            PathsDistinct(t, x, id);
          }
          return Ok(Some(id));
        }
      }
      r := Ok(None);
    }

    method DirectChildrenIds(id: ContentId) returns (r: seq<ContentId>)
      ensures ChildrenOf(TreeOf(contents), id, r)
      ensures forall i, j :: 0 <= i < j < |r| ==> r[i] != r[j]
    {
      r := [];
      var left: set<ContentId> := contents.Keys;
      while left != {}
        invariant left <= contents.Keys
        invariant forall x :: x in r <==> x in contents && x !in left && contents[x].parent == Some(id)
        invariant forall i, j :: 0 <= i < j < |r| ==> r[i] != r[j]
        decreases left
      {
        SomeId(left);
        var x :| x in left;
        left := left - {x};
        if contents[x].parent == Some(id) {
          r := r + [x];
        }
      }
    }

    method Forgot(id: ContentId) returns (r: Result<(), StateError>)
      modifies this`contents
      ensures r.Ok? <==> id in old(contents)
      ensures r.Err? ==> r.error == Unexpected
      ensures contents == old(contents) - {id}
    {
      if id !in contents {
        assert contents - {id} == contents;
        return Err(Unexpected);
      }
      contents := contents - {id};
      r := Ok(());
    }

    /** Removes the content and all its descendants, innermost first; fails exactly when it is absent. */
    method ForgotWithChildren(id: ContentId) returns (r: Result<(), StateError>)
      requires IsForest(TreeOf(contents))
      modifies this`contents
      ensures r.Ok? <==> id in old(contents)
      ensures r.Err? ==> r.error == Unexpected
      ensures contents == ApplyToMemory(old(contents), ForgetContent(id))
      decreases Subtree(TreeOf(contents), id)
    {
      hide IsForest, Under, Subtree, TreeOf, LacksChildren, ChildrenOf;
      ghost var before := contents;
      var children := DirectChildrenIds(id);
      LacksNothing(contents, children);
      for i := 0 to |children|
        invariant LacksChildren(before, contents, children, i)
      {
        LacksOneMore(before, contents, id, children, i);
        NextIsThere(before, contents, id, children, i);
        var forgotten := ForgotWithChildren(children[i]);
        if forgotten.Err? {
          return forgotten;
        }
      }
      LacksAll(before, contents, id, children);
      FolderIsThere(before, contents, id, children);
      r := Forgot(id);
    }

    method Add(content: Content, timestamp: nat)
      modifies this
      ensures contents == ApplyToMemory(old(contents), AddContent(content, timestamp))
      ensures timestamps == old(timestamps)[content.id := timestamp]
    {
      timestamps := timestamps[content.id := timestamp];
      contents := contents[content.id := content];
    }

    method Update(id: ContentId, name: Name, revision: int, parent: Option<ContentId>, timestamp: nat)
      returns (r: Result<(), StateError>)
      modifies this
      ensures r.Ok? <==> id in old(contents)
      ensures r.Err? ==> r.error == Unexpected && timestamps == old(timestamps)
      ensures r.Ok? ==> timestamps == old(timestamps)[id := timestamp]
      ensures contents == ApplyToMemory(old(contents), UpdateContent(id, name, revision, parent, timestamp))
    {
      if id !in contents {
        return Err(Unexpected);
      }
      contents := contents[id := contents[id].(name := name, revision := revision, parent := parent)];
      timestamps := timestamps[id := timestamp];
      r := Ok(());
    }

    /** One change, whichever it is; only what names an absent content fails, and leaves the contents as they are. */
    method Change(op: Op) returns (r: Result<(), StateError>)
      requires IsForest(TreeOf(contents))
      modifies this
      ensures contents == ApplyToMemory(old(contents), op)
      ensures r.Err? <==> (op.ForgetContent? || op.UpdateContent?) && op.id !in old(contents)
      ensures r.Err? ==> contents == old(contents)
    {
      match op {
        case ForgetContent(id) =>
          if id !in contents {
            NothingUnder(contents, id);
          }
          r := ForgotWithChildren(id);
        case AddContent(content, timestamp) =>
          Add(content, timestamp);
          r := Ok(());
        case UpdateContent(id, name, revision, parent, timestamp) =>
          r := Update(id, name, revision, parent, timestamp);
      }
    }
  }

  lemma NothingUnder(memory: Memory, id: ContentId)
    requires IsForest(TreeOf(memory)) && id !in memory
    ensures memory - Subtree(TreeOf(memory), id) == memory
  {
    var t := TreeOf(memory);
    forall x | x in t ensures !Under(t, id, x) {
      if Under(t, id, x) {
        UnderDepth(t, id, x);
      }
    }
  }

  /** `now` is `before` without the first `n` children and their descendants. */
  ghost predicate LacksChildren(before: Memory, now: Memory, children: seq<ContentId>, n: nat) {
    && n <= |children|
    && now == before - Covered(TreeOf(before), children, n)
    && Pruned(TreeOf(before), TreeOf(now), children, n)
  }

  lemma LacksNothing(before: Memory, children: seq<ContentId>)
    requires IsForest(TreeOf(before))
    ensures LacksChildren(before, before, children, 0)
  {
    assert before - {} == before;
    assert TreeOf(before) - {} == TreeOf(before);
  }

  lemma LacksOneMore(before: Memory, now: Memory, id: ContentId, children: seq<ContentId>, i: nat)
    requires IsForest(TreeOf(before)) && LacksChildren(before, now, children, i) && i < |children|
    requires ChildrenOf(TreeOf(before), id, children)
    ensures Subtree(TreeOf(now), children[i]) < Subtree(TreeOf(before), id)
    ensures LacksChildren(before, now - Subtree(TreeOf(now), children[i]), children, i + 1)
  {
    hide Subtree, IsForest;
    var gone := Subtree(TreeOf(now), children[i]);
    PruneStep(TreeOf(before), TreeOf(now), id, children, i);
    assert TreeOf(now - gone) == TreeOf(now) - gone;
    assert now - gone == before - Covered(TreeOf(before), children, i + 1);
  }

  lemma NextIsThere(before: Memory, now: Memory, id: ContentId, children: seq<ContentId>, i: nat)
    requires IsForest(TreeOf(before)) && LacksChildren(before, now, children, i) && i < |children|
    requires ChildrenOf(TreeOf(before), id, children)
    requires forall j, k :: 0 <= j < k < |children| ==> children[j] != children[k]
    ensures children[i] in now && IsForest(TreeOf(now))
  {
    assert children[i] in children;
    StillThere(TreeOf(before), id, children, i, children[i]);
  }

  lemma FolderIsThere(before: Memory, now: Memory, id: ContentId, children: seq<ContentId>)
    requires IsForest(TreeOf(before)) && LacksChildren(before, now, children, |children|)
    requires ChildrenOf(TreeOf(before), id, children)
    ensures id in now <==> id in before
  {
    if id in before {
      assert id in TreeOf(before);
      StillThere(TreeOf(before), id, children, |children|, id);
    }
  }

  lemma LacksAll(before: Memory, now: Memory, id: ContentId, children: seq<ContentId>)
    requires IsForest(TreeOf(before)) && LacksChildren(before, now, children, |children|)
    requires ChildrenOf(TreeOf(before), id, children)
    ensures now - {id} == before - Subtree(TreeOf(before), id)
  {
    PruneDone(TreeOf(before), id, children);
  }
}
