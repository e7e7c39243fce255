/** What creating, moving and removing do to the entries of a disk whose entries all lie in directories. */
module DiskMoves {
  import opened Forest
  import opened Contents
  import opened Disk
  import opened Executors

  lemma DirectoryAbove(disk: Disk, p: Path, above: Path)
    requires DiskTree(disk) && p in disk && above < p && above != []
    ensures above in disk && disk[above] == Directory
  {
    AboveIsDirectory(disk, ParentPath(p), |above|);
    assert ParentPath(p)[..|above|] == above;
  }

  ghost predicate IsPlain(disk: Disk, p: Path) {
    p in disk && disk[p] == Plain
  }

  /** Directories stay, and no plain file appears but at `p`. */
  ghost predicate Grown(disk: Disk, now: Disk, p: Path) {
    && DiskTree(now)
    && (forall q :: IsDirectory(disk, q) ==> IsDirectory(now, q))
    && (forall q :: IsPlain(now, q) ==> IsPlain(disk, q) || q == p)
  }

  lemma FolderCreated(disk: Disk, p: Path, ok: bool)
    requires DiskTree(disk) && CreateDirAll(disk, p, ok).Some?
    ensures Grown(disk, CreateDirAll(disk, p, ok).value, p) && IsDirectory(CreateDirAll(disk, p, ok).value, p)
  {
    var now := CreateDirAll(disk, p, ok).value;
    forall q | q in now ensures q != [] && IsDirectory(now, ParentPath(q)) {
      if q in Prefixes(p) {
        var k :| 1 <= k <= |p| && q == p[..k];
        if k > 1 {
          assert ParentPath(q) == p[..k - 1] && p[..k - 1] in Prefixes(p);
        }
      } else {
        assert IsDirectory(disk, ParentPath(q));
      }
    }
    if p != [] {
      assert p[..|p|] == p && p in Prefixes(p);
    }
  }

  lemma FileCreated(disk: Disk, p: Path, ok: bool)
    requires DiskTree(disk) && CreateFile(disk, p, ok).Some?
    ensures Grown(disk, CreateFile(disk, p, ok).value, p)
  {
    var now := CreateFile(disk, p, ok).value;
    forall q | q in now ensures q != [] && IsDirectory(now, ParentPath(q)) {
      if q in disk {
        assert IsDirectory(disk, ParentPath(q));
      }
    }
  }

  /** After a folder has moved, nothing is left on disk where its descendants were. */
  lemma NothingLeftBelow(disk: Disk, source: Path, target: Path, p: Path)
    requires DiskTree(disk) && RenameOnDisk(disk, source, target, true).Some? && source <= p
    ensures p !in MoveBelow(disk, source, target) && p != target
  {
    if target < source {
      DirectoryAbove(disk, source, target);
    }
    assert !(target <= source);
    assert target <= p ==> target <= source || source <= target;
  }

  /** Nothing but the replaced entry itself was at or below the target. */
  lemma TargetWasBare(disk: Disk, source: Path, target: Path, q: Path)
    requires DiskTree(disk) && RenameOnDisk(disk, source, target, true).Some? && q in disk && target <= q
    ensures q == target
  {
    if target < q {
      DirectoryAbove(disk, q, target);
    }
  }

  lemma MovedAt(disk: Disk, source: Path, target: Path, q: Path)
    requires DiskTree(disk) && RenameOnDisk(disk, source, target, true).Some?
    ensures var now := MoveBelow(disk, source, target);
            && (target <= q ==>
                  && (q in now <==> source + q[|target|..] in disk)
                  && (q in now ==> now[q] == disk[source + q[|target|..]]))
            && (!(target <= q) ==>
                  && (q in now <==> q in disk && !(source <= q))
                  && (q in now ==> now[q] == disk[q]))
  {
    var now := MoveBelow(disk, source, target);
    if target <= q {
      var k := source + q[|target|..];
      assert target + k[|source|..] == q;
      if q in disk {
        TargetWasBare(disk, source, target, q);
      }
      assert q == target ==> k == source;
      assert k in disk ==> q in now && now[q] == disk[k];
      assert q in now ==> k in disk || (q in disk && !(source <= q));
    }
  }

  /** A move keeps every directory that is neither moved nor replaced, and carries plain files along. */
  lemma Moved(disk: Disk, source: Path, target: Path)
    requires DiskTree(disk) && RenameOnDisk(disk, source, target, true).Some?
    ensures var now := MoveBelow(disk, source, target);
            && DiskTree(now)
            && target in now && now[target] == disk[source]
            && (forall q :: IsDirectory(disk, q) && !(source <= q) && q != target ==> IsDirectory(now, q))
            && (forall q :: IsPlain(now, q) ==>
                  (IsPlain(disk, q) && !(source <= q)) || (target <= q && IsPlain(disk, source + q[|target|..])))
  {
    var now := MoveBelow(disk, source, target);
    MovedAt(disk, source, target, target);
    assert target[|target|..] == [] && source + [] == source;
    forall q | IsDirectory(disk, q) && !(source <= q) && q != target ensures IsDirectory(now, q) {
      MovedAt(disk, source, target, q);
      if q in disk && target <= q {
        TargetWasBare(disk, source, target, q);
      }
    }
    forall q | IsPlain(now, q)
      ensures (IsPlain(disk, q) && !(source <= q)) || (target <= q && IsPlain(disk, source + q[|target|..]))
    {
      MovedAt(disk, source, target, q);
    }
    forall q | q in now ensures q != [] && IsDirectory(now, ParentPath(q)) {
      MovedParent(disk, source, target, q);
    }
  }

  lemma MovedParent(disk: Disk, source: Path, target: Path, q: Path)
    requires DiskTree(disk) && RenameOnDisk(disk, source, target, true).Some? && q in MoveBelow(disk, source, target)
    ensures q != [] && IsDirectory(MoveBelow(disk, source, target), ParentPath(q))
  {
    hide MoveBelow, Replaceable;
    MovedAt(disk, source, target, q);
    var parent := ParentPath(q);
    MovedAt(disk, source, target, parent);
    if target < q {
      var k := source + q[|target|..];
      assert ParentPath(k) == source + parent[|target|..];
      assert IsDirectory(disk, ParentPath(k));
    } else {
      assert source <= parent ==> source <= q;
      assert target <= parent ==> target < q;
      assert q != target ==> q in disk && !(source <= q);
      assert IsDirectory(disk, parent) && !(target <= parent) && !(source <= parent);
    }
  }

  ghost function Cleared(disk: Disk, p: Path): Disk {
    map q | q in disk && !(p <= q) :: disk[q]
  }

  lemma ClearedIsTree(disk: Disk, p: Path)
    requires DiskTree(disk) && p != []
    ensures DiskTree(Cleared(disk, p))
  {
    forall q | q in Cleared(disk, p) ensures q != [] && IsDirectory(Cleared(disk, p), ParentPath(q)) {
      assert IsDirectory(disk, ParentPath(q));
      assert p <= ParentPath(q) ==> p <= q;
    }
  }

  /** Either call for a removal clears the place, since nothing lies below a plain file. */
  lemma RemovalClears(disk: Disk, p: Path)
    requires DiskTree(disk) && p != []
    ensures RemoveFromDisk(disk, p, TypeAt(disk, p), true) == Cleared(disk, p)
  {
    hide HasSuffix, LastName;
    forall q | q in disk && p <= q ensures q == p || (p in disk && disk[p] == Directory) {
      if q != p {
        DirectoryAbove(disk, q, p);
      }
    }
  }

  /** A removal that succeeds takes the content's whole place on disk, and nothing else. */
  lemma Removed(disk: Disk, p: Path)
    requires DiskTree(disk) && p != []
    ensures var now := RemoveFromDisk(disk, p, TypeAt(disk, p), true);
            && DiskTree(now)
            && (forall q :: IsDirectory(disk, q) && !(p <= q) ==> IsDirectory(now, q))
            && (forall q :: IsPlain(now, q) ==> IsPlain(disk, q) && !(p <= q))
  {
    hide RemoveFromDisk, TypeAt, DiskTree;
    RemovalClears(disk, p);
    ClearedIsTree(disk, p);
  }

  /** Whatever kind a content is taken for, a removal clears its whole place or does nothing. */
  lemma ClearsOrNot(disk: Disk, p: Path, kind: ContentType)
    requires DiskTree(disk) && p != []
    ensures var now := RemoveFromDisk(disk, p, kind, true); now == disk || now == Cleared(disk, p)
  {
    if RemoveFromDisk(disk, p, kind, true) != disk && kind != Folder {
      RemovalClears(disk, p);
      forall q | q in disk && p <= q ensures q == p {
        if q != p {
          DirectoryAbove(disk, q, p);
        }
      }
      assert disk - {p} == Cleared(disk, p);
    }
  }
}
