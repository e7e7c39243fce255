/** The synchronized folder on disk, by relative path; the folder itself is the empty path. */
module Disk {
  import opened Forest
  import opened Contents

  datatype Entry = Directory | Plain

  type Disk = map<Path, Entry>

  const HTML_DOCUMENT_LOCAL_EXTENSION := ".document.html"

  function LastName(p: Path): Name {
    if p == [] then "" else p[|p| - 1]
  }

  function HasSuffix(name: Name, suffix: Name): bool {
    |suffix| <= |name| && name[|name| - |suffix|..] == suffix
  }

  predicate Exists(disk: Disk, p: Path) {
    p == [] || p in disk
  }

  predicate IsDirectory(disk: Disk, p: Path) {
    p == [] || (p in disk && disk[p] == Directory)
  }

  /** A content type is guessed from what is on disk at its path. */
  function TypeAt(disk: Disk, p: Path): ContentType {
    if IsDirectory(disk, p) then Folder
    else if HasSuffix(LastName(p), HTML_DOCUMENT_LOCAL_EXTENSION) then HtmlDocument
    else File
  }

  function ParentPath(p: Path): Path
    requires p != []
  {
    p[..|p| - 1]
  }

  /** A disk whose entries all lie in directories. */
  ghost predicate DiskTree(disk: Disk) {
    forall q :: q in disk ==> q != [] && IsDirectory(disk, ParentPath(q))
  }

  lemma {:induction false} AboveIsDirectory(disk: Disk, p: Path, k: nat)
    requires DiskTree(disk) && IsDirectory(disk, p) && k <= |p|
    ensures IsDirectory(disk, p[..k])
    decreases |p|
  {
    if k < |p| {
      AboveIsDirectory(disk, ParentPath(p), k);
      assert ParentPath(p)[..k] == p[..k];
    } else {
      assert p[..k] == p;
    }
  }

  /** Whatever is no folder is an html document if its name ends in that way, and a file otherwise. */
  lemma TypesByName(disk: Disk, above: Path, name: Name)
    ensures IsDirectory(disk, above + [name]) <==> TypeAt(disk, above + [name]) == Folder
    ensures TypeAt(disk, above + [name]) == HtmlDocument <==>
            !IsDirectory(disk, above + [name]) && exists stem :: name == stem + ".document.html"
  {
    if HasSuffix(name, ".document.html") {
      assert name == name[..|name| - |".document.html"|] + ".document.html";
    }
    forall stem | name == stem + ".document.html" ensures HasSuffix(name, ".document.html") {
    }
  }
}
