/**
 * Upload routing: which remote folders a local file or directory tree is
 * placed in. The local file system is a value: what exists at the path.
 */
module Uploader {
  import opened Wrappers
  import opened Retention
  import opened FolderIndex

  /** A local file, or a directory with its entries in listing order. */
  datatype Node = File | Dir(entries: seq<Entry>)
  datatype Entry = Entry(name: string, node: Node)

  /** A configured path, split into its parts, and what the local disk holds there. */
  datatype LocalPath = LocalPath(parts: seq<string>, node: Option<Node>)

  /** The last part of a path (pathlib's `name`; empty for the current directory). */
  function Name(path: seq<string>): string {
    if path == [] then "" else path[|path| - 1]
  }

  /** The parts of the enclosing directory (pathlib's `parent`). */
  function ParentParts(path: seq<string>): (r: seq<string>)
    ensures path != [] ==> path == r + [Name(path)]
  {
    if path == [] then [] else path[..|path| - 1]
  }

  /** The names of the files directly in a directory, in listing order. */
  function FileNames(entries: seq<Entry>): seq<string> {
    if entries == [] then []
    else (if entries[0].node.File? then [entries[0].name] else []) + FileNames(entries[1..])
  }

  /** The subdirectories of a directory, in listing order. */
  function SubDirs(entries: seq<Entry>): seq<Entry> {
    if entries == [] then []
    else (if entries[0].node.Dir? then [entries[0]] else []) + SubDirs(entries[1..])
  }

  /** Each listed subdirectory is an entry of the directory, and a directory. */
  lemma {:induction false} SubDirAt(entries: seq<Entry>, i: nat)
    requires i < |SubDirs(entries)|
    ensures SubDirs(entries)[i] in entries && SubDirs(entries)[i].node.Dir?
  {
    var head := if entries[0].node.Dir? then [entries[0]] else [];
    assert SubDirs(entries) == head + SubDirs(entries[1..]);
    if i >= |head| {
      SubDirAt(entries[1..], i - |head|);
      assert SubDirs(entries)[i] == SubDirs(entries[1..])[i - |head|];
    }
  }

  /** Uploads the named files, in order, into `folder`. */
  function UploadFiles(st: Store, names: seq<string>, folder: Option<FolderId>): (r: Store)
    ensures Grows(st, r) && r.folders == st.folders
    ensures |r.files| == |st.files| + |names|
    decreases |names|
  {
    if names == [] then st
    else UploadFile(UploadFiles(st, names[..|names| - 1], folder), names[|names| - 1], folder)
  }

  /**
   * `upload` of a path that exists. A file goes into the folder its parent
   * directory's path resolves to. A directory resolves its own full path,
   * receives its files, and then each subdirectory is uploaded with that
   * folder as `parent_id`, so re-resolving its full path inside it.
   */
  function UploadTree(st: Store, path: seq<string>, node: Node, parent: Option<FolderId>): (r: Store)
    ensures Grows(st, r)
    ensures |r.files| == |st.files| + CountFiles(node)
    decreases node, 1
  {
    match node
    case File =>
      var (st1, folder) := CreatePath(st, ParentParts(path), parent);
      UploadFile(st1, Name(path), folder)
    case Dir(entries) =>
      var (st1, folder) := CreatePath(st, path, parent);
      var st2 := UploadFiles(st1, FileNames(entries), folder);
      UploadDirs(st2, path, node, |SubDirs(entries)|, folder)
  }

  /** Uploads the first `k` subdirectories of `dir`, in order. */
  function UploadDirs(st: Store, root: seq<string>, dir: Node, k: nat, folder: Option<FolderId>): (r: Store)
    requires dir.Dir? && k <= |SubDirs(dir.entries)|
    ensures Grows(st, r)
    ensures |r.files| == |st.files| + CountDirFiles(dir, k)
    decreases dir, 0, k
  {
    if k == 0 then st
    else
      var d := SubDirs(dir.entries)[k - 1];
      SubDirAt(dir.entries, k - 1);
      UploadTree(UploadDirs(st, root, dir, k - 1, folder), root + [d.name], d.node, folder)
  }

  /** `upload`: a path that does not exist is skipped. */
  function Upload(st: Store, path: seq<string>, node: Option<Node>, parent: Option<FolderId>): (r: Store)
    ensures Grows(st, r)
    ensures node.None? ==> r == st
  {
    match node
    case None => st
    case Some(n) => UploadTree(st, path, n, parent)
  }

  /** Uploads the configured paths, in order, into `parent`. */
  function UploadAll(st: Store, paths: seq<LocalPath>, parent: Option<FolderId>): (r: Store)
    ensures Grows(st, r)
    decreases |paths|
  {
    if paths == [] then st
    else
      var p := paths[|paths| - 1];
      Upload(UploadAll(st, paths[..|paths| - 1], parent), p.parts, p.node, parent)
  }

  // ---------------------------------------------------------------------
  // Properties
  // ---------------------------------------------------------------------

  /** The number of files in a local tree. */
  function CountFiles(node: Node): nat
    decreases node, 1
  {
    match node
    case File => 1
    case Dir(entries) => |FileNames(entries)| + CountDirFiles(node, |SubDirs(entries)|)
  }

  /** The number of files in the first `k` subdirectories of `dir`. */
  function CountDirFiles(dir: Node, k: nat): nat
    requires dir.Dir? && k <= |SubDirs(dir.entries)|
    decreases dir, 0, k
  {
    if k == 0 then 0
    else
      var d := SubDirs(dir.entries)[k - 1];
      SubDirAt(dir.entries, k - 1);
      CountDirFiles(dir, k - 1) + CountFiles(d.node)
  }

  /** Uploading files keeps the store valid. */
  lemma {:induction false} UploadFilesValid(st: Store, names: seq<string>, folder: Option<FolderId>)
    requires Valid(st)
    ensures Valid(UploadFiles(st, names, folder))
    decreases |names|
  {
    if names != [] {
      UploadFilesValid(st, names[..|names| - 1], folder);
      UploadFileKeepsValid(UploadFiles(st, names[..|names| - 1], folder), names[|names| - 1], folder);
    }
  }

  /** Uploading a tree keeps the store valid. */
  lemma {:induction false} UploadTreeValid(st: Store, path: seq<string>, node: Node, parent: Option<FolderId>)
    requires Valid(st)
    ensures Valid(UploadTree(st, path, node, parent))
    decreases node, 1
  {
    match node
    case File =>
      CreatePathGrows(st, ParentParts(path), parent);
      var (st1, folder) := CreatePath(st, ParentParts(path), parent);
      UploadFileKeepsValid(st1, Name(path), folder);
    case Dir(entries) =>
      CreatePathGrows(st, path, parent);
      var (st1, folder) := CreatePath(st, path, parent);
      UploadFilesValid(st1, FileNames(entries), folder);
      var st2 := UploadFiles(st1, FileNames(entries), folder);
      UploadDirsValid(st2, path, node, |SubDirs(entries)|, folder);
  }

  /** Uploading the first `k` subdirectories keeps the store valid. */
  lemma {:induction false} UploadDirsValid(st: Store, root: seq<string>, dir: Node, k: nat, folder: Option<FolderId>)
    requires dir.Dir? && k <= |SubDirs(dir.entries)|
    requires Valid(st)
    ensures Valid(UploadDirs(st, root, dir, k, folder))
    decreases dir, 0, k, 1
  {
    if k > 0 {
      UploadDirsValid(st, root, dir, k - 1, folder);
      UploadDirValid(st, root, dir, k, folder);
    }
  }

  /** Uploading subdirectory `k - 1` keeps the store valid. */
  lemma {:induction false} UploadDirValid(st: Store, root: seq<string>, dir: Node, k: nat, folder: Option<FolderId>)
    requires dir.Dir? && 0 < k <= |SubDirs(dir.entries)|
    requires Valid(UploadDirs(st, root, dir, k - 1, folder))
    ensures Valid(UploadDirs(st, root, dir, k, folder))
    decreases dir, 0, k, 0
  {
    var d := SubDirs(dir.entries)[k - 1];
    SubDirAt(dir.entries, k - 1);
    UploadTreeValid(UploadDirs(st, root, dir, k - 1, folder), root + [d.name], d.node, folder);
  }

  /**
   * A file is uploaded, under its own name, into the folder that resolving
   * its parent directory's path inside `parent` returns; nothing else is
   * uploaded.
   */
  lemma UploadFileRouting(st: Store, path: seq<string>, parent: Option<FolderId>)
    ensures var (st1, folder) := CreatePath(st, ParentParts(path), parent);
      var st' := Upload(st, path, Some(File), parent);
      && st'.folders == st1.folders
      && st'.files == st.files + [DriveFile(st1.nextId, Name(path), folder)]
  {
    CreatePathGrows(st, ParentParts(path), parent);
  }

  /** The files `UploadFiles` appends: one per name, in order, with consecutive fresh ids, all inside `folder`. */
  lemma {:induction false} UploadFilesContent(st: Store, names: seq<string>, folder: Option<FolderId>)
    ensures var st' := UploadFiles(st, names, folder);
      && st'.nextId == st.nextId + |names|
      && st'.files == st.files + seq(|names|, j requires 0 <= j < |names| => DriveFile(st.nextId + j, names[j], folder))
    decreases |names|
  {
    if names != [] {
      var init := names[..|names| - 1];
      UploadFilesContent(st, init, folder);
      var mid := UploadFiles(st, init, folder);
      var st' := UploadFiles(st, names, folder);
      var all := seq(|names|, j requires 0 <= j < |names| => DriveFile(st.nextId + j, names[j], folder));
      var pre := seq(|init|, j requires 0 <= j < |init| => DriveFile(st.nextId + j, init[j], folder));
      assert all == pre + [DriveFile(mid.nextId, names[|names| - 1], folder)];
    }
  }

  /**
   * Every file directly in a directory is uploaded, under its name and in
   * listing order, into the folder the directory's own path resolves to.
   */
  lemma DirectoryFilesInFolder(st: Store, path: seq<string>, entries: seq<Entry>, parent: Option<FolderId>)
    ensures var (st1, folder) := CreatePath(st, path, parent);
      var st' := Upload(st, path, Some(Dir(entries)), parent);
      var names := FileNames(entries);
      && |st'.files| >= |st.files| + |names|
      && forall j :: 0 <= j < |names| ==> st'.files[|st.files| + j] == DriveFile(st1.nextId + j, names[j], folder)
  {
    var (st1, folder) := CreatePath(st, path, parent);
    var names := FileNames(entries);
    UploadFilesContent(st1, names, folder);
    var st2 := UploadFiles(st1, names, folder);
    var st' := Upload(st, path, Some(Dir(entries)), parent);
    assert st' == UploadDirs(st2, path, Dir(entries), |SubDirs(entries)|, folder);
    forall j | 0 <= j < |names|
      ensures st'.files[|st.files| + j] == DriveFile(st1.nextId + j, names[j], folder)
    {
      assert st'.files[|st.files| + j] == st2.files[|st.files| + j];
    }
  }

  /** Uploading a directory only extends what resolving its own path leaves. */
  lemma DirectoryAfterPath(st: Store, path: seq<string>, node: Node, parent: Option<FolderId>)
    requires node.Dir?
    ensures Grows(CreatePath(st, path, parent).0, UploadTree(st, path, node, parent))
  {
    var st1 := CreatePath(st, path, parent).0;
    var st2 := UploadFiles(st1, FileNames(node.entries), CreatePath(st, path, parent).1);
    GrowsTrans(st1, st2, UploadTree(st, path, node, parent));
  }

  /** Uploading more subdirectories only extends what the earlier ones left. */
  lemma {:induction false} UploadDirsPrefix(st: Store, root: seq<string>, dir: Node, k: nat, m: nat, folder: Option<FolderId>)
    requires dir.Dir? && k <= m <= |SubDirs(dir.entries)|
    ensures Grows(UploadDirs(st, root, dir, k, folder), UploadDirs(st, root, dir, m, folder))
    decreases m
  {
    if k < m {
      var j := m - 1;
      UploadDirsPrefix(st, root, dir, k, j, folder);
      UploadDirsOneMore(st, root, dir, m, folder);
      GrowsTrans(UploadDirs(st, root, dir, k, folder), UploadDirs(st, root, dir, j, folder), UploadDirs(st, root, dir, m, folder));
    }
  }

  /**
   * Uploading one more subdirectory first resolves its path inside
   * `folder`, and only extends what that resolution leaves.
   */
  lemma UploadDirsOneMore(st: Store, root: seq<string>, dir: Node, m: nat, folder: Option<FolderId>)
    requires dir.Dir? && 0 < m <= |SubDirs(dir.entries)|
    ensures Grows(UploadDirs(st, root, dir, m - 1, folder), UploadDirs(st, root, dir, m, folder))
    ensures Grows(CreatePath(UploadDirs(st, root, dir, m - 1, folder), root + [SubDirs(dir.entries)[m - 1].name], folder).0,
                  UploadDirs(st, root, dir, m, folder))
  {
    var prev := UploadDirs(st, root, dir, m - 1, folder);
    var d := SubDirs(dir.entries)[m - 1];
    SubDirAt(dir.entries, m - 1);
    DirectoryAfterPath(prev, root + [d.name], d.node, folder);
    GrowsTrans(prev, CreatePath(prev, root + [d.name], folder).0, UploadDirs(st, root, dir, m, folder));
  }

  /**
   * The folders resolving subdirectory `k`'s path leaves behind are still
   * in place, in order, once the whole directory is uploaded.
   */
  lemma SubdirectoryFoldersKept(st: Store, path: seq<string>, entries: seq<Entry>, parent: Option<FolderId>, k: nat)
    requires k < |SubDirs(entries)|
    ensures var (st1, folder) := CreatePath(st, path, parent);
      var d := SubDirs(entries)[k];
      var before := UploadDirs(UploadFiles(st1, FileNames(entries), folder), path, Dir(entries), k, folder);
      CreatePath(before, path + [d.name], folder).0.folders <= Upload(st, path, Some(Dir(entries)), parent).folders
  {
    var node := Dir(entries);
    var (st1, folder) := CreatePath(st, path, parent);
    var st2 := UploadFiles(st1, FileNames(entries), folder);
    var d := SubDirs(entries)[k];
    var before := UploadDirs(st2, path, node, k, folder);
    var cp := CreatePath(before, path + [d.name], folder);
    var after := UploadDirs(st2, path, node, k + 1, folder);
    UploadDirsOneMore(st2, path, node, k + 1, folder);
    UploadDirsPrefix(st2, path, node, k + 1, |SubDirs(entries)|, folder);
    var st' := UploadDirs(st2, path, node, |SubDirs(entries)|, folder);
    assert Upload(st, path, Some(node), parent) == st';
    GrowsTrans(cp.0, after, st');
  }

  /**
   * Each subdirectory `d` of a directory is uploaded with the directory's
   * folder as `parent_id`, so its full path is resolved again inside that
   * folder: in the final store every segment of `path + [d.name]` is the
   * first folder with that name inside the previous segment's folder, the
   * first inside the directory's folder.
   */
  lemma SubdirectoryUnderParentFolder(st: Store, path: seq<string>, entries: seq<Entry>, parent: Option<FolderId>, k: nat)
    requires k < |SubDirs(entries)|
    ensures var (st1, folder) := CreatePath(st, path, parent);
      var d := SubDirs(entries)[k];
      var before := UploadDirs(UploadFiles(st1, FileNames(entries), folder), path, Dir(entries), k, folder);
      var ids := PathIds(before, path + [d.name], folder);
      var st' := Upload(st, path, Some(Dir(entries)), parent);
      forall i :: 0 <= i <= |path| ==>
        IsFirstMatch(st'.folders, (path + [d.name])[i], SegmentParent(ids, folder, i), ids[i])
  {
    var (st1, folder) := CreatePath(st, path, parent);
    var d := SubDirs(entries)[k];
    var sub := path + [d.name];
    var before := UploadDirs(UploadFiles(st1, FileNames(entries), folder), path, Dir(entries), k, folder);
    var ids := PathIds(before, sub, folder);
    var fs := Upload(st, path, Some(Dir(entries)), parent).folders;
    SubdirectoryFoldersKept(st, path, entries, parent, k);
    CreatePathChainKept(before, sub, folder, fs);
  }

  /** Uploading the configured paths keeps the store valid. */
  lemma {:induction false} UploadAllValid(st: Store, paths: seq<LocalPath>, parent: Option<FolderId>)
    requires Valid(st)
    ensures Valid(UploadAll(st, paths, parent))
    decreases |paths|
  {
    if paths != [] {
      var p := paths[|paths| - 1];
      var mid := UploadAll(st, paths[..|paths| - 1], parent);
      UploadAllValid(st, paths[..|paths| - 1], parent);
      if p.node.Some? {
        UploadTreeValid(mid, p.parts, p.node.value, parent);
      }
    }
  }

  // ---------------------------------------------------------------------
  // Uploads below a folder
  // ---------------------------------------------------------------------

  lemma UploadTreeUnder(st: Store, path: seq<string>, node: Node, q: FolderId, r: FolderId)
    requires Above(st, r) && st.nextId >= r && q >= r
    ensures var st' := UploadTree(st, path, node, Some(q));
      Above(st', r) && st'.nextId >= r && AddedUnder(st, st', r)
    decreases node, 1
  {
    match node
    case File =>
      CreatePathUnder(st, ParentParts(path), q, r);
    case Dir(entries) =>
      CreatePathUnder(st, path, q, r);
      var (st1, folder) := CreatePath(st, path, Some(q));
      var st2 := UploadFiles(st1, FileNames(entries), folder);
      UploadDirsUnder(st2, path, node, |SubDirs(entries)|, folder.value, r);
      AddedUnderTrans(st, st1, UploadTree(st, path, node, Some(q)), r);
  }

  lemma {:induction false} UploadDirsUnder(st: Store, root: seq<string>, dir: Node, k: nat, q: FolderId, r: FolderId)
    requires dir.Dir? && k <= |SubDirs(dir.entries)|
    requires Above(st, r) && st.nextId >= r && q >= r
    ensures Above(UploadDirs(st, root, dir, k, Some(q)), r)
    ensures UploadDirs(st, root, dir, k, Some(q)).nextId >= r
    ensures AddedUnder(st, UploadDirs(st, root, dir, k, Some(q)), r)
    decreases dir, 0, k, 1
  {
    if k > 0 {
      UploadDirsUnder(st, root, dir, k - 1, q, r);
      UploadDirUnder(st, root, dir, k, q, r);
    }
  }

  lemma {:induction false} UploadDirUnder(st: Store, root: seq<string>, dir: Node, k: nat, q: FolderId, r: FolderId)
    requires dir.Dir? && 0 < k <= |SubDirs(dir.entries)| && q >= r
    requires Above(UploadDirs(st, root, dir, k - 1, Some(q)), r)
    requires UploadDirs(st, root, dir, k - 1, Some(q)).nextId >= r
    requires AddedUnder(st, UploadDirs(st, root, dir, k - 1, Some(q)), r)
    ensures Above(UploadDirs(st, root, dir, k, Some(q)), r)
    ensures UploadDirs(st, root, dir, k, Some(q)).nextId >= r
    ensures AddedUnder(st, UploadDirs(st, root, dir, k, Some(q)), r)
    decreases dir, 0, k, 0
  {
    var d := SubDirs(dir.entries)[k - 1];
    SubDirAt(dir.entries, k - 1);
    var mid := UploadDirs(st, root, dir, k - 1, Some(q));
    UploadTreeUnder(mid, root + [d.name], d.node, q, r);
    AddedUnderTrans(st, mid, UploadDirs(st, root, dir, k, Some(q)), r);
  }

  /**
   * Uploading the configured paths into a folder with id at least `r`, in a
   * store where only folders with such ids sit below such parents, appends
   * only folders whose parent id is at least `r`.
   */
  lemma {:induction false} UploadAllUnder(st: Store, paths: seq<LocalPath>, q: FolderId, r: FolderId)
    requires Above(st, r) && st.nextId >= r && q >= r
    ensures var st' := UploadAll(st, paths, Some(q));
      Above(st', r) && st'.nextId >= r && AddedUnder(st, st', r)
    decreases |paths|
  {
    if paths != [] {
      var p := paths[|paths| - 1];
      var mid := UploadAll(st, paths[..|paths| - 1], Some(q));
      UploadAllUnder(st, paths[..|paths| - 1], q, r);
      if p.node.Some? {
        UploadTreeUnder(mid, p.parts, p.node.value, q, r);
      }
      AddedUnderTrans(st, mid, UploadAll(st, paths, Some(q)), r);
    }
  }
}
