/**
 * The remote store as values: the folders and uploaded files the storage
 * service holds, and the folder operations the backup program performs on
 * it (find-or-create, path resolution, listing a folder, deleting by id).
 */
module FolderIndex {
  import opened Wrappers
  import opened Retention

  /** A folder on the service; `parent == None` is the drive's root. */
  datatype Folder = Folder(id: FolderId, name: string, parent: Option<FolderId>, trashed: bool, createdTime: int)

  /** An uploaded file. */
  datatype DriveFile = DriveFile(id: FolderId, name: string, parent: Option<FolderId>)

  /**
   * The service's state: folders in the order its queries list them,
   * uploaded files, and the next identifier it hands out.
   */
  datatype Store = Store(folders: seq<Folder>, files: seq<DriveFile>, nextId: FolderId)

  /**
   * Ids are handed out from the counter, so every id in use lies below it;
   * the counter also runs ahead of every creation time, as the server's
   * clock runs ahead of the folders it has already created.
   */
  ghost predicate Valid(st: Store) {
    && (forall i :: 0 <= i < |st.folders| ==> st.folders[i].id < st.nextId)
    && (forall i :: 0 <= i < |st.folders| ==> st.folders[i].createdTime < st.nextId)
    && (forall i :: 0 <= i < |st.files| ==> st.files[i].id < st.nextId)
    && DistinctFolderIds(st.folders)
    && DistinctFileIds(st.files)
  }

  /** `a` is what `b` held before it only grew by appending. */
  ghost predicate Grows(a: Store, b: Store) {
    && a.folders <= b.folders
    && a.files <= b.files
    && a.nextId <= b.nextId
  }

  lemma GrowsTrans(a: Store, b: Store, c: Store)
    requires Grows(a, b) && Grows(b, c)
    ensures Grows(a, c)
  {
    assert a.folders == c.folders[..|b.folders|][..|a.folders|];
    assert a.files == c.files[..|b.files|][..|a.files|];
  }

  // ---------------------------------------------------------------------
  // find_or_create_folder
  // ---------------------------------------------------------------------

  /**
   * The folder query: not trashed, with that name, and inside `parent` when
   * a parent is given (without one the parent is not constrained).
   */
  predicate Matches(f: Folder, name: string, parent: Option<FolderId>) {
    && !f.trashed
    && f.name == name
    && (parent.Some? ==> f.parent == parent)
  }

  /** The position of the first folder the query returns, if any. */
  function FirstMatch(fs: seq<Folder>, name: string, parent: Option<FolderId>): (r: Option<nat>)
    ensures r.Some? ==> r.value < |fs| && Matches(fs[r.value], name, parent)
    ensures r.Some? ==> forall j :: 0 <= j < r.value ==> !Matches(fs[j], name, parent)
    ensures r.None? <==> forall j :: 0 <= j < |fs| ==> !Matches(fs[j], name, parent)
  {
    if fs == [] then None
    else if Matches(fs[0], name, parent) then Some(0)
    else
      match FirstMatch(fs[1..], name, parent)
      case None => None
      case Some(k) => Some(k + 1)
  }

  /** The folder created when the query finds nothing. */
  function NewFolder(st: Store, name: string, parent: Option<FolderId>): Folder {
    Folder(st.nextId, name, parent, false, st.nextId)
  }

  /**
   * `find_or_create_folder`: the id of the first matching folder, or the id
   * of a folder created with that name (and that parent, when one is given).
   */
  function FindOrCreate(st: Store, name: string, parent: Option<FolderId>): (r: (Store, FolderId))
    ensures Grows(st, r.0) && r.0.files == st.files
    ensures |r.0.folders| <= |st.folders| + 1
  {
    match FirstMatch(st.folders, name, parent)
    case Some(i) => (st, st.folders[i].id)
    case None =>
      (st.(folders := st.folders + [NewFolder(st, name, parent)], nextId := st.nextId + 1), st.nextId)
  }

  /** `id` is the id of the first folder of `fs` the query returns. */
  ghost predicate IsFirstMatch(fs: seq<Folder>, name: string, parent: Option<FolderId>, id: FolderId) {
    exists i :: 0 <= i < |fs| && fs[i].id == id && Matches(fs[i], name, parent)
      && forall j :: 0 <= j < i ==> !Matches(fs[j], name, parent)
  }

  /** The first match of a prefix stays the first match however the sequence grows. */
  lemma {:induction false} FirstMatchExtends(fs: seq<Folder>, more: seq<Folder>, name: string, parent: Option<FolderId>)
    requires FirstMatch(fs, name, parent).Some?
    ensures FirstMatch(fs + more, name, parent) == FirstMatch(fs, name, parent)
  {
    var all, i := fs + more, FirstMatch(fs, name, parent).value;
    assert all[i] == fs[i];
    assert forall j :: 0 <= j < i ==> all[j] == fs[j];
  }

  /** With no match in `fs`, the first match of `fs + more` lies in `more`. */
  lemma {:induction false} FirstMatchSkips(fs: seq<Folder>, more: seq<Folder>, name: string, parent: Option<FolderId>)
    requires FirstMatch(fs, name, parent).None?
    requires FirstMatch(more, name, parent).Some?
    ensures FirstMatch(fs + more, name, parent) == Some(|fs| + FirstMatch(more, name, parent).value)
  {
    var all, k := fs + more, FirstMatch(more, name, parent).value;
    assert Matches(all[|fs| + k], name, parent);
    forall j | 0 <= j < |fs| + k
      ensures !Matches(all[j], name, parent)
    {
      if j < |fs| {
        assert all[j] == fs[j];
      } else {
        assert all[j] == more[j - |fs|];
      }
    }
  }

  /** The id returned names the first folder of the resulting store that the query returns. */
  lemma FindOrCreateFirst(st: Store, name: string, parent: Option<FolderId>)
    ensures IsFirstMatch(FindOrCreate(st, name, parent).0.folders, name, parent, FindOrCreate(st, name, parent).1)
  {
    match FirstMatch(st.folders, name, parent)
    case Some(i) =>
    case None =>
      var f := NewFolder(st, name, parent);
      FirstMatchSkips(st.folders, [f], name, parent);
      assert FindOrCreate(st, name, parent).0.folders[|st.folders|] == f;
  }

  /**
   * What `find_or_create_folder` promises: the returned id names the first
   * folder of the new store that the query returns; when the old store had
   * one the store is unchanged, otherwise exactly one folder is appended,
   * with the name, the parent and a fresh id.
   */
  lemma FindOrCreateSpec(st: Store, name: string, parent: Option<FolderId>)
    ensures var (st', id) := FindOrCreate(st, name, parent);
      && IsFirstMatch(st'.folders, name, parent, id)
      && Grows(st, st') && st'.files == st.files
      && (FirstMatch(st.folders, name, parent).Some? ==> st' == st)
      && (FirstMatch(st.folders, name, parent).None? ==>
            && st'.folders == st.folders + [Folder(id, name, parent, false, st.nextId)]
            && id == st.nextId && st'.nextId == st.nextId + 1)
      && (Valid(st) ==> Valid(st'))
  {
    FindOrCreateFirst(st, name, parent);
  }

  /** A second identical call finds the folder the first call returned and creates nothing. */
  lemma FindOrCreateIdempotent(st: Store, name: string, parent: Option<FolderId>)
    ensures var (st1, id1) := FindOrCreate(st, name, parent);
      FindOrCreate(st1, name, parent) == (st1, id1)
  {
    var (st1, _) := FindOrCreate(st, name, parent);
    FindOrCreateStable(st, st1, name, parent);
  }

  /**
   * Once a call has run, repeating it on any store that grew from the
   * result by appending returns the same id and changes nothing.
   */
  lemma FindOrCreateStable(st: Store, ext: Store, name: string, parent: Option<FolderId>)
    requires FindOrCreate(st, name, parent).0.folders <= ext.folders
    ensures FindOrCreate(ext, name, parent) == (ext, FindOrCreate(st, name, parent).1)
  {
    var (st1, id) := FindOrCreate(st, name, parent);
    var more := ext.folders[|st1.folders|..];
    assert ext.folders == st1.folders + more;
    match FirstMatch(st.folders, name, parent)
    case Some(i) =>
      FirstMatchExtends(st1.folders, more, name, parent);
    case None =>
      var f := NewFolder(st, name, parent);
      FirstMatchSkips(st.folders, [f], name, parent);
      FirstMatchExtends(st1.folders, more, name, parent);
      assert ext.folders[|st.folders|] == f;
  }

  lemma IsFirstMatchExtends(fs: seq<Folder>, more: seq<Folder>, name: string, parent: Option<FolderId>, id: FolderId)
    requires IsFirstMatch(fs, name, parent, id)
    ensures IsFirstMatch(fs + more, name, parent, id)
  {
    var i :| 0 <= i < |fs| && fs[i].id == id && Matches(fs[i], name, parent)
      && forall j :: 0 <= j < i ==> !Matches(fs[j], name, parent);
    assert (fs + more)[i] == fs[i];
    assert forall j :: 0 <= j < i ==> (fs + more)[j] == fs[j];
  }

  /** The same, for any sequence the folders are a prefix of. */
  lemma IsFirstMatchPrefix(fs: seq<Folder>, gs: seq<Folder>, name: string, parent: Option<FolderId>, id: FolderId)
    requires IsFirstMatch(fs, name, parent, id) && fs <= gs
    ensures IsFirstMatch(gs, name, parent, id)
  {
    IsFirstMatchExtends(fs, gs[|fs|..], name, parent, id);
    assert gs == fs + gs[|fs|..];
  }

  // ---------------------------------------------------------------------
  // create_path
  // ---------------------------------------------------------------------

  /**
   * `create_path`: resolves the segments one after another, each inside the
   * folder of the previous one (the first inside `parent`).
   */
  function CreatePath(st: Store, parts: seq<string>, parent: Option<FolderId>): (r: (Store, Option<FolderId>))
    ensures Grows(st, r.0) && r.0.files == st.files
    ensures parts == [] ==> r == (st, parent)
    ensures parts != [] ==> r.1.Some?
    decreases |parts|
  {
    if parts == [] then (st, parent)
    else
      var (st1, id) := FindOrCreate(st, parts[0], parent);
      CreatePath(st1, parts[1..], Some(id))
  }

  /** The folder id each segment resolves to. */
  function PathIds(st: Store, parts: seq<string>, parent: Option<FolderId>): (ids: seq<FolderId>)
    ensures |ids| == |parts|
    decreases |parts|
  {
    if parts == [] then []
    else
      var (st1, id) := FindOrCreate(st, parts[0], parent);
      [id] + PathIds(st1, parts[1..], Some(id))
  }

  /** The parent each segment is resolved in: `parent` for the first, the previous segment's folder after. */
  function SegmentParent(ids: seq<FolderId>, parent: Option<FolderId>, i: nat): Option<FolderId>
    requires i <= |ids|
  {
    if i == 0 then parent else Some(ids[i - 1])
  }

  /** Resolving a path only appends folders: at most one per segment, and no file. */
  lemma {:induction false} CreatePathGrows(st: Store, parts: seq<string>, parent: Option<FolderId>)
    ensures var st' := CreatePath(st, parts, parent).0;
      && Grows(st, st') && st'.files == st.files
      && |st'.folders| <= |st.folders| + |parts|
      && (Valid(st) ==> Valid(st'))
    decreases |parts|
  {
    if parts != [] {
      FindOrCreateSpec(st, parts[0], parent);
      var (st1, id) := FindOrCreate(st, parts[0], parent);
      CreatePathGrows(st1, parts[1..], Some(id));
    }
  }

  /** No segments give back `parent`; otherwise the result is the last segment's folder. */
  lemma {:induction false} CreatePathResult(st: Store, parts: seq<string>, parent: Option<FolderId>)
    ensures var ids := PathIds(st, parts, parent);
      CreatePath(st, parts, parent).1 == if parts == [] then parent else Some(ids[|ids| - 1])
    decreases |parts|
  {
    if |parts| > 1 {
      var res := FindOrCreate(st, parts[0], parent);
      CreatePathResult(res.0, parts[1..], Some(res.1));
    }
  }

  /**
   * What `create_path` promises: with no segments it returns `parent`,
   * otherwise the last segment's folder; and every segment's folder is, in
   * the resulting store, the first folder with that name inside the previous
   * segment's folder (the first inside `parent`).
   */
  lemma CreatePathChain(st: Store, parts: seq<string>, parent: Option<FolderId>)
    ensures var ids := PathIds(st, parts, parent);
      CreatePath(st, parts, parent).1 == if parts == [] then parent else Some(ids[|ids| - 1])
    ensures var ids := PathIds(st, parts, parent);
      forall i :: 0 <= i < |parts| ==>
        IsFirstMatch(CreatePath(st, parts, parent).0.folders, parts[i], SegmentParent(ids, parent, i), ids[i])
  {
    CreatePathResult(st, parts, parent);
    CreatePathSegments(st, parts, parent);
  }

  /** The chain `CreatePath` resolves stays in place in any store that extends its result. */
  lemma CreatePathChainKept(st: Store, parts: seq<string>, parent: Option<FolderId>, fs: seq<Folder>)
    requires CreatePath(st, parts, parent).0.folders <= fs
    ensures forall i :: 0 <= i < |parts| ==>
      IsFirstMatch(fs, parts[i], SegmentParent(PathIds(st, parts, parent), parent, i), PathIds(st, parts, parent)[i])
  {
    var ids := PathIds(st, parts, parent);
    CreatePathChain(st, parts, parent);
    forall i | 0 <= i < |parts|
      ensures IsFirstMatch(fs, parts[i], SegmentParent(ids, parent, i), ids[i])
    {
      IsFirstMatchPrefix(CreatePath(st, parts, parent).0.folders, fs, parts[i], SegmentParent(ids, parent, i), ids[i]);
    }
  }

  /** In the resulting store, every segment's folder is the first match inside the previous one's. */
  lemma {:induction false} CreatePathSegments(st: Store, parts: seq<string>, parent: Option<FolderId>)
    ensures var ids := PathIds(st, parts, parent);
      forall i :: 0 <= i < |parts| ==>
        IsFirstMatch(CreatePath(st, parts, parent).0.folders, parts[i], SegmentParent(ids, parent, i), ids[i])
    decreases |parts|
  {
    if parts != [] {
      var res := FindOrCreate(st, parts[0], parent);
      var st1, id := res.0, res.1;
      FindOrCreateFirst(st, parts[0], parent);
      CreatePathSegments(st1, parts[1..], Some(id));
      CreatePathGrows(st1, parts[1..], Some(id));
      var fs := CreatePath(st, parts, parent).0.folders;
      var tail := PathIds(st1, parts[1..], Some(id));
      assert fs == CreatePath(st1, parts[1..], Some(id)).0.folders;
      assert PathIds(st, parts, parent) == [id] + tail;
      assert fs == st1.folders + fs[|st1.folders|..];
      IsFirstMatchExtends(st1.folders, fs[|st1.folders|..], parts[0], parent, id);
      ChainShift(fs, parts, parent, id, tail);
    }
  }

  /** The chain facts of the segments after the first, shifted by one position. */
  lemma ChainShift(fs: seq<Folder>, parts: seq<string>, parent: Option<FolderId>, id: FolderId, tail: seq<FolderId>)
    requires parts != [] && |tail| == |parts| - 1
    requires forall i :: 0 <= i < |parts| - 1 ==> IsFirstMatch(fs, parts[1..][i], SegmentParent(tail, Some(id), i), tail[i])
    ensures forall i :: 1 <= i < |parts| ==> IsFirstMatch(fs, parts[i], SegmentParent([id] + tail, parent, i), ([id] + tail)[i])
  {
    var ids := [id] + tail;
    forall i | 1 <= i < |parts|
      ensures IsFirstMatch(fs, parts[i], SegmentParent(ids, parent, i), ids[i])
    {
      assert parts[i] == parts[1..][i - 1] && ids[i] == tail[i - 1];
      assert SegmentParent(ids, parent, i) == SegmentParent(tail, Some(id), i - 1);
    }
  }

  /**
   * Resolving a path again, on any store that grew from the first
   * resolution's result, returns the same folder and creates nothing.
   */
  lemma {:induction false} CreatePathStable(st: Store, ext: Store, parts: seq<string>, parent: Option<FolderId>)
    requires CreatePath(st, parts, parent).0.folders <= ext.folders
    ensures CreatePath(ext, parts, parent) == (ext, CreatePath(st, parts, parent).1)
    decreases |parts|
  {
    if parts != [] {
      var (st1, id) := FindOrCreate(st, parts[0], parent);
      CreatePathGrows(st1, parts[1..], Some(id));
      FindOrCreateStable(st, ext, parts[0], parent);
      CreatePathStable(st1, ext, parts[1..], Some(id));
    }
  }

  /** Resolving the same path twice creates its folders once and returns the same id. */
  lemma CreatePathIdempotent(st: Store, parts: seq<string>, parent: Option<FolderId>)
    ensures var (st1, r1) := CreatePath(st, parts, parent);
      CreatePath(st1, parts, parent) == (st1, r1)
  {
    CreatePathStable(st, CreatePath(st, parts, parent).0, parts, parent);
  }

  // ---------------------------------------------------------------------
  // ls and rm_r
  // ---------------------------------------------------------------------

  /** The elements of `xs` that `keep` accepts, in order. */
  function Filter<T(!new)>(xs: seq<T>, keep: T -> bool): (r: seq<T>)
    ensures |r| <= |xs|
    ensures forall x :: x in r <==> x in xs && keep(x)
  {
    if xs == [] then []
    else (if keep(xs[0]) then [xs[0]] else []) + Filter(xs[1..], keep)
  }

  lemma {:induction false} FilterAll<T(!new)>(xs: seq<T>, keep: T -> bool)
    requires forall x :: x in xs ==> keep(x)
    ensures Filter(xs, keep) == xs
  {
    if xs != [] {
      FilterAll(xs[1..], keep);
      assert xs == [xs[0]] + xs[1..];
    }
  }

  /** Filtering twice is filtering once, by the conjunction of the two tests. */
  lemma {:induction false} FilterTwice<T(!new)>(xs: seq<T>, first: T -> bool, second: T -> bool, both: T -> bool)
    requires forall x :: x in xs ==> (both(x) <==> first(x) && second(x))
    ensures Filter(Filter(xs, first), second) == Filter(xs, both)
  {
    if xs != [] {
      var x, rest := xs[0], Filter(xs[1..], first);
      assert forall y :: y in xs[1..] ==> y in xs;
      FilterTwice(xs[1..], first, second, both);
      if first(x) {
        assert Filter(xs, first) == [x] + rest;
        assert ([x] + rest)[1..] == rest;
      } else {
        assert Filter(xs, first) == rest;
      }
    }
  }

  ghost predicate DistinctFolderIds(fs: seq<Folder>) {
    forall i, j :: 0 <= i < j < |fs| ==> fs[i].id != fs[j].id
  }

  lemma {:induction false} FilterDistinct(fs: seq<Folder>, keep: Folder -> bool)
    requires DistinctFolderIds(fs)
    ensures DistinctFolderIds(Filter(fs, keep))
  {
    if fs != [] {
      FilterDistinct(fs[1..], keep);
      var rest := Filter(fs[1..], keep);
      forall k | 0 <= k < |rest|
        ensures rest[k].id != fs[0].id
      {
        assert rest[k] in fs[1..];
        var m :| 0 <= m < |fs[1..]| && fs[1..][m] == rest[k];
        assert fs[m + 1] == rest[k];
      }
    }
  }

  /** The query `ls` sends: not trashed and directly inside `parent`. */
  function InFolder(parent: FolderId): Folder -> bool {
    (f: Folder) => !f.trashed && f.parent == Some(parent)
  }

  function Children(fs: seq<Folder>, parent: FolderId): seq<Folder> {
    Filter(fs, InFolder(parent))
  }

  function AsBackup(f: Folder): DriveFolder {
    DriveFolder(f.id, f.name, f.createdTime)
  }

  /** `ls(service, parent)`: the folders directly inside `parent`, as listed. */
  function Listing(st: Store, parent: FolderId): (r: seq<DriveFolder>)
    ensures |r| <= |st.folders|
  {
    var c := Children(st.folders, parent);
    seq(|c|, i requires 0 <= i < |c| => AsBackup(c[i]))
  }

  /**
   * Every listed backup is a non-trashed folder directly inside `parent`,
   * every such folder is listed, and in a valid store no id is listed twice.
   */
  lemma ListingSpec(st: Store, parent: FolderId)
    ensures forall f :: f in st.folders && !f.trashed && f.parent == Some(parent) ==> AsBackup(f) in Listing(st, parent)
    ensures forall b :: b in Listing(st, parent) ==>
      exists f :: f in st.folders && !f.trashed && f.parent == Some(parent) && AsBackup(f) == b
    ensures Valid(st) ==> DistinctIds(Listing(st, parent))
  {
    var c := Children(st.folders, parent);
    var l := Listing(st, parent);
    forall f | f in st.folders && !f.trashed && f.parent == Some(parent)
      ensures AsBackup(f) in l
    {
      var k :| 0 <= k < |c| && c[k] == f;
      assert l[k] == AsBackup(f);
    }
    forall b | b in l
      ensures exists f :: f in st.folders && !f.trashed && f.parent == Some(parent) && AsBackup(f) == b
    {
      var k :| 0 <= k < |l| && l[k] == b;
      assert c[k] in c;
    }
    if Valid(st) {
      FilterDistinct(st.folders, InFolder(parent));
    }
  }

  /** The parent of the first folder with id `id`; `None` for a folder in the root or an unknown id. */
  function ParentOf(fs: seq<Folder>, id: FolderId): Option<FolderId> {
    if fs == [] then None
    else if fs[0].id == id then fs[0].parent
    else ParentOf(fs[1..], id)
  }

  lemma {:induction false} ParentOfFirst(fs: seq<Folder>, f: Folder)
    requires DistinctFolderIds(fs) && f in fs
    ensures ParentOf(fs, f.id) == f.parent
  {
    if fs[0] != f {
      assert f in fs[1..];
      var k :| 0 <= k < |fs[1..]| && fs[1..][k] == f;
      assert fs[k + 1] == f;
      assert DistinctFolderIds(fs[1..]) by {
        forall i, j | 0 <= i < j < |fs[1..]|
          ensures fs[1..][i].id != fs[1..][j].id
        {
          assert fs[1..][i] == fs[i + 1] && fs[1..][j] == fs[j + 1];
        }
      }
      ParentOfFirst(fs[1..], f);
    }
  }

  /**
   * `id` is `root` or lies below it: following parent links from `id`
   * reaches `root`. A link is followed only towards a smaller id, since a
   * folder is created after its parent (`ParentsBefore`).
   */
  predicate InTree(fs: seq<Folder>, id: FolderId, root: FolderId)
    decreases id
  {
    || id == root
    || (ParentOf(fs, id).Some? && ParentOf(fs, id).value < id && InTree(fs, ParentOf(fs, id).value, root))
  }

  /** `id` lies in the tree of one of `roots`. */
  predicate InTrees(fs: seq<Folder>, id: FolderId, roots: seq<FolderId>) {
    exists i :: 0 <= i < |roots| && InTree(fs, id, roots[i])
  }

  /** Every folder was created after its parent, so a parent's id is below its child's. */
  ghost predicate ParentsBefore(st: Store) {
    forall i :: 0 <= i < |st.folders| && st.folders[i].parent.Some? ==> st.folders[i].parent.value < st.folders[i].id
  }

  /** A tree holds nothing with an id below its root. */
  lemma {:induction false} InTreeBelow(fs: seq<Folder>, id: FolderId, root: FolderId)
    requires InTree(fs, id, root)
    ensures root <= id
    decreases id
  {
    if id != root {
      InTreeBelow(fs, ParentOf(fs, id).value, root);
    }
  }

  /** A tree is closed under children: a folder whose parent lies in it lies in it too. */
  lemma InTreeChild(fs: seq<Folder>, f: Folder, root: FolderId)
    requires DistinctFolderIds(fs) && f in fs && f.parent.Some? && f.parent.value < f.id
    requires InTree(fs, f.parent.value, root)
    ensures InTree(fs, f.id, root)
  {
    ParentOfFirst(fs, f);
  }

  function KeepFolder(fs: seq<Folder>, roots: seq<FolderId>): Folder -> bool {
    (f: Folder) => !InTrees(fs, f.id, roots)
  }

  function KeepFile(fs: seq<Folder>, roots: seq<FolderId>): DriveFile -> bool {
    (d: DriveFile) => d.parent.None? || !InTrees(fs, d.parent.value, roots)
  }

  /** The store without the folders `roots` and every folder and file below them. */
  function RemoveTrees(st: Store, roots: seq<FolderId>): Store {
    st.(folders := Filter(st.folders, KeepFolder(st.folders, roots)),
        files := Filter(st.files, KeepFile(st.folders, roots)))
  }

  lemma RemoveNoTrees(st: Store)
    ensures RemoveTrees(st, []) == st
  {
    FilterAll(st.folders, KeepFolder(st.folders, []));
    FilterAll(st.files, KeepFile(st.folders, []));
  }

  lemma InTreesAppend(fs: seq<Folder>, id: FolderId, roots: seq<FolderId>, root: FolderId)
    ensures InTrees(fs, id, roots + [root]) <==> InTrees(fs, id, roots) || InTree(fs, id, root)
  {
    assert forall i :: 0 <= i < |roots| ==> (roots + [root])[i] == roots[i];
    assert (roots + [root])[|roots|] == root;
  }

  /** Filtering out only folders with other ids leaves the parent found for `id` alone. */
  lemma {:induction false} ParentOfKept(fs: seq<Folder>, keep: Folder -> bool, id: FolderId)
    requires forall f :: f in fs && f.id == id ==> keep(f)
    ensures ParentOf(Filter(fs, keep), id) == ParentOf(fs, id)
  {
    if fs != [] {
      assert forall f :: f in fs[1..] ==> f in fs;
      ParentOfKept(fs[1..], keep, id);
      var rest := Filter(fs[1..], keep);
      if keep(fs[0]) {
        assert Filter(fs, keep) == [fs[0]] + rest;
        assert ([fs[0]] + rest)[1..] == rest;
      } else {
        assert fs[0] in fs && fs[0].id != id;
        assert Filter(fs, keep) == rest;
      }
    }
  }

  /**
   * Outside the removed trees, the parent links are unchanged, so whether
   * a folder lies in another tree is the same before and after.
   */
  lemma {:induction false} InTreeAfterRemove(st: Store, roots: seq<FolderId>, id: FolderId, root: FolderId)
    requires !InTrees(st.folders, id, roots)
    ensures InTree(RemoveTrees(st, roots).folders, id, root) == InTree(st.folders, id, root)
    decreases id
  {
    var fs := st.folders;
    ParentOfKept(fs, KeepFolder(fs, roots), id);
    if id != root && ParentOf(fs, id).Some? && ParentOf(fs, id).value < id {
      var p := ParentOf(fs, id).value;
      InTreeAfterRemove(st, roots, p, root);
    }
  }

  ghost predicate DistinctFileIds(ds: seq<DriveFile>) {
    forall i, j :: 0 <= i < j < |ds| ==> ds[i].id != ds[j].id
  }

  lemma {:induction false} FilesFilterDistinct(ds: seq<DriveFile>, keep: DriveFile -> bool)
    requires DistinctFileIds(ds)
    ensures DistinctFileIds(Filter(ds, keep))
  {
    if ds != [] {
      FilesFilterDistinct(ds[1..], keep);
      var rest := Filter(ds[1..], keep);
      forall k | 0 <= k < |rest|
        ensures rest[k].id != ds[0].id
      {
        assert rest[k] in ds[1..];
        var m :| 0 <= m < |ds[1..]| && ds[1..][m] == rest[k];
        assert ds[m + 1] == rest[k];
      }
    }
  }

  /** Removing trees keeps the store valid and only removes folders and files. */
  lemma RemoveTreesValid(st: Store, roots: seq<FolderId>)
    requires Valid(st)
    ensures Valid(RemoveTrees(st, roots))
  {
    var st' := RemoveTrees(st, roots);
    FilterDistinct(st.folders, KeepFolder(st.folders, roots));
    FilesFilterDistinct(st.files, KeepFile(st.folders, roots));
    forall i | 0 <= i < |st'.folders|
      ensures st'.folders[i].id < st'.nextId && st'.folders[i].createdTime < st'.nextId
    {
      assert st'.folders[i] in st.folders;
    }
    forall i | 0 <= i < |st'.files|
      ensures st'.files[i].id < st'.nextId
    {
      assert st'.files[i] in st.files;
    }
  }

  predicate HasFolder(st: Store, id: FolderId) {
    exists i :: 0 <= i < |st.folders| && st.folders[i].id == id
  }

  /**
   * `rm_r`: `files().delete` on the folder, which the service applies to
   * the folder and everything below it; `None` is the service's error for
   * an unknown id.
   */
  function Delete(st: Store, id: FolderId): (r: Option<Store>)
    ensures r.Some? <==> HasFolder(st, id)
    ensures r.Some? ==> |r.value.folders| < |st.folders|
  {
    if HasFolder(st, id) then
      var k :| 0 <= k < |st.folders| && st.folders[k].id == id;
      assert InTree(st.folders, id, [id][0]);
      assert !KeepFolder(st.folders, [id])(st.folders[k]);
      FilterDrops(st.folders, KeepFolder(st.folders, [id]));
      Some(RemoveTrees(st, [id]))
    else None
  }

  /** A filter that rejects some element of `xs` returns fewer elements. */
  lemma {:induction false} FilterDrops<T(!new)>(xs: seq<T>, keep: T -> bool)
    ensures (exists i :: 0 <= i < |xs| && !keep(xs[i])) ==> |Filter(xs, keep)| < |xs|
  {
    if xs != [] {
      FilterDrops(xs[1..], keep);
      if keep(xs[0]) {
        forall i | 0 <= i < |xs| && !keep(xs[i])
          ensures exists k :: 0 <= k < |xs[1..]| && !keep(xs[1..][k])
        {
          assert xs[1..][i - 1] == xs[i];
        }
      }
    }
  }

  lemma InTreesSingle(fs: seq<Folder>, id: FolderId, root: FolderId)
    ensures InTrees(fs, id, [root]) <==> InTree(fs, id, root)
  {
    if InTree(fs, id, root) {
      assert InTree(fs, id, [root][0]);
    }
  }

  /**
   * `rm_r` on a known id keeps the store valid and removes exactly the
   * folder, every folder below it and every file inside one of them.
   */
  lemma DeleteSpec(st: Store, id: FolderId)
    requires Valid(st)
    ensures Delete(st, id).Some? <==> exists f :: f in st.folders && f.id == id
    ensures Delete(st, id).Some? ==> var st' := Delete(st, id).value;
      && Valid(st') && st'.nextId == st.nextId
      && (forall f :: f in st'.folders <==> f in st.folders && !InTree(st.folders, f.id, id))
      && (forall d :: d in st'.files <==>
            d in st.files && (d.parent.None? || !InTree(st.folders, d.parent.value, id)))
  {
    if HasFolder(st, id) {
      var st' := Delete(st, id).value;
      RemoveTreesValid(st, [id]);
      forall f
        ensures f in st'.folders <==> f in st.folders && !InTree(st.folders, f.id, id)
      {
        InTreesSingle(st.folders, f.id, id);
      }
      forall d: DriveFile | d.parent.Some?
        ensures d in st'.files <==> d in st.files && !InTree(st.folders, d.parent.value, id)
      {
        InTreesSingle(st.folders, d.parent.value, id);
      }
    }
  }

  // ---------------------------------------------------------------------
  // upload_file
  // ---------------------------------------------------------------------

  /**
   * `upload_file`: adds one file with a fresh id, inside `parent` when one
   * is given, and leaves the folders alone.
   */
  function UploadFile(st: Store, name: string, parent: Option<FolderId>): (r: Store)
    ensures Grows(st, r) && r.folders == st.folders
    ensures |r.files| == |st.files| + 1 && r.files[|st.files|] == DriveFile(st.nextId, name, parent)
  {
    st.(files := st.files + [DriveFile(st.nextId, name, parent)], nextId := st.nextId + 1)
  }

  lemma UploadFileKeepsValid(st: Store, name: string, parent: Option<FolderId>)
    requires Valid(st)
    ensures Valid(UploadFile(st, name, parent))
  {
  }

  // ---------------------------------------------------------------------
  // Folders appended below an id
  // ---------------------------------------------------------------------

  /** Every parent a folder names is an id the counter has already handed out. */
  ghost predicate ParentsAllocated(st: Store) {
    forall i :: 0 <= i < |st.folders| && st.folders[i].parent.Some? ==> st.folders[i].parent.value < st.nextId
  }

  /** Every folder of `st` whose parent id is at least `r` has an id of at least `r`. */
  ghost predicate Above(st: Store, r: FolderId) {
    forall i :: 0 <= i < |st.folders| && st.folders[i].parent.Some? && st.folders[i].parent.value >= r ==>
      st.folders[i].id >= r
  }

  /** Every folder `b` holds beyond `a`'s folders has a parent id of at least `r`. */
  ghost predicate AddedUnder(a: Store, b: Store, r: FolderId) {
    forall i :: |a.folders| <= i < |b.folders| ==> b.folders[i].parent.Some? && b.folders[i].parent.value >= r
  }

  lemma AddedUnderTrans(a: Store, b: Store, c: Store, r: FolderId)
    requires Grows(a, b) && Grows(b, c) && AddedUnder(a, b, r) && AddedUnder(b, c, r)
    ensures AddedUnder(a, c, r)
  {
    forall i | |a.folders| <= i < |b.folders|
      ensures c.folders[i] == b.folders[i]
    {
      assert b.folders[i] == c.folders[..|b.folders|][i];
    }
  }

  /**
   * Looking a folder up inside a parent whose id is at least `r`, in a store
   * where only such folders sit below such parents, returns an id of at
   * least `r`, and any folder created sits below that parent.
   */
  lemma FindOrCreateUnder(st: Store, name: string, q: FolderId, r: FolderId)
    requires Above(st, r) && st.nextId >= r && q >= r
    ensures var (st', id) := FindOrCreate(st, name, Some(q));
      Above(st', r) && st'.nextId >= r && id >= r && AddedUnder(st, st', r)
  {
    match FirstMatch(st.folders, name, Some(q))
    case Some(i) =>
    case None =>
      var st' := FindOrCreate(st, name, Some(q)).0;
      assert st'.folders == st.folders + [NewFolder(st, name, Some(q))];
      assert forall i :: 0 <= i < |st.folders| ==> st'.folders[i] == st.folders[i];
  }

  /** Resolving a path inside a folder with id at least `r` stays below ids of at least `r`. */
  lemma {:induction false} CreatePathUnder(st: Store, parts: seq<string>, q: FolderId, r: FolderId)
    requires Above(st, r) && st.nextId >= r && q >= r
    ensures var (st', p) := CreatePath(st, parts, Some(q));
      Above(st', r) && st'.nextId >= r && p.Some? && p.value >= r && AddedUnder(st, st', r)
    decreases |parts|
  {
    if parts != [] {
      var (st1, id) := FindOrCreate(st, parts[0], Some(q));
      FindOrCreateUnder(st, parts[0], q, r);
      CreatePathUnder(st1, parts[1..], id, r);
      AddedUnderTrans(st, st1, CreatePath(st1, parts[1..], Some(id)).0, r);
    }
  }
}
