/**
 * The orchestration of one backup run (`main`): resolve the backup folder,
 * create the run folder, upload the configured paths, then delete the
 * oldest run folders beyond the retention count.
 */
module Backup {
  import opened Wrappers
  import opened Retention
  import opened FolderIndex
  import opened Uploader
  import opened DriveService

  /** `config.yaml`: the backup folder's name, the paths to back up, and `backups to keep` if present. */
  datatype Config = Config(backupFolder: string, pathsToBackup: seq<LocalPath>, backupsToKeep: Option<int>)

  /**
   * The deletion loop of `main`: `rm_r` on each id in order. A failing call
   * raises `HttpError`, which ends `main`, so no id after it is deleted.
   * Gives the new store and the ids actually deleted.
   */
  function DeleteAll(st: Store, ids: seq<FolderId>): (r: (Store, seq<FolderId>))
    ensures r.1 <= ids && r.0.nextId == st.nextId
    ensures forall f :: f in r.0.folders ==> f in st.folders
    ensures forall d :: d in r.0.files ==> d in st.files
    decreases |ids|
  {
    if ids == [] then (st, [])
    else
      var (s, done) := DeleteAll(st, ids[..|ids| - 1]);
      if done != ids[..|ids| - 1] then (s, done)
      else match Delete(s, ids[|ids| - 1])
        case None => (s, done)
        case Some(s') => (s', ids)
  }

  /** The retention block: the store after deleting the oldest backups beyond the keep count, and the ids deleted. */
  function PruneStore(st: Store, backupFolderId: FolderId, configured: Option<int>): (r: (Store, seq<FolderId>))
    ensures r.0.nextId == st.nextId
    ensures forall f :: f in r.0.folders ==> f in st.folders
    ensures forall d :: d in r.0.files ==> d in st.files
    ensures r.1 <= Ids(ToDelete(Listing(st, backupFolderId), configured))
  {
    DeleteAll(st, Ids(ToDelete(Listing(st, backupFolderId), configured)))
  }

  /** One whole run; `runFolder` is the `{host} {timestamp}` name of this run's folder. */
  function Run(st: Store, conf: Config, runFolder: string): (r: (Store, seq<FolderId>))
    ensures st.nextId <= r.0.nextId
  {
    var (st1, backupFolderId) := FindOrCreate(st, conf.backupFolder, None);
    var (st2, rootFolderId) := FindOrCreate(st1, runFolder, Some(backupFolderId));
    var st3 := UploadAll(st2, conf.pathsToBackup, Some(rootFolderId));
    PruneStore(st3, backupFolderId, conf.backupsToKeep)
  }

  /** Once a call of the loop has failed, the remaining ids change nothing. */
  lemma {:induction false} DeleteAllStops(st: Store, ids: seq<FolderId>, i: nat)
    requires i <= |ids| && DeleteAll(st, ids[..i]).1 != ids[..i]
    ensures DeleteAll(st, ids) == DeleteAll(st, ids[..i])
    decreases |ids|
  {
    if |ids| > i {
      var n := |ids| - 1;
      assert ids[..n][..i] == ids[..i];
      DeleteAllStops(st, ids[..n], i);
      var done := DeleteAll(st, ids[..n]).1;
      assert |done| < i by {
        assert done <= ids[..i];
      }
    } else {
      assert ids[..i] == ids;
    }
  }

  /** One step of the deletion loop: the next folder is still there, and deleting it extends the removed trees. */
  lemma DeleteStep(st0: Store, ids: seq<FolderId>, id: FolderId)
    requires HasFolder(st0, id) && !InTrees(st0.folders, id, ids)
    ensures Delete(RemoveTrees(st0, ids), id) == Some(RemoveTrees(st0, ids + [id]))
  {
    var fs := st0.folders;
    var cur := RemoveTrees(st0, ids);
    var k :| 0 <= k < |fs| && fs[k].id == id;
    assert KeepFolder(fs, ids)(fs[k]);
    assert fs[k] in cur.folders;
    var m :| 0 <= m < |cur.folders| && cur.folders[m] == fs[k];
    assert HasFolder(cur, id);
    forall f | f in fs
      ensures KeepFolder(fs, ids + [id])(f) <==> KeepFolder(fs, ids)(f) && KeepFolder(cur.folders, [id])(f)
    {
      InTreesAppend(fs, f.id, ids, id);
      InTreesSingle(cur.folders, f.id, id);
      if !InTrees(fs, f.id, ids) {
        InTreeAfterRemove(st0, ids, f.id, id);
      }
    }
    FilterTwice(fs, KeepFolder(fs, ids), KeepFolder(cur.folders, [id]), KeepFolder(fs, ids + [id]));
    forall d | d in st0.files
      ensures KeepFile(fs, ids + [id])(d) <==> KeepFile(fs, ids)(d) && KeepFile(cur.folders, [id])(d)
    {
      if d.parent.Some? {
        InTreesAppend(fs, d.parent.value, ids, id);
        InTreesSingle(cur.folders, d.parent.value, id);
        if !InTrees(fs, d.parent.value, ids) {
          InTreeAfterRemove(st0, ids, d.parent.value, id);
        }
      }
    }
    FilterTwice(st0.files, KeepFile(fs, ids), KeepFile(cur.folders, [id]), KeepFile(fs, ids + [id]));
  }

  /**
   * When every id names a folder that the earlier ids' trees do not hold,
   * every call of the loop succeeds and together they remove exactly the
   * trees of all the ids.
   */
  lemma {:induction false} DeleteAllAtOnce(st: Store, ids: seq<FolderId>)
    requires forall i :: 0 <= i < |ids| ==> HasFolder(st, ids[i]) && !InTrees(st.folders, ids[i], ids[..i])
    ensures DeleteAll(st, ids) == (RemoveTrees(st, ids), ids)
    decreases |ids|
  {
    if ids == [] {
      RemoveNoTrees(st);
    } else {
      var n := |ids| - 1;
      var init := ids[..n];
      assert init + [ids[n]] == ids;
      forall i | 0 <= i < |init|
        ensures HasFolder(st, init[i]) && !InTrees(st.folders, init[i], init[..i])
      {
        assert init[i] == ids[i] && init[..i] == ids[..i];
      }
      DeleteAllAtOnce(st, init);
      DeleteStep(st, init, ids[n]);
    }
  }

  /** A backup is listed after removing the trees of `roots` iff it was listed before and lies in none of them. */
  lemma ListingAfterRemove(st: Store, roots: seq<FolderId>, parent: FolderId)
    ensures forall b :: b in Listing(RemoveTrees(st, roots), parent) <==>
      b in Listing(st, parent) && !InTrees(st.folders, b.id, roots)
  {
    var st' := RemoveTrees(st, roots);
    ListingSpec(st, parent);
    ListingSpec(st', parent);
    forall b | b in Listing(st, parent) && !InTrees(st.folders, b.id, roots)
      ensures b in Listing(st', parent)
    {
      var f :| f in st.folders && !f.trashed && f.parent == Some(parent) && AsBackup(f) == b;
      assert KeepFolder(st.folders, roots)(f);
      assert f in st'.folders;
    }
    forall b | b in Listing(st', parent)
      ensures !InTrees(st.folders, b.id, roots)
    {
      var f :| f in st'.folders && !f.trashed && f.parent == Some(parent) && AsBackup(f) == b;
      assert KeepFolder(st.folders, roots)(f);
    }
  }

  /** Some folder directly inside `b` has the id `id`. */
  ghost predicate IsChild(st: Store, id: FolderId, b: FolderId) {
    exists f :: f in st.folders && f.parent == Some(b) && f.id == id
  }

  /** Every folder directly inside `b` was created after `b`. */
  ghost predicate ChildrenAfter(st: Store, b: FolderId) {
    forall i :: 0 <= i < |st.folders| && st.folders[i].parent == Some(b) ==> b < st.folders[i].id
  }

  /** The tree of one folder directly inside `b` holds no other folder directly inside `b`. */
  lemma SiblingsApart(st: Store, b: FolderId, f: Folder, g: Folder)
    requires Valid(st) && ChildrenAfter(st, b)
    requires f in st.folders && f.parent == Some(b)
    requires g in st.folders && g.parent == Some(b) && f.id != g.id
    ensures !InTree(st.folders, f.id, g.id)
  {
    ParentOfFirst(st.folders, f);
    if InTree(st.folders, f.id, g.id) {
      InTreeBelow(st.folders, b, g.id);
    }
  }

  /**
   * Distinct folders directly inside `b`: none lies in the tree of the
   * ones before it.
   */
  lemma ChildrenApart(st: Store, b: FolderId, ids: seq<FolderId>)
    requires Valid(st) && ChildrenAfter(st, b)
    requires forall i :: 0 <= i < |ids| ==> IsChild(st, ids[i], b)
    requires forall i, j :: 0 <= i < j < |ids| ==> ids[i] != ids[j]
    ensures forall i :: 0 <= i < |ids| ==> HasFolder(st, ids[i]) && !InTrees(st.folders, ids[i], ids[..i])
  {
    forall i | 0 <= i < |ids|
      ensures HasFolder(st, ids[i]) && !InTrees(st.folders, ids[i], ids[..i])
    {
      var f :| f in st.folders && f.parent == Some(b) && f.id == ids[i];
      var k :| 0 <= k < |st.folders| && st.folders[k] == f;
      if InTrees(st.folders, ids[i], ids[..i]) {
        var j :| 0 <= j < i && InTree(st.folders, ids[i], ids[..i][j]);
        var g :| g in st.folders && g.parent == Some(b) && g.id == ids[j];
        SiblingsApart(st, b, f, g);
        assert false;
      }
    }
  }

  /**
   * Each backup selected for deletion is a folder that the trees of the
   * backups deleted before it do not hold.
   */
  lemma DeletedApart(st: Store, backupFolderId: FolderId, configured: Option<int>)
    requires Valid(st) && ChildrenAfter(st, backupFolderId)
    ensures var ids := Ids(ToDelete(Listing(st, backupFolderId), configured));
      forall i :: 0 <= i < |ids| ==> HasFolder(st, ids[i]) && !InTrees(st.folders, ids[i], ids[..i])
  {
    ToDeleteAreFolders(st, backupFolderId, configured);
    ChildrenApart(st, backupFolderId, Ids(ToDelete(Listing(st, backupFolderId), configured)));
  }

  /** A backup listed in `b` lies in the tree of one of the folders `ids` inside `b` exactly when it is one of them. */
  lemma ListedInTrees(st: Store, b: FolderId, ids: seq<FolderId>)
    requires Valid(st) && ChildrenAfter(st, b)
    requires forall i :: 0 <= i < |ids| ==> IsChild(st, ids[i], b)
    ensures forall x :: x in Listing(st, b) ==> (InTrees(st.folders, x.id, ids) <==> x.id in ids)
  {
    ListingSpec(st, b);
    forall x | x in Listing(st, b)
      ensures InTrees(st.folders, x.id, ids) <==> x.id in ids
    {
      var f :| f in st.folders && !f.trashed && f.parent == Some(b) && AsBackup(f) == x;
      if x.id in ids {
        var j :| 0 <= j < |ids| && ids[j] == x.id;
        assert InTree(st.folders, x.id, ids[j]);
      }
      if InTrees(st.folders, x.id, ids) {
        var j :| 0 <= j < |ids| && InTree(st.folders, x.id, ids[j]);
        if x.id != ids[j] {
          var g :| g in st.folders && g.parent == Some(b) && g.id == ids[j];
          SiblingsApart(st, b, f, g);
        }
      }
    }
  }

  /** Pruning calls `rm_r` on every selected backup, and every call succeeds. */
  lemma PruneDeletesAll(st: Store, backupFolderId: FolderId, configured: Option<int>)
    requires Valid(st) && ChildrenAfter(st, backupFolderId)
    ensures var ids := Ids(ToDelete(Listing(st, backupFolderId), configured));
      PruneStore(st, backupFolderId, configured) == (RemoveTrees(st, ids), ids)
  {
    DeletedApart(st, backupFolderId, configured);
    DeleteAllAtOnce(st, Ids(ToDelete(Listing(st, backupFolderId), configured)));
  }

  /** Removing the selected backups' trees leaves exactly the survivors listed, and no id is selected twice. */
  lemma PruneListing(st: Store, backupFolderId: FolderId, configured: Option<int>)
    requires Valid(st) && ChildrenAfter(st, backupFolderId)
    ensures var listed := Listing(st, backupFolderId);
      var ids := Ids(ToDelete(listed, configured));
      && (forall i, j :: 0 <= i < j < |ids| ==> ids[i] != ids[j])
      && (forall b :: b in Listing(RemoveTrees(st, ids), backupFolderId) <==> b in Survivors(listed, configured))
  {
    var listed := Listing(st, backupFolderId);
    var ids := Ids(ToDelete(listed, configured));
    ListingSpec(st, backupFolderId);
    ToDeleteAreFolders(st, backupFolderId, configured);
    ListingAfterRemove(st, ids, backupFolderId);
    ListedInTrees(st, backupFolderId, ids);
    SurvivorsAreNotDeleted(listed, configured);
  }

  /**
   * After pruning, the backup folder holds exactly the surviving backups:
   * every `rm_r` succeeds, the deleted backups' trees are removed with the
   * files inside them, each backup is deleted once, and the store stays
   * valid.
   */
  lemma PruneLeavesSurvivors(st: Store, backupFolderId: FolderId, configured: Option<int>)
    requires Valid(st) && ChildrenAfter(st, backupFolderId)
    ensures var (st', deleted) := PruneStore(st, backupFolderId, configured);
      var listed := Listing(st, backupFolderId);
      && deleted == Ids(ToDelete(listed, configured))
      && st' == RemoveTrees(st, deleted)
      && Valid(st') && st'.nextId == st.nextId
      && (forall i, j :: 0 <= i < j < |deleted| ==> deleted[i] != deleted[j])
      && (forall b :: b in Listing(st', backupFolderId) <==> b in Survivors(listed, configured))
  {
    PruneDeletesAll(st, backupFolderId, configured);
    PruneListing(st, backupFolderId, configured);
    RemoveTreesValid(st, Ids(ToDelete(Listing(st, backupFolderId), configured)));
  }

  /** The backups selected for deletion are folders directly inside the backup folder, with distinct ids. */
  lemma ToDeleteAreFolders(st: Store, backupFolderId: FolderId, configured: Option<int>)
    requires Valid(st)
    ensures DistinctIds(ToDelete(Listing(st, backupFolderId), configured))
    ensures var del := ToDelete(Listing(st, backupFolderId), configured);
      forall i :: 0 <= i < |del| ==> HasFolder(st, del[i].id)
    ensures var del := ToDelete(Listing(st, backupFolderId), configured);
      forall i :: 0 <= i < |del| ==> IsChild(st, del[i].id, backupFolderId)
  {
    var listed := Listing(st, backupFolderId);
    var del := ToDelete(listed, configured);
    ListingSpec(st, backupFolderId);
    ToDeleteListed(listed, configured);
    forall i | 0 <= i < |del|
      ensures HasFolder(st, del[i].id)
      ensures IsChild(st, del[i].id, backupFolderId)
    {
      var f :| f in st.folders && !f.trashed && f.parent == Some(backupFolderId) && AsBackup(f) == del[i];
      var k :| 0 <= k < |st.folders| && st.folders[k] == f;
      assert f in st.folders && f.parent == Some(backupFolderId) && f.id == del[i].id;
    }
  }

  /**
   * The deletion loop: `rm_r` on each selected backup, in order, stopping
   * at the first call that fails, as the `HttpError` it raises ends `main`.
   */
  method DeleteBackups(drive: Drive, backups: seq<DriveFolder>) returns (deleted: seq<FolderId>, allOk: bool)
    requires drive.Valid()
    modifies drive
    ensures drive.Valid()
    ensures (drive.Model(), deleted) == DeleteAll(old(drive.Model()), Ids(backups))
    ensures allOk <==> deleted == Ids(backups)
  {
    ghost var st0 := drive.Model();
    ghost var ids := Ids(backups);
    deleted, allOk := [], true;
    var i := 0;
    while i < |backups| && allOk
      invariant 0 <= i <= |backups|
      invariant drive.Valid()
      invariant (drive.Model(), deleted) == DeleteAll(st0, ids[..i])
      invariant allOk <==> deleted == ids[..i]
    {
      PrefixStep(ids, i);
      var ok := drive.RmR(backups[i].id);
      if ok {
        deleted := deleted + [backups[i].id];
      } else {
        allOk := false;
        assert |deleted| == i;
      }
      i := i + 1;
    }
    if i < |backups| {
      DeleteAllStops(st0, ids, i);
    } else {
      assert ids[..i] == ids;
    }
  }

  /** The prefix one element longer is the shorter prefix with that element appended. */
  lemma PrefixStep<T>(s: seq<T>, i: nat)
    requires i < |s|
    ensures s[..i + 1][..i] == s[..i] && s[..i + 1] == s[..i] + [s[i]]
  {
  }

  /**
   * The retention block of `main`: list the run folders, compute the keep
   * count, and when there are too many, sort them and delete the oldest one
   * by one.
   */
  method Prune(drive: Drive, backupFolderId: FolderId, configured: Option<int>) returns (deleted: seq<FolderId>)
    requires drive.Valid()
    modifies drive
    ensures drive.Valid()
    ensures (drive.Model(), deleted) == PruneStore(old(drive.Model()), backupFolderId, configured)
  {
    var existingBackups := drive.Ls(backupFolderId);
    var numberToKeep := KeepCount(configured, |existingBackups|);
    var numberToDelete := |existingBackups| - numberToKeep;
    var backupsToDelete := [];
    if numberToDelete > 0 {
      var sorted := SortBackups(existingBackups);
      backupsToDelete := sorted[..numberToDelete];
    }
    assert backupsToDelete == ToDelete(existingBackups, configured);
    var allOk;
    deleted, allOk := DeleteBackups(drive, backupsToDelete);
  }

  /** The loop of `main` that uploads each configured path into the run folder. */
  method UploadPaths(drive: Drive, paths: seq<LocalPath>, rootFolderId: FolderId)
    requires drive.Valid()
    modifies drive
    ensures drive.Valid()
    ensures drive.Model() == UploadAll(old(drive.Model()), paths, Some(rootFolderId))
  {
    ghost var st0 := drive.Model();
    for i := 0 to |paths|
      invariant drive.Valid()
      invariant drive.Model() == UploadAll(st0, paths[..i], Some(rootFolderId))
    {
      drive.Upload(paths[i].parts, paths[i].node, Some(rootFolderId));
      assert paths[..i + 1][..i] == paths[..i];
    }
    assert paths[..|paths|] == paths;
  }

  /**
   * `main`: one backup run against the service. When every folder of the
   * store was created after its parent and the run folder's name is new, the
   * run folder survives the pruning that ends the run.
   */
  method RunBackup(drive: Drive, conf: Config, runFolder: string)
      returns (deleted: seq<FolderId>, ghost backupId: FolderId, ghost runId: FolderId)
    requires drive.Valid()
    modifies drive
    ensures drive.Valid()
    ensures (drive.Model(), deleted) == Run(old(drive.Model()), conf, runFolder)
    ensures backupId == FindOrCreate(old(drive.Model()), conf.backupFolder, None).1
    ensures runId == FindOrCreate(FindOrCreate(old(drive.Model()), conf.backupFolder, None).0, runFolder, Some(backupId)).1
    ensures ParentsBefore(old(drive.Model())) && NameUnused(old(drive.Model()), runFolder) ==>
      && runId !in deleted
      && DriveFolder(runId, runFolder, runId) in Listing(drive.Model(), backupId)
  {
    ghost var st0 := drive.Model();
    var backupFolderId := drive.FindOrCreateFolder(conf.backupFolder, None);
    var rootFolderId := drive.FindOrCreateFolder(runFolder, Some(backupFolderId));
    backupId, runId := backupFolderId, rootFolderId;
    UploadPaths(drive, conf.pathsToBackup, rootFolderId);
    deleted := Prune(drive, backupFolderId, conf.backupsToKeep);
    if ParentsBefore(st0) && NameUnused(st0, runFolder) {
      RunKeepsRunFolder(st0, conf, runFolder);
    }
  }

  // ---------------------------------------------------------------------
  // The run folder survives its own run
  // ---------------------------------------------------------------------

  /** No folder of the store carries the name `name`. */
  ghost predicate NameUnused(st: Store, name: string) {
    forall i :: 0 <= i < |st.folders| ==> st.folders[i].name != name
  }

  /**
   * Finding or creating the backup folder, at the top level, leaves no
   * folder named like the run folder inside it.
   */
  lemma BackupFolderReady(st: Store, backupFolder: string, runFolder: string, st1: Store, b: FolderId)
    requires Valid(st) && ParentsBefore(st) && NameUnused(st, runFolder)
    requires (st1, b) == FindOrCreate(st, backupFolder, None)
    ensures Valid(st1) && ParentsBefore(st1) && ParentsAllocated(st1) && b < st1.nextId
    ensures FirstMatch(st1.folders, runFolder, Some(b)).None?
  {
    FindOrCreateSpec(st, backupFolder, None);
    var i :| 0 <= i < |st1.folders| && st1.folders[i].id == b && Matches(st1.folders[i], backupFolder, None)
      && forall j :: 0 <= j < i ==> !Matches(st1.folders[j], backupFolder, None);
    forall j | 0 <= j < |st1.folders|
      ensures !Matches(st1.folders[j], runFolder, Some(b))
      ensures st1.folders[j].parent.Some? ==> st1.folders[j].parent.value < st1.folders[j].id < st1.nextId
    {
      if j < |st.folders| {
        assert st1.folders[j] == st.folders[j];
      } else {
        assert st1.folders[j] == NewFolder(st, backupFolder, None);
      }
    }
  }

  /**
   * Creating the run folder: with its `{host} {timestamp}` name unused, the
   * run folder is new, inside the backup folder, and created after every
   * folder already there; no folder yet sits below it.
   */
  lemma RunFolderCreated(st1: Store, b: FolderId, runFolder: string, st2: Store, rid: FolderId)
    requires Valid(st1) && ParentsAllocated(st1) && b < st1.nextId
    requires FirstMatch(st1.folders, runFolder, Some(b)).None?
    requires (st2, rid) == FindOrCreate(st1, runFolder, Some(b))
    ensures rid == st1.nextId && Valid(st2)
    ensures st2.folders == st1.folders + [Folder(rid, runFolder, Some(b), false, rid)]
    ensures st2.nextId == rid + 1 && Above(st2, rid)
  {
    FindOrCreateSpec(st1, runFolder, Some(b));
    assert st2.folders[|st1.folders|].id == rid;
  }

  /**
   * After the upload, every folder inside the backup folder is the run
   * folder or older than it: the upload only added folders below the run
   * folder.
   */
  lemma RunFolderNewestChild(st1: Store, st2: Store, st3: Store, b: FolderId, rid: FolderId, runFolder: string)
    requires Valid(st1) && rid == st1.nextId && b < rid
    requires st2.folders == st1.folders + [Folder(rid, runFolder, Some(b), false, rid)]
    requires Grows(st2, st3) && AddedUnder(st2, st3, rid)
    ensures st3.folders[|st1.folders|] == Folder(rid, runFolder, Some(b), false, rid)
    ensures forall j :: 0 <= j < |st3.folders| && st3.folders[j].parent == Some(b) ==>
      st3.folders[j] == Folder(rid, runFolder, Some(b), false, rid) || st3.folders[j].createdTime < rid
  {
    assert st3.folders[|st1.folders|] == st2.folders[|st1.folders|];
    forall j | 0 <= j < |st3.folders| && st3.folders[j].parent == Some(b)
      ensures st3.folders[j] == Folder(rid, runFolder, Some(b), false, rid) || st3.folders[j].createdTime < rid
    {
      if j < |st1.folders| {
        assert st3.folders[j] == st2.folders[j] == st1.folders[j];
      } else {
        assert j < |st2.folders|;
      }
    }
  }

  /** After the upload, every folder directly inside the backup folder was created after it. */
  lemma BackupChildrenAfter(st1: Store, st2: Store, st3: Store, b: FolderId, rid: FolderId, runFolder: string)
    requires ParentsBefore(st1) && rid == st1.nextId && b < rid
    requires st2.folders == st1.folders + [Folder(rid, runFolder, Some(b), false, rid)]
    requires Grows(st2, st3) && AddedUnder(st2, st3, rid)
    ensures ChildrenAfter(st3, b)
  {
    forall j | 0 <= j < |st3.folders| && st3.folders[j].parent == Some(b)
      ensures b < st3.folders[j].id
    {
      if j < |st1.folders| {
        assert st3.folders[j] == st2.folders[j] == st1.folders[j];
      } else {
        assert j < |st2.folders|;
        assert st3.folders[j] == st2.folders[j];
      }
    }
  }

  /** The same fact read off the listing of the backup folder. */
  lemma RunFolderNewest(st1: Store, st2: Store, st3: Store, b: FolderId, rid: FolderId, runFolder: string)
    requires Valid(st1) && rid == st1.nextId && b < rid
    requires st2.folders == st1.folders + [Folder(rid, runFolder, Some(b), false, rid)]
    requires Grows(st2, st3) && AddedUnder(st2, st3, rid)
    ensures var l, x := Listing(st3, b), DriveFolder(rid, runFolder, rid);
      && x in l
      && forall i :: 0 <= i < |l| && l[i] != x ==> l[i].createdTime < x.createdTime
  {
    var l, x := Listing(st3, b), DriveFolder(rid, runFolder, rid);
    RunFolderNewestChild(st1, st2, st3, b, rid, runFolder);
    ListingSpec(st3, b);
    assert AsBackup(st3.folders[|st1.folders|]) == x;
    forall i | 0 <= i < |l| && l[i] != x
      ensures l[i].createdTime < x.createdTime
    {
      assert l[i] in l;
      var f :| f in st3.folders && !f.trashed && f.parent == Some(b) && AsBackup(f) == l[i];
      var j :| 0 <= j < |st3.folders| && st3.folders[j] == f;
    }
  }

  /**
   * The run folder survives its own run: it is created at the server's
   * current time, later than every backup already listed, and pruning keeps
   * at least one backup, the newest. So whatever the retention count, every
   * `rm_r` succeeds, the pruned backups' trees are removed, and the folder
   * this run has just filled is not deleted and stays listed.
   */
  lemma RunKeepsRunFolder(st: Store, conf: Config, runFolder: string)
    requires Valid(st) && ParentsBefore(st) && NameUnused(st, runFolder)
    ensures var (st1, b) := FindOrCreate(st, conf.backupFolder, None);
      var (st2, rid) := FindOrCreate(st1, runFolder, Some(b));
      var st3 := UploadAll(st2, conf.pathsToBackup, Some(rid));
      var (st', deleted) := Run(st, conf, runFolder);
      && rid == st1.nextId
      && deleted == Ids(ToDelete(Listing(st3, b), conf.backupsToKeep))
      && st' == RemoveTrees(st3, deleted)
      && rid !in deleted
      && DriveFolder(rid, runFolder, rid) in Listing(st', b)
  {
    var (st1, b) := FindOrCreate(st, conf.backupFolder, None);
    BackupFolderReady(st, conf.backupFolder, runFolder, st1, b);
    var (st2, rid) := FindOrCreate(st1, runFolder, Some(b));
    RunFolderCreated(st1, b, runFolder, st2, rid);
    var st3 := UploadAll(st2, conf.pathsToBackup, Some(rid));
    UploadAllUnder(st2, conf.pathsToBackup, rid, rid);
    UploadAllValid(st2, conf.pathsToBackup, Some(rid));
    RunFolderNewest(st1, st2, st3, b, rid, runFolder);
    BackupChildrenAfter(st1, st2, st3, b, rid, runFolder);
    var l, x := Listing(st3, b), DriveFolder(rid, runFolder, rid);
    ListingSpec(st3, b);
    NewestSurvives(l, conf.backupsToKeep, x);
    PruneLeavesSurvivors(st3, b, conf.backupsToKeep);
  }
}
