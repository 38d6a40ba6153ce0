/**
 * The storage service as the program sees it: an object whose state the
 * folder and file operations change in place. Each method is proved to
 * leave the state its pure counterpart in FolderIndex or Uploader computes.
 */
module DriveService {
  import opened Wrappers
  import opened Retention
  import opened FolderIndex
  import opened Uploader

  class Drive {
    var folders: seq<Folder>
    var files: seq<DriveFile>
    var nextId: FolderId

    function Model(): Store
      reads this
    {
      Store(folders, files, nextId)
    }

    ghost predicate Valid()
      reads this
    {
      FolderIndex.Valid(Model())
    }

    constructor (initial: Store)
      requires FolderIndex.Valid(initial)
      ensures Valid() && Model() == initial
    {
      folders, files, nextId := initial.folders, initial.files, initial.nextId;
    }

    /** `find_or_create_folder` */
    method FindOrCreateFolder(name: string, parentId: Option<FolderId>) returns (id: FolderId)
      requires Valid()
      modifies this
      ensures Valid()
      ensures (Model(), id) == FindOrCreate(old(Model()), name, parentId)
      ensures IsFirstMatch(folders, name, parentId, id)
      ensures FirstMatch(old(folders), name, parentId).Some? ==> unchanged(this)
      ensures old(folders) <= folders && |folders| <= |old(folders)| + 1 && files == old(files)
    {
      FindOrCreateSpec(Model(), name, parentId);
      var found := FirstMatch(folders, name, parentId);
      if found.Some? {
        id := folders[found.value].id;
      } else {
        id := nextId;
        folders := folders + [Folder(id, name, parentId, false, nextId)];
        nextId := nextId + 1;
      }
    }

    /** `create_path`: the recursion of `inner`, threading the parent id, as a loop. */
    method CreatePath(parts: seq<string>, parentId: Option<FolderId>) returns (id: Option<FolderId>)
      requires Valid()
      modifies this
      ensures Valid()
      ensures (Model(), id) == FolderIndex.CreatePath(old(Model()), parts, parentId)
      ensures parts == [] ==> id == parentId && Model() == old(Model())
      ensures old(Model()).folders <= folders && files == old(files)
    {
      ghost var st0 := Model();
      CreatePathGrows(st0, parts, parentId);
      id := parentId;
      for i := 0 to |parts|
        invariant Valid()
        invariant FolderIndex.CreatePath(st0, parts, parentId) == FolderIndex.CreatePath(Model(), parts[i..], id)
      {
        assert parts[i..][1..] == parts[i + 1..];
        var folderId := FindOrCreateFolder(parts[i], id);
        id := Some(folderId);
      }
      assert parts[|parts|..] == [];
    }

    /** `upload_file` */
    method UploadFile(name: string, parentId: Option<FolderId>) returns (id: FolderId)
      requires Valid()
      modifies this
      ensures Valid()
      ensures Model() == FolderIndex.UploadFile(old(Model()), name, parentId)
      ensures id == old(nextId)
    {
      UploadFileKeepsValid(Model(), name, parentId);
      id := nextId;
      files := files + [DriveFile(id, name, parentId)];
      nextId := nextId + 1;
    }

    /** `upload`: a path that does not exist changes nothing. */
    method Upload(path: seq<string>, node: Option<Node>, parentId: Option<FolderId>)
      requires Valid()
      modifies this
      ensures Valid()
      ensures Model() == Uploader.Upload(old(Model()), path, node, parentId)
      ensures node.None? ==> unchanged(this)
    {
      if node.Some? {
        UploadNode(path, node.value, parentId);
      }
    }

    /** `upload` of a path that exists: a file, or a directory walked one level. */
    method UploadNode(path: seq<string>, node: Node, parentId: Option<FolderId>)
      requires Valid()
      modifies this
      ensures Valid()
      ensures Model() == UploadTree(old(Model()), path, node, parentId)
      decreases node, 1
    {
      match node
      case File =>
        var folderId := CreatePath(ParentParts(path), parentId);
        var _ := UploadFile(Name(path), folderId);
      case Dir(entries) =>
        var folderId := CreatePath(path, parentId);
        UploadFiles(FileNames(entries), folderId);
        UploadSubDirs(path, node, folderId);
    }

    /** The loop over the files `os.walk` lists. */
    method UploadFiles(names: seq<string>, folderId: Option<FolderId>)
      requires Valid()
      modifies this
      ensures Valid()
      ensures Model() == Uploader.UploadFiles(old(Model()), names, folderId)
    {
      ghost var st0 := Model();
      for i := 0 to |names|
        invariant Valid()
        invariant Model() == Uploader.UploadFiles(st0, names[..i], folderId)
      {
        var _ := UploadFile(names[i], folderId);
        assert names[..i + 1][..i] == names[..i];
      }
      assert names[..|names|] == names;
    }

    /** The loop over the subdirectories `os.walk` lists, each uploaded with `parent_id=folder_id`. */
    method UploadSubDirs(path: seq<string>, dir: Node, folderId: Option<FolderId>)
      requires Valid() && dir.Dir?
      modifies this
      ensures Valid()
      ensures Model() == UploadDirs(old(Model()), path, dir, |SubDirs(dir.entries)|, folderId)
      decreases dir, 0
    {
      ghost var st0 := Model();
      var dirs := SubDirs(dir.entries);
      for i := 0 to |dirs|
        invariant Valid()
        invariant Model() == UploadDirs(st0, path, dir, i, folderId)
      {
        var d := dirs[i];
        SubDirAt(dir.entries, i);
        ghost var before := Model();
        assert UploadDirs(st0, path, dir, i + 1, folderId) == UploadTree(before, path + [d.name], d.node, folderId);
        UploadNode(path + [d.name], d.node, folderId);
      }
    }

    /** `ls`: the folders directly inside `parentId`, as listed. */
    method Ls(parentId: FolderId) returns (backups: seq<DriveFolder>)
      ensures backups == Listing(Model(), parentId)
    {
      var response := Children(folders, parentId);
      backups := [];
      for i := 0 to |response|
        invariant |backups| == i
        invariant forall k :: 0 <= k < i ==> backups[k] == AsBackup(response[k])
      {
        backups := backups + [AsBackup(response[i])];
      }
    }

    /**
     * `rm_r`: removes the folder with everything below it; `ok` is false
     * when the service knows no folder with that id.
     */
    method RmR(folderId: FolderId) returns (ok: bool)
      requires Valid()
      modifies this
      ensures Valid()
      ensures ok == Delete(old(Model()), folderId).Some?
      ensures Model() == if ok then Delete(old(Model()), folderId).value else old(Model())
    {
      DeleteSpec(Model(), folderId);
      ok := HasFolder(Model(), folderId);
      if ok {
        var rest := RemoveTrees(Model(), [folderId]);
        folders, files := rest.folders, rest.files;
      }
    }
  }
}
