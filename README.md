# drive-backup, modelled in Dafny

drive-backup uploads local files and directories to Google Drive. It puts
each run's files into a new folder named `{host} {timestamp}` inside a
configured backup folder. It then deletes the oldest run folders beyond a
retention count (`backups to keep`). This project models the two pieces
of real logic in `src/drivebackup/__main__.py`, with the Drive service
replaced by an in-memory store of folders and files:

- **retention pruning**: the keep count, the stable sort of the listed run
  folders by creation time, and the deletion of the oldest ones;
- **the folder index**: `find_or_create_folder` and `create_path` over the
  folder table, plus the routing of `upload` / `upload_file` into folders,
  `ls` and `rm_r`.

Files:

- `wrappers.dfy`: `Option`, standing for Python's `None` default.
- `retention.dfy` (module `Retention`): `DriveFolder`, `KeepCount`, the
  insertion sort (`SortByCreatedTime` as a function, `SortBackups` as the
  method), and the selection of backups to delete (`ToDelete`, `Survivors`)
  with its lemmas.
- `folder_index.dfy` (module `FolderIndex`): the store as a value (`Store`:
  folders in listing order, uploaded files, next id) and the pure
  operations `FindOrCreate`, `CreatePath`, `Listing`, `Delete`, `UploadFile`.
- `uploader.dfy` (module `Uploader`): the local tree (`Node`, `Entry`) and
  the upload routing `Upload` / `UploadTree` / `UploadDirs`.
- `drive_service.dfy` (module `DriveService`): class `Drive`, the service
  as a mutable object. Each method updates the fields in place and is
  proved to leave the state its pure counterpart computes.
- `backup.dfy` (module `Backup`): the retention block of `main` (`Prune`,
  `DeleteBackups`), the upload loop (`UploadPaths`) and the whole run
  (`RunBackup`), with their specifications `DeleteAll`, `PruneStore` and
  `Run`; the proof that every `rm_r` of the pruning succeeds and removes
  exactly the selected backups' trees (`PruneLeavesSurvivors`), and that,
  when every folder was created after its parent and the run folder's name
  is unused, a run never prunes the run folder it has just created
  (`RunKeepsRunFolder`).

Modelling choices:

- Folder ids are natural numbers. The store hands them out from a counter,
  so a new id is always fresh. Drive ids are non-empty strings, so a
  `parent_id` is truthy exactly when it is present. `Option<FolderId>`
  models this: `None` is Python's `None`.
- A folder's `parent == None` means it sits in the drive's root. It has
  one parent at most.
- The order of the store's `folders` sequence is the order the service's
  queries list them in, so "the first match" is the first in that sequence.
  New folders are appended, so the model lists folders in creation order.
  `files().list` without `orderBy` does not promise any order; the
  stability lemmas (`FindOrCreateStable`, `CreatePathStable`) and the
  idempotence lemmas rely on folders created earlier being listed before
  folders created later.
- A folder created by the model gets the id counter's value as its
  creation time, a logical clock standing for the server's clock. A valid
  store keeps every folder's creation time below the counter, so a folder
  created now is strictly newer than every folder already there.
- `rm_r` deletes a folder together with everything below it, folders and
  files, as Drive does. A folder lies below another (`InTree`) when
  following parent links from it reaches the other. Only links to a
  smaller id are followed; in a store where every folder was created after
  its parent (`ParentsBefore`) that is every link, and every folder the
  model creates keeps it. `Delete` removes the folder's tree and every file
  whose parent lies in it (`DeleteSpec`).
- A failing `rm_r` raises `HttpError`, which ends `main`, so the deletion
  loop stops at the first failure (`DeleteAll`, `DeleteBackups`).
- `RunKeepsRunFolder` assumes that no folder carries the run folder's name
  when the run starts (`NameUnused`). The name is the host name and the
  local wall-clock time to the second (`__main__.py:57`). A second run
  from the same host within the same second, or in the repeated hour when
  local time falls back, finds the earlier folder and reuses it
  (`__main__.py:121-123`); that case is not covered. Under `NameUnused` and
  `ParentsBefore` for the starting store, the run folder is created fresh,
  is the newest backup, every `rm_r` of the pruning succeeds, and the run
  folder survives the pruning of its own run.
- Paths are the sequence of their pathlib parts. For example, `/data/sub`
  is `["/", "data", "sub"]`.
- What exists on the local disk is a parameter: `None` when the path does
  not exist, otherwise a `Node`, either `File` or `Dir` with its entries in
  `os.walk` order.
- Python's list sort is stable. The model uses an insertion sort.
  `StableSortIsUnique` proves that a stable sort can produce only one
  result, so the model orders the listing exactly as Python's sort does.

Two details of `__main__.py` that the model follows as written:

- Subdirectories are uploaded with `parent_id=folder_id`, the directory's
  own folder (`__main__.py:168`). They are not uploaded with the original
  `parent_id`. So each subdirectory's full path is resolved again *inside*
  its parent directory's folder (`SubdirectoryUnderParentFolder`).
- The floor `max(1, ...)` applies whether `backups to keep` is configured
  or not. Without it the keep count is `max(1, len(existing))`
  (`__main__.py:64`).

## Model

| member | source | states |
|---|---|---|
| Retention.KeepCount | src/drivebackup/__main__.py:64 | the keep count is at least 1; without `backups to keep` it is exactly `max(1, len(existing))`; a configured value of 1 or more is used as is, and 0 or a negative value becomes 1 |
| Retention.SortByCreatedTime | src/drivebackup/__main__.py:68 | sorting the listed backups keeps every one of them exactly once (same length, same multiset); that the order is the stable one is `SortByCreatedTimeIsStable` |
| Retention.SortIsSorted | src/drivebackup/__main__.py:68 | the sorted listing is ordered by `created_time`, oldest first |
| Retention.SortByCreatedTimeIsStable | src/drivebackup/__main__.py:68 | sorting the listed backups gives a permutation of them, ordered by `created_time`, with backups created at the same time kept in listing order |
| Retention.StableSortIsUnique | src/drivebackup/__main__.py:68 | two results that are both stable sorts of the same listing are equal, so the insertion sort agrees with Python's stable `list.sort` |
| Retention.SortKeepsIdsDistinct | src/drivebackup/__main__.py:68 | sorting a listing with distinct ids gives a sequence with distinct ids (no backup duplicated) |
| Retention.SortBackups | src/drivebackup/__main__.py:68 | the in-place sort of `existing_backups` by `created_time`: the result is a stable sort of the input (sorted permutation, ties in listing order) |
| Retention.ExcessCount | src/drivebackup/__main__.py:64-66 | `number_of_backups_to_delete` is never the whole listing, is at most zero without `backups to keep`, and is `len(existing) - keep` for a configured count of 1 or more |
| Retention.ToDelete | src/drivebackup/__main__.py:66-69 | exactly `max(0, len(existing) - keep)` backups are selected for deletion; without `backups to keep` none is |
| Retention.Survivors | src/drivebackup/__main__.py:66-69 | exactly `min(len(existing), keep)` backups survive; without `backups to keep` the survivors are the whole listing, whatever its size |
| Retention.PrunePartitions | src/drivebackup/__main__.py:66-72 | the deleted and surviving backups together are exactly the listed ones (as a multiset), so every deleted backup was listed; with distinct listed ids, no id appears twice among them, so none is deleted twice or both deleted and kept |
| Retention.ToDeleteListed | src/drivebackup/__main__.py:66-69 | every backup selected for deletion was listed, and with distinct listed ids the selection has distinct ids |
| Retention.OldestAreDeleted | src/drivebackup/__main__.py:68-69 | every deleted backup was created no later than every surviving one, and among backups with the same `created_time` the ones listed first are deleted first |
| Retention.SurvivorsAreNotDeleted | src/drivebackup/__main__.py:66-72 | with distinct listed ids, a listed backup survives exactly when its id is not among the deleted ids |
| Retention.NewestSurvives | src/drivebackup/__main__.py:64-72 | a listed backup created strictly after every other listed backup always survives, because the keep count is at least 1; with distinct ids its id is not deleted |
| FolderIndex.FirstMatch | src/drivebackup/__main__.py:115-123 | the position returned is the first folder that is not trashed, has the name and, only when a parent is given, that parent; no position means no folder matches |
| FolderIndex.FindOrCreate | src/drivebackup/__main__.py:114-134 | the folder table only grows by appending, by at most one folder, and the uploaded files are untouched |
| FolderIndex.FindOrCreateSpec | src/drivebackup/__main__.py:114-134 | the id returned is the first matching folder of the resulting table; if the old table had a match it is unchanged; otherwise exactly one non-trashed folder with that name, that parent and a fresh id is appended; files are untouched and validity is kept |
| FolderIndex.FindOrCreateIdempotent | src/drivebackup/__main__.py:114-134 | a second call with the same name and parent returns the same id and changes nothing, so the folder is created at most once |
| FolderIndex.FindOrCreateStable | src/drivebackup/__main__.py:114-134 | repeating the call on any table that only grew from the first call's result by appending returns the same id and creates nothing |
| FolderIndex.CreatePath | src/drivebackup/__main__.py:137-146 | the folder table only grows by appending and the files are untouched; no segments give back the store and `parent_id` unchanged; one or more segments always give a folder id |
| FolderIndex.CreatePathGrows | src/drivebackup/__main__.py:137-146 | resolving a path only appends folders, at most one per segment, uploads no file and keeps the table valid |
| FolderIndex.CreatePathChain | src/drivebackup/__main__.py:137-146 | with no segments the result is `parent_id`; otherwise it is the folder of the last segment; and in the resulting table each segment's folder is the first folder with that name inside the previous segment's folder (the first inside `parent_id`, when given) |
| FolderIndex.CreatePathChainKept | src/drivebackup/__main__.py:137-146 | the chain of first matches that resolving a path produces still holds in any table that grew from the result by appending |
| FolderIndex.CreatePathStable | src/drivebackup/__main__.py:137-146 | resolving the path again on any table that grew from the first result returns the same folder and creates nothing |
| FolderIndex.CreatePathIdempotent | src/drivebackup/__main__.py:137-146 | resolving the same path twice creates its folders once and returns the same id |
| FolderIndex.Listing | src/drivebackup/__main__.py:171-188 | `ls` lists no more entries than the table has folders (its contents are stated by `ListingSpec`) |
| FolderIndex.ListingSpec | src/drivebackup/__main__.py:171-188 | `ls` lists every non-trashed folder directly inside the parent, and only those, carrying their id, name and creation time; in a valid table it lists no id twice |
| FolderIndex.Delete | src/drivebackup/__main__.py:191-193 | `rm_r` succeeds exactly when a folder has the id, and then the table has fewer folders |
| FolderIndex.DeleteSpec | src/drivebackup/__main__.py:191-193 | `rm_r` succeeds exactly when a folder has the id; then a folder is kept exactly when it is not in that folder's tree, a file is kept exactly when its parent is not in that tree, the counter is unchanged and the table stays valid |
| FolderIndex.InTreeBelow | src/drivebackup/__main__.py:191-193 | a folder in the tree deleted with `id` has an id at least `id` |
| FolderIndex.InTreeChild | src/drivebackup/__main__.py:191-193 | the tree deleted with a folder is closed under children: a folder whose parent is in it is in it |
| FolderIndex.InTreeAfterRemove | src/drivebackup/__main__.py:191-193 | for a folder outside the trees already removed, whether it lies below a given folder is the same before and after the removal |
| FolderIndex.RemoveTreesValid | src/drivebackup/__main__.py:191-193 | removing folder trees and the files inside them keeps the table valid |
| FolderIndex.UploadFile | src/drivebackup/__main__.py:101-109 | `upload_file` appends exactly one file with a fresh id, the file's name and the parent when given, and leaves the folders alone |
| FolderIndex.UploadFileKeepsValid | src/drivebackup/__main__.py:101-109 | uploading a file keeps the table valid: ids and creation times stay below the counter, and ids stay distinct |
| FolderIndex.FindOrCreateUnder | src/drivebackup/__main__.py:114-134 | finding or creating a folder inside a folder with id at least `r` returns an id at least `r`, and any folder it adds sits inside such a folder |
| FolderIndex.CreatePathUnder | src/drivebackup/__main__.py:137-146 | resolving a path inside a folder with id at least `r` adds only folders inside folders with id at least `r` |
| Uploader.UploadTree | src/drivebackup/__main__.py:155-168 | uploading an existing path only appends folders and files, and adds exactly one file per local file in the tree |
| Uploader.UploadDirs | src/drivebackup/__main__.py:167-168 | uploading the subdirectories one after the other only appends and adds one file per file they contain |
| Uploader.Upload | src/drivebackup/__main__.py:149-154 | `upload` only appends; a path that does not exist changes nothing |
| Uploader.UploadAll | src/drivebackup/__main__.py:60-61 | uploading the configured paths one after the other only appends folders and files |
| Uploader.UploadFileRouting | src/drivebackup/__main__.py:155-157 | a file is uploaded, under its own name, into the folder that `create_path(p.parent, parent_id)` returns, and nothing else is uploaded |
| Uploader.UploadFiles | src/drivebackup/__main__.py:165-166 | uploading a directory's files only appends to the table, leaves the folders alone and adds exactly one file per name |
| Uploader.UploadFilesContent | src/drivebackup/__main__.py:165-166 | the files of a directory are appended one per name, in order, with consecutive fresh ids, all inside the given folder |
| Uploader.DirectoryFilesInFolder | src/drivebackup/__main__.py:163-166 | every file directly in a directory is uploaded, under its name and in listing order, into the folder the directory's own path resolves to |
| Uploader.DirectoryAfterPath | src/drivebackup/__main__.py:163-168 | uploading a directory first resolves its full path, and everything else only appends to that result |
| Uploader.UploadDirsPrefix | src/drivebackup/__main__.py:167-168 | the store after uploading the first `k` subdirectories is a prefix of the store after uploading the first `m >= k` |
| Uploader.SubdirectoryFoldersKept | src/drivebackup/__main__.py:167-168 | the folders resolving a subdirectory's full path inside its directory's folder stay in place, in order, in the final store |
| Uploader.SubdirectoryUnderParentFolder | src/drivebackup/__main__.py:163-168 | for any directory and any of its subdirectories, in the final store every segment of the subdirectory's full path is the first folder with that name inside the previous segment's folder, the first inside the directory's own folder: the full path is resolved again inside that folder |
| Uploader.UploadTreeValid | src/drivebackup/__main__.py:149-168 | uploading an existing path keeps the table valid |
| Uploader.UploadDirsValid | src/drivebackup/__main__.py:167-168 | uploading the subdirectories one after the other keeps the table valid |
| Uploader.UploadAllValid | src/drivebackup/__main__.py:60-61 | uploading the configured paths one after the other keeps the table valid |
| Uploader.UploadTreeUnder | src/drivebackup/__main__.py:149-168 | uploading a path inside a folder with id at least `r` adds only folders inside folders with id at least `r` |
| Uploader.UploadDirsUnder | src/drivebackup/__main__.py:167-168 | uploading subdirectories inside a folder with id at least `r` adds only folders inside folders with id at least `r` |
| Uploader.UploadAllUnder | src/drivebackup/__main__.py:60-61 | uploading the configured paths into the run folder adds only folders below the run folder |
| DriveService.Drive.FindOrCreateFolder | src/drivebackup/__main__.py:114-134 | updates the table as `FindOrCreate` does; the id returned is the first match of the new table; when a match existed nothing changes; at most one folder is added and files are untouched |
| DriveService.Drive.CreatePath | src/drivebackup/__main__.py:137-146 | the loop over the segments leaves the table and result `CreatePath` gives; no segments give back `parent_id` unchanged |
| DriveService.Drive.UploadFile | src/drivebackup/__main__.py:101-109 | appends the file as `UploadFile` does and returns its fresh id |
| DriveService.Drive.Upload | src/drivebackup/__main__.py:149-154 | updates the table as `Upload` does; a path that does not exist changes nothing |
| DriveService.Drive.UploadNode | src/drivebackup/__main__.py:155-168 | a file or a directory is uploaded as `UploadTree` specifies |
| DriveService.Drive.UploadFiles | src/drivebackup/__main__.py:165-166 | the loop over a directory's files uploads each into the directory's folder, in order |
| DriveService.Drive.UploadSubDirs | src/drivebackup/__main__.py:167-168 | the loop over a directory's subdirectories uploads each with the directory's folder as `parent_id`, in order |
| DriveService.Drive.Ls | src/drivebackup/__main__.py:171-188 | the loop building `drive_folders` returns exactly `Listing`, the non-trashed folders directly inside the parent |
| DriveService.Drive.RmR | src/drivebackup/__main__.py:191-193 | deletes the folder with that id, everything below it and the files inside them when there is such a folder (`ok`), leaving the table `Delete` gives; otherwise reports failure and changes nothing |
| Backup.DeleteAll | src/drivebackup/__main__.py:70-72 | the deletion loop only removes folders and files, leaves the counter alone, and the ids it deletes are a prefix of the ids it was given |
| Backup.DeleteAllStops | src/drivebackup/__main__.py:70-72 | once an `rm_r` of the loop has failed, the ids after it change nothing |
| Backup.DeleteStep | src/drivebackup/__main__.py:70-72 | a folder outside the trees already deleted is still there, and deleting it removes its tree on top of the earlier ones |
| Backup.DeleteAllAtOnce | src/drivebackup/__main__.py:70-72 | when each id names a folder outside the trees of the ids before it, every `rm_r` succeeds and together they remove exactly the trees of all the ids |
| Backup.PruneStore | src/drivebackup/__main__.py:63-72 | pruning only removes folders and files, leaves the counter alone, and deletes a prefix of the oldest-first selection of backups |
| Backup.Run | src/drivebackup/__main__.py:50-72 | a whole run never moves the counter back |
| Backup.ListingAfterRemove | src/drivebackup/__main__.py:171-188 | after removing some trees, a backup is listed exactly when it was listed before and lies in none of them |
| Backup.SiblingsApart | src/drivebackup/__main__.py:191-193 | when every backup was created after the backup folder, the tree of one backup holds no other backup |
| Backup.ToDeleteAreFolders | src/drivebackup/__main__.py:63-70 | every backup selected for deletion is a folder directly inside the backup folder, and no id is selected twice |
| Backup.ChildrenApart | src/drivebackup/__main__.py:191-193 | among distinct backups of the backup folder, none lies in the tree of one before it, so deleting them in order removes no later one early |
| Backup.DeletedApart | src/drivebackup/__main__.py:66-72 | each backup selected for deletion is a folder, outside the trees of the backups deleted before it |
| Backup.ListedInTrees | src/drivebackup/__main__.py:66-72 | a listed backup lies in the tree of one of some backups exactly when it is one of them |
| Backup.PruneDeletesAll | src/drivebackup/__main__.py:66-72 | every `rm_r` of the pruning succeeds, and together they remove exactly the trees of the selected backups |
| Backup.PruneListing | src/drivebackup/__main__.py:66-72 | removing the selected backups' trees leaves exactly the survivors listed in the backup folder, and no backup is selected twice |
| Backup.PruneLeavesSurvivors | src/drivebackup/__main__.py:63-72 | when every backup was created after the backup folder: every selected backup is deleted, its tree and the files inside it are removed and nothing else; listing the backup folder then gives exactly the surviving backups; the deleted ids are distinct, the counter is unchanged and the table stays valid |
| Backup.DeleteBackups | src/drivebackup/__main__.py:70-72 | the deletion loop calls `rm_r` on each selected backup in order and stops at the first failure, leaving the table and deleted ids `DeleteAll` gives; `allOk` holds exactly when every backup was deleted |
| Backup.Prune | src/drivebackup/__main__.py:63-72 | the retention block: the ids deleted and the new table are those `PruneStore` gives (the oldest `len - keep` listed backups, removed) |
| Backup.UploadPaths | src/drivebackup/__main__.py:60-61 | the loop over `paths to backup` uploads each into the run folder, leaving the table `UploadAll` gives |
| Backup.BackupFolderReady | src/drivebackup/__main__.py:56-58 | finding or creating the backup folder at the top level keeps the table valid, keeps every folder after its parent, and leaves no folder named like the run folder inside it |
| Backup.RunFolderCreated | src/drivebackup/__main__.py:57-58 | with its name unused, the run folder is appended fresh inside the backup folder, with the counter's value as id and creation time; the table stays valid, and every folder inside a folder with id at least the run folder's has an id at least the run folder's |
| Backup.BackupChildrenAfter | src/drivebackup/__main__.py:57-61 | after creating the run folder and uploading into it, every folder directly inside the backup folder was created after the backup folder |
| Backup.RunFolderNewest | src/drivebackup/__main__.py:58-63 | after the upload, listing the backup folder shows the run folder, and every other listed backup was created strictly before it |
| Backup.RunKeepsRunFolder | src/drivebackup/__main__.py:56-72 | starting from a valid table in which every folder was created after its parent and the run folder's name is unused: the run folder is created fresh, every selected backup is deleted with its tree, the run folder is not among the deleted ids, and it is still listed in the backup folder after pruning |
| Backup.RunBackup | src/drivebackup/__main__.py:50-72 | one run of `main`: resolve the backup folder, create the run folder inside it, upload each configured path into it, then prune, leaving the table and deleted ids that `Run` gives; the backup folder and run folder ids are those the two `find_or_create_folder` calls return; when every folder was created after its parent and the run folder's name was unused, the run folder is neither deleted nor missing from the backup folder afterwards |

## Left out

- `build_service`: the OAuth flow, token refresh and `token.json` persistence (`__main__.py:80-98`) are foreign library calls and file I/O.
- Logging setup at import time, including `logging_dir` and its `except Error` branch (`__main__.py:27-47`), is environment I/O; the log messages are not modelled.
- Drive query strings, `fields` selection, `spaces`, `MediaFileUpload` and `.execute()` are transport. They are replaced by operations on the store. Quoting of names inside queries is not modelled.
- `files().list` paging is not modelled: the model's queries return every match, while the service returns one page.
- `datetime.fromisoformat` and `strftime`: timestamps are integers, and the run folder's `{host} {timestamp}` name is an opaque parameter of `RunBackup`.
- YAML loading of `config.yaml` is left out (the configuration is a `Config` value), and so is the `int()` conversion of `backups to keep`, which can raise.
- `os.walk`, `p.exists()` and `p.is_file()` are left out: the local disk is the `Node` value given for each path. Splitting a path string into its parts is not modelled.
- The `HttpError` and `TimeoutError` handlers of `main` only log. A failing `rm_r` (an unknown id) ends the deletion loop, as the `HttpError` it raises ends `main`; no other modelled service call fails.
- The `FileNotFoundError` branch of `upload_file` (`__main__.py:107, 110-111`) is not modelled. `os.walk` lists a dangling symlink among a directory's files, `MediaFileUpload` cannot open it, and nothing is uploaded for that entry. The model's `Node` has no such entry kind, so every file entry it lists is uploaded.
- FolderIndex.Delete: follows only parent links towards a smaller id. In a valid store where a folder was moved under a folder created after it, `rm_r` of the newer folder keeps the moved folder, while Drive's `files().delete` (`__main__.py:192`) removes every descendant. Folders the model creates always sit under older folders, so this arises only for a starting store that breaks `ParentsBefore`.
- Backup.Run: states only that the counter never moves back. Pruning removes the deleted backups' trees with the files inside them, so a run does not keep every file already uploaded; what it removes is stated by `RunKeepsRunFolder`.
- Backup.PruneStore: states that pruning only removes, not that it keeps every file, since files inside a deleted backup are deleted with it; exactly what it removes is stated by `PruneLeavesSurvivors`.
- The returned file id of `upload_file` is kept only as the method's result; the source does not use it further.
