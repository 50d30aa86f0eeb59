# easyversion: the delta-chain engine and the version records, in Dafny

easyversion keeps the history of files and folders as chains of binary patches. A version
of a file is rebuilt by applying the first patches of its chain to the empty buffer, one
after the other. This project models that engine and the tables of version records that
name its versions, and proves properties of the model. The repository holds several
snapshots of the same subsystem; each is modelled in its own module.

- **Patches** (`patch.dfy`, src/patch.rs): a patch is a compressed delta held as bytes.
  The delta codec (bsdiff and bzip2) and the hasher are the fields of a `Backend` value.
  The single property the engine relies on, that applying `diff(s, t)` to `s` gives `t`,
  is the predicate `RoundTrips`.
- **Versions** (`version.dfy`, src/version.rs): a patch written to, and read back from, a
  stream (`streams.dfy`).
- **Patch chains**:
  - `PatchTimelines` (src/patches/patch_timeline.rs) deduplicates. Equal patches share one
    file, and a file is deleted only when the last entry naming it is popped (`chains.dfy`).
  - `Timelines` (src/timeline.rs) is the older chain, which names each entry by a file path.
- **Tracked items** (src/tracked/):
  - `TrackedFiles` models a file over a `PatchTimeline`: `apply`, `commit`, `load_version`
    and `delete_version`.
  - `TrackedFolders` models a folder of tracked files. It also models the operations that
    src/tracked/mod.rs derives from `save`, `load` and `delete`: `load_last`, `reset`,
    `delete_last`, `clear` and `split`.
- **First-generation tracking**: `ByteTracking` (src/tracked_bytes.rs), `FileTracking`
  (src/tracked_file.rs) and `FolderTracking` (src/tracked_folder.rs). These keep an
  unshared list of patch ids.
- **Version records**:
  - `Labels`, `VersionIdentifiers`, `VersionInfos` and `VersionInfoManagers` model
    src/version_info_manager/.
  - `LegacyVersionInfo` models the older single-file src/version_info.rs.

The filesystem is the object `FileSystem.Disk`. It holds the live files (a map from path
to bytes) and the patch directories (`BlobDir` objects, maps from a patch id to the
patch's bytes). A patch file's name is an injective function of its id
(`Timelines.PatchPathInjective`, `Primitives.DecimalInjective`), so files are keyed by id.
Every write, creation and removal that the operating system can refuse has a
nondeterministic failure outcome. Reading a patch file fails only when the file is missing
(see "Left out").
Clones of a chain share their `BlobDir`, just as clones of the Rust values share a
directory on disk.

`delete_version` (src/tracked/file.rs:116-128) only pops the chain and never touches the
live file; the model does the same.

The snapshots under src/tracked/ do not fit together as written: src/tracked/folder.rs
calls `save`, `load`, `delete` and `len` on its files, while src/tracked/file.rs provides
`commit`, `load_version`, `delete_version` and `version_count`, and src/tracked/mod.rs
declares yet another set. `TrackedFolders` binds the folder's `save`, `load`, `delete` and
`len`, and the derived operations of src/tracked/mod.rs, to the file's `commit`,
`load_version`, `delete_version` and `version_count`.

## Model

| member | source | states |
|---|---|---|
| Patches.FromData | src/patch.rs:67-71 | the patch holds exactly the given bytes |
| Patches.FromSlice | src/patch.rs:80-84 | converting a slice is `from_data` |
| Patches.IntoBytes | src/patch.rs:74-78 | converting a patch to bytes is the inverse of `from_data` |
| Patches.IsEmpty | src/patch.rs:53-56 | empty exactly when the length is 0 |
| Patches.New | src/patch.rs:16-25 | succeeds exactly when the codec produces a delta; otherwise fails with a codec error |
| Patches.Apply | src/patch.rs:58-65 | succeeds exactly when the codec can apply the delta to the source; otherwise fails with a codec error |
| Patches.NewThenApply | src/patch.rs:98-104 | a patch made from `source` to `target` applied to `source` gives `target` |
| Patches.Len | src/patch.rs:48-51 | the length of the byte vector the patch converts into |
| Patches.Id | src/patch.rs:43-46 | the hash of the patch's byte vector |
| Patches.ReadFrom | src/patch.rs:27-31 | the patch holds everything that was left in the reader, and the reader is exhausted |
| Patches.WriteTo | src/patch.rs:33-36 | the writer gains exactly the patch's bytes, or a prefix of them on failure |
| Patches.WriteThenRead | src/patch.rs:113-127 | writing a patch and reading the buffer back gives the same patch |
| Versions.Version.Location | src/version.rs:30-32 | the location the version was built from |
| Versions.FromLocation | src/version.rs:35-39 | a version whose location is the value given |
| Versions.LocationRoundTrip | src/version.rs:30-45 | wrapping a location and asking for it back are inverse to each other |
| Versions.Open | src/version.rs:13-20 | the patch is `from_data` of everything left in the reader |
| Versions.Write | src/version.rs:22-28 | writes exactly the patch's data (a prefix on failure) and remembers the writer |
| Versions.WriteThenOpen | src/version.rs:62-85 | a patch written into a buffer and opened from it is the same patch |
| Chains.Dropped | src/patches/patch_timeline.rs:98-109 | popping a chain down to `k` entries can delete only blobs that the popped suffix names and the kept prefix does not |
| Chains.DroppedStep | src/patches/patch_timeline.rs:98-109 | one more pop deletes its blob exactly when no earlier entry names it |
| Chains.DroppedNothing | src/patches/patch_timeline.rs:98-109 | popping nothing deletes nothing |
| Chains.DroppedEverything | src/patches/patch_timeline.rs:98-109 | popping everything deletes the blob of every entry |
| PatchTimelines.Fetch | src/patches/patch_timeline.rs:111-119 | `IndexOutOfRange(idx)` exactly past the end; otherwise the stored patch, or `NotFound` when its file is missing |
| PatchTimelines.PatchTimeline.New | src/patches/patch_timeline.rs:67-73 | creates the directory if needed; refuses a path that is a file; the chain starts empty and valid |
| PatchTimelines.PatchTimeline.Clone | src/patches/patch_timeline.rs:61-64 | the clone has the same entries over the same shared directory |
| PatchTimelines.PatchTimeline.Len | src/patches/patch_timeline.rs:75-77 | one per entry of the chain, repeated patches counted each time |
| PatchTimelines.PatchTimeline.IsEmpty | src/patches/patch_timeline.rs:79-81 | empty exactly when the length is 0 |
| PatchTimelines.PatchTimeline.Get | src/patches/patch_timeline.rs:111-119 | `IndexOutOfRange(idx)` exactly past the end; otherwise the patch stored under the `idx`-th hash |
| PatchTimelines.PatchTimeline.Push | src/patches/patch_timeline.rs:87-96 | appends the hash and writes the file only if none exists for it; keeps every entry backed by a file; a failure changes nothing else |
| PatchTimelines.PatchTimeline.Pop | src/patches/patch_timeline.rs:98-109 | `NoVersionsAvailable` on an empty chain; otherwise drops the last hash and deletes its file exactly when no remaining entry names it |
| PatchTimelines.PushTwiceThenGet | src/patches/patch_timeline.rs:87-96 | pushing the same patch twice into a fresh directory gives two entries sharing one file, and `get(0)` gives the patch back |
| Timelines.PatchPath | src/timeline.rs:68 | the path lies under the patch directory and ends in `<id>.bz2` |
| Timelines.PatchPathInjective | src/timeline.rs:67-73 | different ids are stored in different files |
| Timelines.Timeline.PatchPaths | src/timeline.rs:109-111 | the stored paths are the paths of the ids, in chain order |
| Timelines.Timeline.ContainsPathIffContainsId | src/timeline.rs:75-82 | a path is in the chain exactly when its id is, so the path check in `pop` is an id check |
| Timelines.Timeline.New | src/timeline.rs:59-65 | creates the directory if needed; refuses a path that is a file; the chain starts empty |
| Timelines.Timeline.Len | src/timeline.rs:101-103 | the number of stored patch paths |
| Timelines.Timeline.IsEmpty | src/timeline.rs:105-107 | empty exactly when the length is 0 |
| Timelines.Timeline.Get | src/timeline.rs:94-99 | `None` exactly past the end; otherwise the patch stored for that entry |
| Timelines.Timeline.Push | src/timeline.rs:67-73 | writes the file and then appends the entry; on failure the chain is unchanged and only that file may differ |
| Timelines.Timeline.Pop | src/timeline.rs:75-82 | on an empty chain succeeds with no change; otherwise drops the last entry and deletes its file unless another entry names it |
| Timelines.Timeline.Trunicate | src/timeline.rs:84-92 | refuses an index past the end; otherwise keeps exactly the first `index` entries; on failure, entries already popped stay popped |
| Timelines.PushGetTrunicate | src/timeline.rs:176-189 | a pushed patch is read back by `get(0)`, and `trunicate(0)` empties the chain |
| TrackedFiles.Replay | src/tracked/file.rs:81-95 | the fold of patch application over the first `k` entries; past the end it fails with `IndexOutOfRange` at the chain length; on success every entry's file exists |
| TrackedFiles.ReplayFailureSticks | src/tracked/file.rs:87-93 | once a replay fails, replaying further fails the same way (the loop's early return) |
| TrackedFiles.ReplayAgrees | src/tracked/file.rs:87-93 | a replay depends only on the entries replayed and the files they name |
| TrackedFiles.Latest | src/tracked/file.rs:100-103 | the source of a commit is `[]` with no versions |
| TrackedFiles.NextPatch | src/tracked/file.rs:99-107 | the committed patch is the delta from the latest version to the target |
| TrackedFiles.StoreOnce | src/patches/patch_timeline.rs:87-96 | a deduplicating store adds the hash and keeps every existing file |
| TrackedFiles.CommitThenReplay | src/tracked/file.rs:99-107 | after a commit, replaying the whole chain gives the committed content back |
| TrackedFiles.CommitKeepsHistory | src/tracked/file.rs:99-107 | a commit leaves every earlier version as it was |
| TrackedFiles.TimelineDirsDiffer | src/tracked/file.rs:65 | files whose paths hash apart keep their patches in different directories |
| TrackedFiles.TrackedFile.New | src/tracked/file.rs:57-71 | refuses a path that does not exist (`FileDoesntExist`); otherwise an empty chain over the patch root joined with the path's hash |
| TrackedFiles.TrackedFile.Clone | src/tracked/file.rs:50-54 | the same path over a cloned chain that shares its directory |
| TrackedFiles.TrackedFile.VersionCount | src/tracked/file.rs:130-132 | one version per entry of the chain |
| TrackedFiles.TrackedFile.IsEmpty | src/tracked/mod.rs:12-14 | empty exactly when there are no versions |
| TrackedFiles.TrackedFile.LatestVersionIndex | src/tracked/file.rs:117-127 | none exactly when there are no versions; otherwise the count less one |
| TrackedFiles.TrackedFile.Apply | src/tracked/file.rs:81-95 | `NoVersionsAvailable` on an empty chain; otherwise the replay of entries `0..=index` |
| TrackedFiles.TrackedFile.Commit | src/tracked/file.rs:99-108 | on success the chain and directory are those of committing the file's content; on failure the chain and every file it names are intact |
| TrackedFiles.TrackedFile.LoadVersion | src/tracked/file.rs:110-114 | writes exactly the replayed version over the file; when the version cannot be rebuilt, fails with the replay's error (`NoVersionsAvailable` with no versions) and writes nothing; a failed write changes only that file |
| TrackedFiles.TrackedFile.DeleteVersion | src/tracked/file.rs:116-128 | `NoVersionsAvailable` with no versions; otherwise pops the chain down to `index` entries, deleting exactly the files no kept entry names |
| TrackedFiles.CommitThenApply | src/tracked/file.rs:178-188 | a commit followed by `apply(0)` gives back the content the file had |
| TrackedFolders.FilePaths | src/tracked/folder.rs:17-23 | a path is kept exactly when some entry of the walk is a regular file at that path |
| TrackedFolders.FilePathsPrefix | src/tracked/folder.rs:17-23 | walking a prefix of the entries finds a prefix of the files |
| TrackedFolders.NextHashDiffers | src/tracked/folder.rs:17-23 | the next file of the walk hashes apart from every earlier one |
| TrackedFolders.TrackedApart | src/tracked/file.rs:65 | children whose paths hash apart have distinct chains and directories |
| TrackedFolders.LastIndex | src/tracked/mod.rs:16-22 | `len().saturating_sub(1)` |
| TrackedFolders.GrowingKeepsReplays | src/tracked/file.rs:81-95 | a directory that only gained files rebuilds every version as before |
| TrackedFolders.GrownKeepVersion | src/tracked/mod.rs:32-38 | children that kept their chains while their directories only gained files are still restored to the version their files held |
| TrackedFolders.FirstCommitRebuilds | src/tracked/mod.rs:32-38 | the clone's one saved version rebuilds the loaded file, given the round trip and no stale file under the patch's hash |
| TrackedFolders.SharedClearOrphans | src/tracked/mod.rs:32-38 | once the clone clears the shared directory and saves one patch, an entry of the original naming any other patch can no longer be read |
| TrackedFolders.OnlyNewPatchSurvives | src/tracked/mod.rs:32-38 | after the clone's first commit into the cleared directory, at most the new patch is left of the original's files |
| TrackedFolders.SplitLosesHistory | src/tracked/mod.rs:32-38 | a concrete two-version history cannot rebuild version 0 after a split |
| TrackedFolders.TrackedFolder.Len | src/tracked/folder.rs:62-64 | the first child's version count, or 0 without children |
| TrackedFolders.TrackedFolder.New | src/tracked/folder.rs:15-29 | tracks exactly the regular files of the walk, in order; any walk error fails the call; stops at the first walk or tracking error |
| TrackedFolders.TrackedFolder.Save | src/tracked/folder.rs:41-46 | commits every child in order; on failure at child `k`, the earlier children are committed and the rest untouched; no patch file is lost |
| TrackedFolders.TrackedFolder.IsEmpty | src/tracked/mod.rs:12-14 | empty exactly when `len()` is 0 |
| TrackedFolders.TrackedFolder.Load | src/tracked/folder.rs:48-53 | every child's file holds its version `index`; on failure at child `k`, earlier children are restored and only child `k`'s file also changed; needs only distinct children, so it also runs on chains whose patch files are gone (the original after `split`) |
| TrackedFolders.TrackedFolder.Delete | src/tracked/folder.rs:55-60 | every chain is popped down to `index` entries; on failure at child `k`, earlier chains are popped and later ones untouched |
| TrackedFolders.TrackedFolder.LoadLast | src/tracked/mod.rs:16-18 | `load` of the newest version (0 when there are none), on any folder `load` accepts |
| TrackedFolders.TrackedFolder.Reset | src/tracked/mod.rs:24-26 | the same outcome as `load_last`, on any folder `load` accepts |
| TrackedFolders.TrackedFolder.DeleteLast | src/tracked/mod.rs:20-22 | `delete` of the newest version (0 when there are none) |
| TrackedFolders.TrackedFolder.Clear | src/tracked/mod.rs:28-30 | `delete(0)`: on success every chain is empty |
| TrackedFolders.TrackedFolder.Clone | src/tracked/folder.rs:8-12 | a second valid folder over the same paths whose fresh chains share this folder's directories |
| TrackedFolders.TrackedFolder.Split | src/tracked/mod.rs:32-38 | as written: a failed load stops the split with the chains and directories untouched; after a load, every file holds its version `index` as it stood; the clone's chain is one commit of that file onto the cleared directory, and its one version rebuilds that file given the round trip and no stale patch file under the new patch's hash; the original keeps its chains, but no entry naming a patch other than the clone's one still has its file |
| TrackedFolders.TrackedFolder.CloneEmpty | src/tracked/mod.rs:32-38 | a clone with empty chains over the shared directories, deleting nothing |
| TrackedFolders.TrackedFolder.SplitKeepingHistory | src/tracked/mod.rs:32-38 | corrected split: a failed load stops it with nothing else changed; after a load every file holds version `index`, which the original still rebuilds; the clone's chain is one commit of that file onto the directory as it was, and its one version rebuilds that file given the round trip and no stale patch file under the new patch's hash; the original keeps its chains and its directories only gain files |
| ByteTracking.ApplyPatch | src/tracked_bytes.rs:40-45 | `NotFound` for a missing patch file; otherwise succeeds exactly when the codec applies the stored delta |
| ByteTracking.Replayed | src/tracked_bytes.rs:32-38 | the fold over no patches is `[]`; on success every patch file exists |
| ByteTracking.ReplayedFailureSticks | src/tracked_bytes.rs:32-38 | once a prefix fails, the whole fold fails the same way |
| ByteTracking.ReplayedReadsOnlyItsPatches | src/tracked_bytes.rs:32-38 | the fold depends only on the files it names |
| ByteTracking.SavedThenReplayed | src/tracked_bytes.rs:27-30 | after a save, loading the whole list gives the saved bytes, and every earlier version is unchanged |
| ByteTracking.TwoSavesReplay | src/tracked_bytes.rs:68-78 | after two saves, versions 0 and 1 are the two saved contents |
| ByteTracking.LoadPatches | src/tracked_bytes.rs:32-38 | the loop computes the fold `Replayed` |
| ByteTracking.TrackedBytes.constructor | src/tracked_bytes.rs:16-21 | an empty list of patches over `patch_dir` |
| ByteTracking.TrackedBytes.Load | src/tracked_bytes.rs:23-25 | version `index` is the fold over the first `index + 1` patches |
| ByteTracking.TrackedBytes.Save | src/tracked_bytes.rs:27-30 | appends the id of the delta from the latest content and stores the delta; on failure the list is unchanged |
| ByteTracking.TrackedBytes.SavePatch | src/tracked_bytes.rs:47-53 | given the current content, stores the delta to `target` and appends its id |
| ByteTracking.SaveTwiceThenLoad | src/tracked_bytes.rs:68-78 | saving two contents, `load(0)` and `load(1)` give them back |
| FileTracking.TrackedFile.constructor | src/tracked_file.rs:16-21 | an empty history over `patch_dir` for the file at `path` |
| FileTracking.TrackedFile.Version | src/tracked_file.rs:23-26 | a version rebuilds only when every patch file up to it is in the patch directory |
| FileTracking.TrackedFile.Load | src/tracked_file.rs:23-26 | writes exactly version `index` over the file; nothing is written when it cannot be rebuilt |
| FileTracking.TrackedFile.Save | src/tracked_file.rs:28-31 | a directory or a missing path is refused; otherwise the file's content is saved as the next version |
| FileTracking.WriteThenSave | src/tracked_file.rs:54-57 | after writing `content` and saving, the newest version is `content` |
| FileTracking.LoadThenRead | src/tracked_file.rs:59-62 | after `load(index)` the file reads as version `index` |
| FileTracking.SaveTwoVersionsThenLoad | src/tracked_file.rs:49-64 | saving "1" then "2", `load(0)` restores "1" and `load(1)` restores "2" |
| FolderTracking.NonDirPaths | src/tracked_folder.rs:19-27 | a path is kept exactly when some entry of the walk is a file or link at that path, at most one per entry |
| FolderTracking.TrackedFolder.New | src/tracked_folder.rs:17-32 | corrected: fails exactly on a walk error; otherwise every non-directory entry becomes a fresh child tracking that entry, with its patches in `patch_dir` |
| FolderTracking.TrackedFolder.NewAsWritten | src/tracked_folder.rs:17-32 | as written: every child tracks the patch directory itself and keeps its patches under the entry's path |
| FolderTracking.TrackedFolder.Len | src/tracked_folder.rs:63-65 | the number of tracked files |
| FolderTracking.TrackedFolder.IsEmpty | src/tracked_folder.rs:67-69 | empty exactly when no file is tracked |
| FolderTracking.TrackedFolder.Save | src/tracked_folder.rs:38-43 | on failure at child `k`, earlier children gained one patch each and the rest none; a first child that is a directory fails before anything changes |
| FolderTracking.TrackedFolder.Load | src/tracked_folder.rs:49-54 | only tracked files change; with distinct paths every child is restored; on failure the earlier children are restored |
| FolderTracking.SaveAsWrittenFails | src/tracked_folder.rs:25 | with the arguments as written, saving a folder with a file fails with `IsADirectory` |
| FolderTracking.NewTracksWalkedFiles | src/tracked_folder.rs:25 | with the arguments in declared order, `new` succeeds and no child tracks the patch directory |
| Labels.IsValidName | src/version_info_manager/label.rs:36-38 | true exactly when no character is whitespace |
| Labels.New | src/version_info_manager/label.rs:26-34 | accepts exactly the valid names, keeping the name; otherwise `ContainsWhitespace` |
| Labels.ToString | src/version_info_manager/label.rs:45-49 | a label prints as a name that parses back to it exactly when the label is valid |
| Labels.NewThenName | src/version_info_manager/label.rs:26-43 | a valid name makes a label that gives the name back |
| Labels.NewAcceptsPlainName | src/version_info_manager/label.rs:55-62 | "label" is accepted |
| Labels.NewRefusesSpacedName | src/version_info_manager/label.rs:55-62 | "label 2 electric boogaloo" is refused |
| VersionIdentifiers.FromLabel | src/version_info_manager/version_identifier.rs:12-14 | the identifier answers `label()` with `l` and `index()` with none |
| VersionIdentifiers.FromIndex | src/version_info_manager/version_identifier.rs:16-18 | the identifier answers `index()` with `i` and `label()` with none |
| VersionIdentifiers.ExactlyOneAccessor | src/version_info_manager/version_identifier.rs:20-33 | exactly one accessor is present, and it rebuilds the identifier |
| VersionInfos.New | src/version_info_manager/version_info.rs:13-19 | index `i`, no label, no message |
| VersionInfos.WithMessage | src/version_info_manager/version_info.rs:21-27 | index `i`, message `m`, no label; the same as a new record with `m` set |
| VersionInfos.SetLabel | src/version_info_manager/version_info.rs:29-31 | only the label changes |
| VersionInfos.SetMessage | src/version_info_manager/version_info.rs:33-35 | only the message changes |
| VersionInfos.ClearLabel | src/version_info_manager/version_info.rs:37-39 | only the label changes, to none |
| VersionInfos.ClearMessage | src/version_info_manager/version_info.rs:41-43 | only the message changes, to none |
| VersionInfos.SettersIndependent | src/version_info_manager/version_info.rs:29-43 | label and message setters do not interfere |
| VersionInfos.PartialCmp | src/version_info_manager/version_info.rs:59-63 | always comparable; less, equal or greater exactly as the indices are |
| VersionInfos.PartialCmpByIndexOnly | src/version_info_manager/version_info.rs:59-63 | the order ignores label and message, and is antisymmetric |
| VersionInfos.FirstLabelled | src/version_info_manager/mod.rs:43 | the first position carrying the label, none exactly when no version carries it (the same search serves `src/version_info.rs:295-298`) |
| VersionInfoManagers.LabelledThenFirst | src/version_info_manager/mod.rs:69-71 | labelling with an unused label makes that version the one the label finds |
| VersionInfoManagers.VersionInfoManager.constructor | src/version_info_manager/mod.rs:31-33 | no versions |
| VersionInfoManagers.VersionInfoManager.Clone | src/version_info_manager/mod.rs:25-28 | a fresh manager with the same versions |
| VersionInfoManagers.VersionInfoManager.Position | src/version_info_manager/mod.rs:48-55 | the `i`-th position for an index in range; the first labelled position for a label |
| VersionInfoManagers.VersionInfoManager.Get | src/version_info_manager/mod.rs:39-46 | by index, the version at that position; by label, a version carrying it, present exactly when the label is used; in a valid table the result carries the index asked for |
| VersionInfoManagers.VersionInfoManager.ContainsLabel | src/version_info_manager/mod.rs:57-59 | true exactly when some version carries the label |
| VersionInfoManagers.VersionInfoManager.SetLabel | src/version_info_manager/mod.rs:61-73 | a used label gives `DuplicateLabel` and no change; otherwise succeeds, labels the named version if any, and keeps labels unique |
| VersionInfoManagers.VersionInfoManager.AddVersion | src/version_info_manager/mod.rs:75-77 | appends an unlabelled version indexed by the previous count, which becomes the latest |
| VersionInfoManagers.VersionInfoManager.RemoveVersion | src/version_info_manager/mod.rs:79-84 | drops the named version and every later one; an unknown identifier changes nothing |
| VersionInfoManagers.VersionInfoManager.VersionCount | src/version_info_manager/mod.rs:86-88 | the number of versions |
| VersionInfoManagers.VersionInfoManager.IsEmpty | src/version_info_manager/mod.rs:90-92 | empty exactly when the count is 0 |
| VersionInfoManagers.VersionInfoManager.LatestVersionIndex | src/version_info_manager/mod.rs:94-99 | none exactly when empty; otherwise the count less one, naming the last version |
| VersionInfoManagers.VersionInfoManager.Clear | src/version_info_manager/mod.rs:101-103 | no versions |
| VersionInfoManagers.VersionInfoManager.Fork | src/version_info_manager/mod.rs:105-110 | a fresh valid manager with the single version 0 |
| VersionInfoManagers.SetLabelTwice | src/version_info_manager/mod.rs:154-164 | labelling version 0 succeeds once and is refused as a duplicate the second time |
| LegacyVersionInfo.NewLabel | src/version_info.rs:26-37 | accepts exactly the names without whitespace; otherwise `InvalidLabel` carrying the name |
| LegacyVersionInfo.NewLabelAcceptsPlainNames | src/version_info.rs:56-62 | "v1.0", "foobar" and "foo-bar" are accepted |
| LegacyVersionInfo.NewLabelRefusesSpacedNames | src/version_info.rs:56-62 | " " and "foo bar" are refused with their names |
| LegacyVersionInfo.Identifier | src/version_info.rs:176-182 | the label when there is one, the index otherwise |
| LegacyVersionInfo.IdentifierOfNew | src/version_info.rs:223-239 | a new record names itself by its index; a labelled one by its label |
| LegacyVersionInfo.FirstIndexed | src/version_info.rs:291-294 | the first position recording the index, none exactly when no version records it |
| LegacyVersionInfo.VersionInfoManager.constructor | src/version_info.rs:277-279 | no versions |
| LegacyVersionInfo.VersionInfoManager.FromVersions | src/version_info.rs:281-283 | exactly the versions given |
| LegacyVersionInfo.VersionInfoManager.Position | src/version_info.rs:302-313 | the first entry recording the index, or the first carrying the label |
| LegacyVersionInfo.VersionInfoManager.Get | src/version_info.rs:289-300 | the version at `Position(id)`: by index the first one recording that index, present exactly when one exists; by label the first one carrying it, present exactly when the label is used |
| LegacyVersionInfo.VersionInfoManager.ContainsLabel | src/version_info.rs:315-319 | true exactly when some version carries the label |
| LegacyVersionInfo.VersionInfoManager.SetLabel | src/version_info.rs:321-338 | as written: a used label gives `VersionIdentifierNotFound(id)`; otherwise labels the found version, or gives the same error |
| LegacyVersionInfo.VersionInfoManager.SetLabelReportingDuplicate | src/version_info.rs:321-338 | corrected: `DuplicateLabel` exactly for a used label; `VersionIdentifierNotFound` exactly when nothing is named |
| LegacyVersionInfo.VersionInfoManager.AddVersionInfo | src/version_info.rs:340-343 | appends an unlabelled version indexed by the previous length, which `get` then finds |
| LegacyVersionInfo.VersionInfoManager.Len | src/version_info.rs:345-347 | the number of versions |
| LegacyVersionInfo.VersionInfoManager.IsEmpty | src/version_info.rs:349-351 | empty exactly when the length is 0 |
| LegacyVersionInfo.RelabelBackAndForth | src/version_info.rs:423-447 | relabel to "bar" and back to "foo" succeeds; labelling by "bar" afterwards fails |
| LegacyVersionInfo.DuplicateReportedAsNotFound | src/version_info.rs:326-329 | reusing a label on version 0 reports `VersionIdentifierNotFound(Index(0))` although version 0 exists |

## Left out

- The delta codec and the hasher are function values of `Primitives.Backend`:
  - the bsdiff and bzip2 internals of src/patch.rs:16-25 and 58-65;
  - `hash` (src/lib.rs:8-15).
  Only the round trip `RoundTrips` is assumed of them, as a precondition. Hash collisions
  are excluded where a property needs it (`PatchesApart`, `HashesDistinct`, the
  no-stale-file preconditions). The concrete id in src/patch.rs:107-111 is not modelled.
- Real filesystem effects are the `FileSystem.Disk` object. Operating-system failures are
  a nondeterministic error outcome with no further detail.
- PatchTimelines.Fetch, PatchTimelines.PatchTimeline.Get, Timelines.Timeline.Get,
  TrackedFiles.Replay, TrackedFiles.TrackedFile.Apply and ByteTracking.ApplyPatch: reading a
  patch file fails only with `NotFound`, when the file is missing. Other open and read
  errors (permissions, device errors) are not modelled, because a read is a function of the
  directory's contents.
- Walks are input sequences (`TrackedFolders.WalkEntry`), so traversal order and walk
  errors come from the caller. The legacy walk reports a walk error as `Refused`.
- `Display`, `Error` and `From` impls of the error types, and the serde derives, are
  formatting and persistence only.
- The `From`/`AsRef` conversions that duplicate a named constructor are the named
  constructor. The plain accessors (`path`, `files`, `patch_timeline`, `patch_dir`,
  `versions`, `name`, `index`, `label`, `message`, `data`) read the fields directly.
- `Display for VersionIdentifier` (src/version_info.rs:116-123) is formatting only.
- `usize` is `nat`: no overflow is modelled. `saturating_sub` is written out
  (`TrackedFolders.LastIndex`).
- The patch-file API that src/tracked_bytes.rs calls (`Patch::open`, `decompress`,
  `from_buffers`, `compress`, `save`, `path`) is not part of this model. Its files are
  blobs keyed by patch id in the patch directory, and the id is the `Backend`'s hash of
  the delta.
- src/patches/patch.rs (`PatchError`, `Patch::filename`) is not part of this model.
  `PatchTimeline` uses `Patches.Patch` and keys files by hash.
- The legacy `TrackedFolder::delete` (src/tracked_folder.rs:56-61) calls
  `TrackedFile::delete`, which src/tracked_file.rs does not define, so it is not modelled.
- Indexing past the end is a panic, which is a precondition:
  - `tracked_bytes.rs` slicing with `[..=patch_index]`;
  - `tracked_file.rs` load.
- The legacy version-record types in src/version_info.rs reuse the newer modules'
  definitions, which agree with them field for field:
  - `VersionIdentifier` is `VersionIdentifiers.VersionIdentifier`;
  - `VersionInfo` and its setters are `VersionInfos`;
  - `partial_cmp` is `VersionInfos.PartialCmp`.
- `VersionInfo` setters are functions returning the updated record, because every record
  lives by value in a manager's list.
- FolderTracking.TrackedFolder.Save: states only how the children's patch lists grow. The
  content each child saves is stated by `FileTracking.TrackedFile.Save`, not repeated per
  child.
- FolderTracking.TrackedFolder.Load: the restored-contents guarantee is stated only when
  the children track distinct paths. With repeated paths a later child overwrites an
  earlier one.
- src/project.rs and src/easy_version.rs (project wiring, the registry, ron files) are not
  part of this model.

## Findings

| source | as written | input that shows it | evidently intended | confidence | as-written member | corrected member |
|---|---|---|---|---|---|---|
| src/tracked/mod.rs:32-38 | `split` clones the item, whose chains share their patch directories with the original's, then `clear`s the clone | a history of two versions stored as patches 1 and 2: after `split`, the clone's `clear` deletes both files, and the original can no longer rebuild version 0 | the split-off copy starts its own history without deleting the patch files the original still names | not executed; high | TrackedFolders.TrackedFolder.Split, TrackedFolders.SplitLosesHistory | TrackedFolders.TrackedFolder.SplitKeepingHistory |
| src/tracked_folder.rs:25 | `TrackedFile::new(entry.path(), &patch_dir)`, while src/tracked_file.rs:16 declares `new(patch_dir, path)` | any folder with one file and an existing patch directory: every child tracks the patch directory, and `save` fails with an is-a-directory error | `TrackedFile::new(&patch_dir, entry.path())`: each child tracks its walked file | not executed; high | FolderTracking.TrackedFolder.NewAsWritten, FolderTracking.SaveAsWrittenFails | FolderTracking.TrackedFolder.New, FolderTracking.NewTracksWalkedFiles |
| src/version_info.rs:326-329 | a label already in use is reported as `VersionIdentifierNotFound(id)` | one version, index 0, labelled `l`: `set_label(Index(0), l)` returns `VersionIdentifierNotFound(Index(0))` although version 0 exists | `DuplicateLabel(l)`, the variant the error type declares for this case | not executed; medium | LegacyVersionInfo.VersionInfoManager.SetLabel, LegacyVersionInfo.DuplicateReportedAsNotFound | LegacyVersionInfo.VersionInfoManager.SetLabelReportingDuplicate |
