/**
 * A tracked folder (src/tracked/folder.rs) and the operations every tracked item derives
 * from its four primitives (src/tracked/mod.rs).
 *
 * A folder tracks each regular file below it with its own `TrackedFile`, in walk order.
 * `save`, `load` and `delete` run the file operation on each child in turn and stop at the
 * first error, leaving the children before it changed and those after it untouched.
 */
module TrackedFolders {
  import opened Wrappers
  import opened Primitives
  import opened Chains
  import opened FileSystem
  import opened PatchTimelines
  import opened TrackedFiles
  import Patches

  datatype EntryKind = RegularFile | Directory | Symlink

  /** One item of the directory walk, in walk order: an entry, or an error reading one. */
  datatype WalkEntry = Entry(path: Path, kind: EntryKind) | WalkFailure

  datatype FolderError = WalkError | FileError(error: TrackedFileError)

  /** The paths of the regular files among the walk entries, in walk order. */
  function FilePaths(entries: seq<WalkEntry>): (ps: seq<Path>)
    ensures |ps| <= |entries|
    ensures forall p :: p in ps <==>
              exists j :: 0 <= j < |entries| && entries[j].Entry? && entries[j].kind == RegularFile && entries[j].path == p
  {
    if entries == [] then []
    else
      var last := entries[|entries| - 1];
      FilePaths(entries[..|entries| - 1]) + (if last.Entry? && last.kind == RegularFile then [last.path] else [])
  }

  /** No two regular-file entries have paths with the same hash. */
  ghost predicate HashesDistinct(b: Backend, entries: seq<WalkEntry>) {
    var ps := FilePaths(entries);
    forall i, j :: 0 <= i < j < |ps| ==> b.hashPath(ps[i]) != b.hashPath(ps[j])
  }

  /** Walking a prefix of the entries finds a prefix of the files. */
  lemma {:induction false} FilePathsPrefix(entries: seq<WalkEntry>, k: nat)
    requires k <= |entries|
    ensures FilePaths(entries[..k]) <= FilePaths(entries)
    decreases |entries| - k
  {
    if k < |entries| {
      FilePathsPrefix(entries[..|entries| - 1], k);
      assert entries[..|entries| - 1][..k] == entries[..k];
    } else {
      assert entries[..k] == entries;
    }
  }

  /** One more entry of the walk adds its path when it is a regular file, and nothing otherwise. */
  lemma FilePathsStep(entries: seq<WalkEntry>, i: nat)
    requires i < |entries|
    ensures FilePaths(entries[..i + 1]) ==
              FilePaths(entries[..i]) + (if entries[i].Entry? && entries[i].kind == RegularFile then [entries[i].path] else [])
  {
    assert entries[..i + 1][..i] == entries[..i];
  }

  /**
   * Under distinct hashes, the next regular file of the walk hashes differently from every
   * regular file before it.
   */
  lemma NextHashDiffers(b: Backend, entries: seq<WalkEntry>, i: nat)
    requires HashesDistinct(b, entries) && i < |entries|
    requires entries[i].Entry? && entries[i].kind == RegularFile
    ensures forall j :: 0 <= j < |FilePaths(entries[..i])| ==>
              b.hashPath(FilePaths(entries[..i])[j]) != b.hashPath(entries[i].path)
  {
    FilePathsStep(entries, i);
    FilePathsPrefix(entries, i + 1);
    var ps := FilePaths(entries);
    var n := |FilePaths(entries[..i])|;
    assert ps[n] == entries[i].path;
    forall j | 0 <= j < n
      ensures b.hashPath(FilePaths(entries[..i])[j]) != b.hashPath(entries[i].path)
    {
      assert FilePaths(entries[..i])[j] == ps[j];
    }
  }

  /** The tracked paths of a sequence of children, in order. */
  function PathsOf(files: seq<TrackedFile>): (ps: seq<Path>)
    ensures |ps| == |files| && forall j :: 0 <= j < |files| ==> ps[j] == files[j].path
  {
    seq(|files|, j requires 0 <= j < |files| => files[j].path)
  }

  /** No two children share a path, a chain or a patch directory. */
  ghost predicate ChildrenDisjoint(files: seq<TrackedFile>) {
    forall i, j :: 0 <= i < j < |files| ==>
      && files[i].path != files[j].path
      && files[i].timeline != files[j].timeline
      && files[i].timeline.store != files[j].timeline.store
  }

  /** What `TrackedFile::new` promises about a child whose patches live under `patchDir`. */
  ghost predicate Tracks(disk: Disk, f: TrackedFile, patchDir: Path, b: Backend)
    reads disk, f, f.timeline, f.timeline.store
  {
    && f.Valid() && f.VersionCount() == 0
    && f.timeline.backend == b && f.timeline.dir == TimelineDir(b, patchDir, f.path)
    && f.timeline.dir in disk.dirs && disk.dirs[f.timeline.dir] == f.timeline.store
  }

  /**
   * Children tracked under one patch directory, whose paths hash apart, have distinct
   * timeline directories and therefore distinct chains.
   */
  lemma TrackedApart(disk: Disk, files: seq<TrackedFile>, patchDir: Path, b: Backend)
    requires disk.Valid()
    requires forall j :: 0 <= j < |files| ==> Tracks(disk, files[j], patchDir, b)
    requires forall i, j :: 0 <= i < j < |files| ==> b.hashPath(files[i].path) != b.hashPath(files[j].path)
    ensures ChildrenDisjoint(files)
  {
    forall i, j | 0 <= i < j < |files|
      ensures files[i].timeline.store != files[j].timeline.store
    {
      TimelineDirsDiffer(b, patchDir, files[i].path, files[j].path);
    }
  }

  /** `f`'s chain and directory are those of committing its file's content on `disk` onto `(hashes0, blobs0)`. */
  ghost predicate LandedOn(disk: Disk, f: TrackedFile, hashes0: seq<u64>, blobs0: map<u64, Bytes>)
    reads disk, f.timeline, f.timeline.store
  {
    && f.path in disk.files
    && Committed(f.timeline.backend, blobs0, hashes0, disk.files[f.path], f.timeline.store.blobs, f.timeline.hashes)
  }

  /**
   * No file of `blobs0` sits under the hash of the patch that commits `f`'s file onto an empty
   * chain, unless it holds that very patch.
   */
  ghost predicate NoStalePatch(disk: Disk, f: TrackedFile, blobs0: map<u64, Bytes>)
    reads disk, f.timeline
  {
    f.path in disk.files ==>
      var p := NextPatch(f.timeline.backend, blobs0, [], disk.files[f.path]);
      p.Ok? && Patches.Id(f.timeline.backend, p.value) in blobs0 ==>
        blobs0[Patches.Id(f.timeline.backend, p.value)] == p.value.data
  }

  /** `f`'s first version rebuilds its file's content on `disk`. */
  ghost predicate RebuildsFile(disk: Disk, f: TrackedFile)
    reads disk, f.timeline, f.timeline.store
  {
    && f.path in disk.files
    && Replay(f.timeline.backend, f.timeline.store.blobs, f.timeline.hashes, 1) == Ok(disk.files[f.path])
  }

  /** `f` has its chain and its patch directory as they were. */
  twostate predicate Untouched(f: TrackedFile)
    reads f.timeline, f.timeline.store
  {
    && f.timeline.hashes == old(f.timeline.hashes)
    && f.timeline.store.blobs == old(f.timeline.store.blobs)
  }

  /** Every file of `blobs0` is still in `f`'s patch directory, unchanged. */
  ghost predicate Holds(f: TrackedFile, blobs0: map<u64, Bytes>)
    reads f.timeline, f.timeline.store
  {
    forall h :: h in blobs0 ==> h in f.timeline.store.blobs && f.timeline.store.blobs[h] == blobs0[h]
  }

  /** The tracked paths of a sequence of children, as a set. */
  ghost function PathSet(files: seq<TrackedFile>): set<Path> {
    set j | 0 <= j < |files| :: files[j].path
  }

  /** `f`'s file on `disk` holds version `index` of `f`. */
  ghost predicate Restored(disk: Disk, f: TrackedFile, index: nat)
    reads disk, f, f.timeline, f.timeline.store
  {
    var v := Replay(f.timeline.backend, f.timeline.store.blobs, f.timeline.hashes, index + 1);
    v.Ok? && f.path in disk.files && disk.files[f.path] == v.value
  }

  /**
   * Each child's file in `contents` holds version `index` of the chain `cs[i]` over the
   * patch directory `ds[i]`.
   */
  ghost predicate HoldVersions(contents: map<Path, Bytes>, files: seq<TrackedFile>, cs: seq<seq<u64>>,
                               ds: seq<map<u64, Bytes>>, index: nat)
  {
    && |cs| == |ds| == |files|
    && forall i :: 0 <= i < |files| ==>
         var v := Replay(files[i].timeline.backend, ds[i], cs[i], index + 1);
         v.Ok? && files[i].path in contents && contents[files[i].path] == v.value
  }

  /** `f`'s chain was popped down to its first `index` entries (all of them, if it is shorter). */
  twostate predicate Truncated(f: TrackedFile, index: nat)
    reads f.timeline, f.timeline.store
  {
    var hs := old(f.timeline.hashes);
    var keep := if index < |hs| then index else |hs|;
    && f.timeline.hashes == hs[..keep]
    && f.timeline.store.blobs == old(f.timeline.store.blobs) - Dropped(hs, keep)
  }

  /**
   * `delete_version(index)` failed on `f`: it had no versions and is unchanged, or a pop
   * failed after the entries past the `k`-th were popped.
   */
  twostate predicate TruncationFailed(f: TrackedFile, index: nat)
    reads f.timeline, f.timeline.store
  {
    var hs := old(f.timeline.hashes);
    || (hs == [] && Untouched(f))
    || exists k :: index <= k < |hs| && f.timeline.hashes == hs[..k] &&
                   f.timeline.store.blobs == old(f.timeline.store.blobs) - Dropped(hs, k + 1)
  }

  /** Two maps that agree outside `s` agree outside any larger set. */
  lemma AgreeOutside<K, V>(m0: map<K, V>, m1: map<K, V>, s: set<K>, t: set<K>)
    requires m1 - s == m0 - s && s <= t
    ensures m1 - t == m0 - t
  {
    assert m1 - t == (m1 - s) - t;
    assert m0 - t == (m0 - s) - t;
  }

  /** `len().saturating_sub(1)`. */
  function LastIndex(n: nat): (i: nat)
    ensures n == 0 ==> i == 0
    ensures n > 0 ==> i + 1 == n
  {
    if n == 0 then 0 else n - 1
  }

  /**
   * Every file kept in a directory that only gained files replays as before: a chain whose
   * patch files are all still there, unchanged, rebuilds every version the same way.
   */
  lemma GrowingKeepsReplays(b: Backend, blobs0: map<u64, Bytes>, blobs1: map<u64, Bytes>, hs: seq<u64>, k: nat)
    requires k <= |hs|
    requires forall h :: h in hs[..k] ==> h in blobs0
    requires forall h :: h in blobs0 ==> h in blobs1 && blobs1[h] == blobs0[h]
    ensures Replay(b, blobs1, hs, k) == Replay(b, blobs0, hs, k)
  {
    forall h | h in hs[..k] && h in blobs0
      ensures h in blobs1 && blobs1[h] == blobs0[h]
    {
    }
    ReplayAgrees(b, blobs0, hs, blobs1, hs, k);
  }

  /**
   * Children that kept their chains `cs` while their patch directories only gained files
   * since `ds` are still restored to any version their files held over `(cs, ds)`.
   */
  lemma GrownKeepVersion(disk: Disk, files: seq<TrackedFile>, cs: seq<seq<u64>>, ds: seq<map<u64, Bytes>>, index: nat)
    requires HoldVersions(disk.files, files, cs, ds, index)
    requires forall i :: 0 <= i < |files| ==> files[i].timeline.hashes == cs[i] && Holds(files[i], ds[i])
    ensures forall i :: 0 <= i < |files| ==> Restored(disk, files[i], index)
  {
    forall i | 0 <= i < |files|
      ensures Restored(disk, files[i], index)
    {
      GrowingKeepsReplays(files[i].timeline.backend, ds[i], files[i].timeline.store.blobs, cs[i], index + 1);
    }
  }

  /**
   * What `split` leaves behind for the original: once the clone has cleared the directory it
   * shares and saved one patch `h`, an entry of the original chain naming any other patch
   * file can no longer be read.
   */
  lemma SharedClearOrphans(hs: seq<u64>, blobs: map<u64, Bytes>, h: u64, data: Bytes, i: nat)
    requires i < |hs| && hs[i] != h
    ensures Fetch(StoreOnce(blobs - Dropped(hs, 0), h, data), hs, i) == Err(IoError(NotFound))
  {
    DroppedEverything(hs);
  }

  /**
   * A first commit into a directory holding none of the files `hs` names leaves at most one
   * of them there: the one the commit itself stored.
   */
  lemma OnlyNewPatchSurvives(b: Backend, hs: seq<u64>, blobs0: map<u64, Bytes>, target: Bytes,
                             blobs1: map<u64, Bytes>, hashes1: seq<u64>)
    requires forall h :: h in hs ==> h !in blobs0
    requires Committed(b, blobs0, [], target, blobs1, hashes1)
    ensures |hashes1| == 1
    ensures forall h :: h in hs && h in blobs1 ==> h == hashes1[0]
  {
  }

  /**
   * The one version a first commit leaves rebuilds the committed content, provided the codec
   * round-trips and any file already stored under the new patch's hash holds that patch.
   */
  lemma FirstCommitRebuilds(disk: Disk, f: TrackedFile, blobs0: map<u64, Bytes>)
    requires RoundTrips(f.timeline.backend) && LandedOn(disk, f, [], blobs0) && NoStalePatch(disk, f, blobs0)
    ensures |f.timeline.hashes| == 1
    ensures RebuildsFile(disk, f)
  {
    CommitThenReplay(f.timeline.backend, blobs0, [], disk.files[f.path]);
  }

  /**
   * A two-version history stored under ids 1 and 2: after a clone sharing its directory is
   * cleared and saves its one patch under id 3, the original can no longer rebuild version 0.
   */
  lemma SplitLosesHistory(b: Backend)
    ensures var hs, blobs := [1, 2], map[1 := [0], 2 := [1]];
            Replay(b, StoreOnce(blobs - Dropped(hs, 0), 3, [2]), hs, 1) == Err(IoError(NotFound))
  {
    var hs: seq<u64>, blobs: map<u64, Bytes> := [1, 2], map[1 := [0], 2 := [1]];
    SharedClearOrphans(hs, blobs, 3, [2], 0);
  }

  /** `f`'s patch directory only gained files: every file it held is still there, unchanged. */
  twostate predicate Grew(f: TrackedFile)
    reads f.timeline, f.timeline.store
  {
    Holds(f, old(f.timeline.store.blobs))
  }

  class TrackedFolder {
    const path: Path
    const files: seq<TrackedFile>

    ghost function Repr(): set<object> {
      (set i | 0 <= i < |files| :: files[i] as object) +
      (set i | 0 <= i < |files| :: files[i].timeline as object) +
      (set i | 0 <= i < |files| :: files[i].timeline.store as object)
    }

    ghost predicate Valid()
      reads this, Repr()
    {
      && ChildrenDisjoint(files)
      && forall i :: 0 <= i < |files| ==> files[i].Valid()
    }

    constructor (path: Path, files: seq<TrackedFile>)
      ensures this.path == path && this.files == files
    {
      this.path := path;
      this.files := files;
    }

    /** `len`: the first child's version count, or 0 for a folder with no files. */
    function Len(): (n: nat)
      reads this, Repr()
      ensures |files| == 0 ==> n == 0
      ensures |files| > 0 ==> n == files[0].VersionCount()
    {
      if |files| == 0 then 0 else files[0].VersionCount()
    }

    /**
     * `TrackedFolder::new`: walks the entries in order, stops at the first walk error or the
     * first file that cannot be tracked, and tracks every regular file (directories and
     * symbolic links are skipped) with its patches under `patchDir`.
     */
    static method New(disk: Disk, path: Path, patchDir: Path, entries: seq<WalkEntry>, backend: Backend)
      returns (r: Result<TrackedFolder, FolderError>)
      requires disk.Valid() && HashesDistinct(backend, entries)
      modifies disk
      ensures disk.Valid() && disk.files == old(disk.files)
      ensures WalkFailure in entries ==> r.Err?
      ensures WalkFailure !in entries && r.Err? ==> r.error.FileError?
      ensures r.Ok? ==> fresh(r.value) && r.value.Valid() && r.value.path == path
      ensures r.Ok? ==> PathsOf(r.value.files) == FilePaths(entries)
      ensures r.Ok? ==> forall i :: 0 <= i < |r.value.files| ==> Tracks(disk, r.value.files[i], patchDir, backend)
    {
      var files: seq<TrackedFile> := [];
      for i := 0 to |entries|
        invariant disk.Valid() && disk.files == old(disk.files)
        invariant PathsOf(files) == FilePaths(entries[..i])
        invariant forall j :: 0 <= j < |files| ==> Tracks(disk, files[j], patchDir, backend)
        invariant WalkFailure !in entries[..i]
      {
        var next := VisitEntry(disk, files, entries, i, patchDir, backend);
        if next.Err? {
          return Err(next.error);
        }
        assert entries[..i + 1] == entries[..i] + [entries[i]];
        files := next.value;
      }
      assert entries[..|entries|] == entries;
      TrackedApart(disk, files, patchDir, backend);
      var folder := new TrackedFolder(path, files);
      return Ok(folder);
    }

    /**
     * The body of `new`'s loop: the `i`-th entry of the walk fails the call, is skipped, or
     * adds a child tracking it.
     */
    static method VisitEntry(disk: Disk, files: seq<TrackedFile>, entries: seq<WalkEntry>, i: nat, patchDir: Path, backend: Backend)
      returns (r: Result<seq<TrackedFile>, FolderError>)
      requires disk.Valid() && HashesDistinct(backend, entries) && i < |entries|
      requires PathsOf(files) == FilePaths(entries[..i])
      requires forall j :: 0 <= j < |files| ==> Tracks(disk, files[j], patchDir, backend)
      modifies disk
      ensures disk.Valid() && disk.files == old(disk.files)
      ensures entries[i].WalkFailure? <==> r == Err(WalkError)
      ensures r.Err? && !entries[i].WalkFailure? ==> r.error.FileError?
      ensures r.Ok? ==> PathsOf(r.value) == FilePaths(entries[..i + 1])
      ensures r.Ok? ==> forall j :: 0 <= j < |r.value| ==> Tracks(disk, r.value[j], patchDir, backend)
    {
      var entry := entries[i];
      FilePathsStep(entries, i);
      if entry.WalkFailure? {
        return Err(WalkError);
      }
      if entry.kind != RegularFile {
        return Ok(files);
      }
      NextHashDiffers(backend, entries, i);
      var made := TrackNext(disk, files, entry.path, patchDir, backend);
      if made.Err? {
        return Err(FileError(made.error));
      }
      return Ok(files + [made.value]);
    }

    /**
     * The body of `new`'s loop for a regular file: tracks `p`, whose patch directory differs
     * from those of the children already tracked, and leaves those children as they were.
     */
    static method TrackNext(disk: Disk, files: seq<TrackedFile>, p: Path, patchDir: Path, backend: Backend)
      returns (r: Result<TrackedFile, TrackedFileError>)
      requires disk.Valid()
      requires forall j :: 0 <= j < |files| ==> Tracks(disk, files[j], patchDir, backend)
      requires forall j :: 0 <= j < |files| ==> backend.hashPath(files[j].path) != backend.hashPath(p)
      modifies disk
      ensures disk.Valid() && disk.files == old(disk.files)
      ensures forall j :: 0 <= j < |files| ==> Tracks(disk, files[j], patchDir, backend)
      ensures r.Ok? ==> r.value.path == p && Tracks(disk, r.value, patchDir, backend)
    {
      r := TrackedFile.New(disk, p, patchDir, backend);
      if r.Ok? {
        forall j | 0 <= j < |files|
          ensures files[j].timeline.dir != TimelineDir(backend, patchDir, p)
        {
          TimelineDirsDiffer(backend, patchDir, files[j].path, p);
        }
      }
    }

    /** Each child's chain, in order. */
    ghost function Chains(): (cs: seq<seq<u64>>)
      reads this, Repr()
      ensures |cs| == |files| && forall j :: 0 <= j < |files| ==> cs[j] == files[j].timeline.hashes
    {
      seq(|files|, j requires 0 <= j < |files| reads this, Repr() => files[j].timeline.hashes)
    }

    /** The contents of each child's patch directory, in order. */
    ghost function Dirs(): (ds: seq<map<u64, Bytes>>)
      reads this, Repr()
      ensures |ds| == |files| && forall j :: 0 <= j < |files| ==> ds[j] == files[j].timeline.store.blobs
    {
      seq(|files|, j requires 0 <= j < |files| reads this, Repr() => files[j].timeline.store.blobs)
    }

    /** Children `0..k` were committed onto `(cs, ds)`, the rest still hold them, and no patch file was lost. */
    ghost predicate SavedUpTo(disk: Disk, k: nat, cs: seq<seq<u64>>, ds: seq<map<u64, Bytes>>)
      reads this, Repr(), disk
    {
      && k <= |files| == |cs| == |ds|
      && (forall j :: 0 <= j < k ==> LandedOn(disk, files[j], cs[j], ds[j]))
      && (forall j :: k <= j < |files| ==> files[j].timeline.hashes == cs[j] && files[j].timeline.store.blobs == ds[j])
      && (forall j :: 0 <= j < |files| ==> Holds(files[j], ds[j]))
    }

    /**
     * Saving from `(cs, ds)` failed at child `k`: the children before it were committed,
     * child `k` kept its chain and files, and the rest still hold `(cs, ds)`.
     */
    ghost predicate SaveFailedAt(disk: Disk, k: nat, cs: seq<seq<u64>>, ds: seq<map<u64, Bytes>>)
      reads this, Repr(), disk
    {
      && k < |files| == |cs| == |ds|
      && (forall j :: 0 <= j < k ==> LandedOn(disk, files[j], cs[j], ds[j]))
      && Kept(ds[k], cs[k], files[k].timeline.store.blobs, files[k].timeline.hashes)
      && (forall j :: k < j < |files| ==> files[j].timeline.hashes == cs[j] && files[j].timeline.store.blobs == ds[j])
      && (forall j :: 0 <= j < |files| ==> Holds(files[j], ds[j]))
    }

    /**
     * `save`: commits every child in order. On failure the children before the failing one
     * are committed, the failing one keeps its chain and files, and the rest are untouched.
     * No patch file is ever lost.
     */
    method Save(disk: Disk) returns (r: Result<(), PatchTimelineError>)
      requires Valid()
      modifies Repr()
      ensures Valid()
      ensures r.Ok? ==> SavedUpTo(disk, |files|, old(Chains()), old(Dirs()))
      ensures r.Err? ==> exists k :: SaveFailedAt(disk, k, old(Chains()), old(Dirs()))
      ensures forall j :: 0 <= j < |files| ==> Holds(files[j], old(Dirs())[j])
    {
      ghost var cs, ds := Chains(), Dirs();
      for i := 0 to |files|
        invariant Valid() && SavedUpTo(disk, i, cs, ds)
      {
        r := CommitChild(disk, i, cs, ds);
        if r.Err? {
          return;
        }
      }
      return Ok(());
    }

    /** The body of `save`'s loop: commits child `i`, which keeps the folder valid. */
    method CommitChild(disk: Disk, i: nat, ghost cs: seq<seq<u64>>, ghost ds: seq<map<u64, Bytes>>)
      returns (r: Result<(), PatchTimelineError>)
      requires Valid() && i < |files| && SavedUpTo(disk, i, cs, ds)
      modifies files[i].timeline, files[i].timeline.store
      ensures Valid()
      ensures r.Ok? ==> SavedUpTo(disk, i + 1, cs, ds)
      ensures r.Err? ==> SaveFailedAt(disk, i, cs, ds)
    {
      var f := files[i];
      r := f.Commit(disk);
      forall j | 0 <= j < |files| && j != i
        ensures files[j].timeline.hashes == old(files[j].timeline.hashes)
        ensures files[j].timeline.store.blobs == old(files[j].timeline.store.blobs)
      {
      }
      assert Holds(f, ds[i]) by {
        if r.Ok? {
          assert LandedOn(disk, f, cs[i], ds[i]);
        }
      }
    }

    /** `is_empty`: the folder has no versions, judged by its first child. */
    function IsEmpty(): (b: bool)
      reads this, Repr()
      ensures b <==> Len() == 0
      ensures |files| == 0 ==> b
    {
      Len() == 0
    }

    /** Children `0..k` hold version `index` of their files on `disk`. */
    ghost predicate RestoredBefore(disk: Disk, index: nat, k: nat)
      requires k <= |files|
      reads this, Repr(), disk
    {
      forall i :: 0 <= i < k ==> Restored(disk, files[i], index)
    }

    /**
     * The outcome of `load(index)`: on success every child's file holds its version `index`;
     * on failure at child `k`, the children before it are restored and, apart from the file
     * of child `k`, no other file has changed.
     */
    twostate predicate Loaded(disk: Disk, index: nat, new r: Result<(), PatchTimelineError>)
      reads this, Repr(), disk
    {
      && disk.dirs == old(disk.dirs)
      && (r.Ok? ==> RestoredBefore(disk, index, |files|) &&
                    disk.files - PathSet(files) == old(disk.files) - PathSet(files))
      && (r.Err? ==> exists k :: 0 <= k < |files| && RestoredBefore(disk, index, k) &&
                                 disk.files - PathSet(files[..k + 1]) == old(disk.files) - PathSet(files[..k + 1]))
    }

    /**
     * `load(index)` failed and nothing came after it: the chains and patch directories are
     * as they were, and the files are as `Loaded` leaves them after a failure.
     */
    twostate predicate LoadStopped(disk: Disk, index: nat)
      reads this, Repr(), disk
    {
      && UntouchedFrom(0)
      && disk.dirs == old(disk.dirs)
      && exists k :: 0 <= k < |files| && RestoredBefore(disk, index, k) &&
                     disk.files - PathSet(files[..k + 1]) == old(disk.files) - PathSet(files[..k + 1])
    }

    /**
     * `load(index)`: writes version `index` of every child over its file, in order, stopping
     * at the first failure. The chains are not touched, and they need not have their patch
     * files: a child whose file is gone fails with `NotFound`, as on the original after `split`.
     */
    method Load(disk: Disk, index: nat) returns (r: Result<(), PatchTimelineError>)
      requires ChildrenDisjoint(files) && disk.Valid()
      modifies disk
      ensures disk.Valid()
      ensures Loaded(disk, index, r)
    {
      for i := 0 to |files|
        invariant disk.Valid() && disk.dirs == old(disk.dirs)
        invariant RestoredBefore(disk, index, i)
        invariant disk.files - PathSet(files[..i]) == old(disk.files) - PathSet(files[..i])
      {
        ghost var before := disk.files;
        r := LoadChild(disk, i, index);
        AgreeOutside(old(disk.files), before, PathSet(files[..i]), PathSet(files[..i + 1]));
        if r.Err? {
          assert RestoredBefore(disk, index, i);
          return;
        }
      }
      assert files[..|files|] == files;
      return Ok(());
    }

    /** The body of `load`'s loop: loads child `i`, keeping the children before it restored. */
    method LoadChild(disk: Disk, i: nat, index: nat) returns (r: Result<(), PatchTimelineError>)
      requires ChildrenDisjoint(files) && disk.Valid() && i < |files|
      requires RestoredBefore(disk, index, i)
      modifies disk
      ensures disk.Valid() && disk.dirs == old(disk.dirs)
      ensures RestoredBefore(disk, index, i)
      ensures r.Ok? ==> RestoredBefore(disk, index, i + 1)
      ensures disk.files - PathSet(files[..i + 1]) == old(disk.files) - PathSet(files[..i + 1])
      ensures PathSet(files[..i]) <= PathSet(files[..i + 1])
    {
      assert PathSet(files[..i + 1]) == PathSet(files[..i]) + {files[i].path};
      r := files[i].LoadVersion(disk, index);
      AgreeOutside(old(disk.files), disk.files, {files[i].path}, PathSet(files[..i + 1]));
      forall j | 0 <= j < i
        ensures Restored(disk, files[j], index)
      {
        var q := files[j].path;
        assert q != files[i].path && q in old(disk.files);
        assert (disk.files - {files[i].path})[q] == (old(disk.files) - {files[i].path})[q];
      }
    }

    /** Children `k..` have their chains and patch directories as they were. */
    twostate predicate UntouchedFrom(k: nat)
      requires k <= |files|
      reads this, Repr()
    {
      forall i :: k <= i < |files| ==> Untouched(files[i])
    }

    /** Children `0..k` had their chains popped down to `index` entries. */
    twostate predicate TruncatedBefore(index: nat, k: nat)
      requires k <= |files|
      reads this, Repr()
    {
      forall i :: 0 <= i < k ==> Truncated(files[i], index)
    }

    /**
     * The outcome of `delete(index)`: on success every chain is popped down to `index`
     * entries; on failure at child `k`, the children before it are popped, child `k` is
     * partly popped or untouched, and the rest are untouched.
     */
    twostate predicate Deleted(index: nat, new r: Result<(), PatchTimelineError>)
      reads this, Repr()
    {
      && (r.Ok? ==> TruncatedBefore(index, |files|))
      && (r.Err? ==> exists k :: 0 <= k < |files| && TruncatedBefore(index, k) &&
                                 TruncationFailed(files[k], index) && UntouchedFrom(k + 1))
    }

    /** `delete(index)`: drops versions `index..` from every child, in order, stopping at the first failure. */
    method Delete(index: nat) returns (r: Result<(), PatchTimelineError>)
      requires Valid()
      modifies Repr()
      ensures Valid()
      ensures Deleted(index, r)
    {
      for i := 0 to |files|
        invariant Valid()
        invariant TruncatedBefore(index, i) && UntouchedFrom(i)
      {
        r := DeleteChild(i, index);
        if r.Err? {
          assert TruncatedBefore(index, i) && TruncationFailed(files[i], index) && UntouchedFrom(i + 1);
          return;
        }
      }
      return Ok(());
    }

    /** The body of `delete`'s loop: drops versions `index..` of child `i`. */
    method DeleteChild(i: nat, index: nat) returns (r: Result<(), PatchTimelineError>)
      requires Valid() && i < |files|
      modifies files[i].timeline, files[i].timeline.store
      ensures Valid()
      ensures r.Ok? ==> Truncated(files[i], index)
      ensures r.Err? ==> TruncationFailed(files[i], index)
      ensures forall j :: 0 <= j < |files| && j != i ==> Untouched(files[j])
    {
      r := files[i].DeleteVersion(index);
      forall j | 0 <= j < |files| && j != i
        ensures Untouched(files[j])
      {
      }
    }

    /** `load_last`: `load` of the newest version, or of version 0 when there are none. */
    method LoadLast(disk: Disk) returns (r: Result<(), PatchTimelineError>)
      requires ChildrenDisjoint(files) && disk.Valid()
      modifies disk
      ensures disk.Valid()
      ensures Loaded(disk, LastIndex(Len()), r)
    {
      r := Load(disk, LastIndex(Len()));
    }

    /** `reset`: the same as `load_last`, bringing every file back to its newest version. */
    method Reset(disk: Disk) returns (r: Result<(), PatchTimelineError>)
      requires ChildrenDisjoint(files) && disk.Valid()
      modifies disk
      ensures disk.Valid()
      ensures Loaded(disk, LastIndex(Len()), r)
    {
      r := LoadLast(disk);
    }

    /** `delete_last`: `delete` of the newest version, or of version 0 when there are none. */
    method DeleteLast() returns (r: Result<(), PatchTimelineError>)
      requires Valid()
      modifies Repr()
      ensures Valid()
      ensures Deleted(old(LastIndex(Len())), r)
    {
      r := Delete(LastIndex(Len()));
    }

    /** `clear`: `delete(0)`, emptying every chain. */
    method Clear() returns (r: Result<(), PatchTimelineError>)
      requires Valid()
      modifies Repr()
      ensures Valid()
      ensures Deleted(0, r)
      ensures r.Ok? ==> forall i :: 0 <= i < |files| ==> files[i].VersionCount() == 0
    {
      r := Delete(0);
    }

    /**
     * `Clone`: a second folder over the same paths whose children hold cloned chains, which
     * share their patch directories with this folder's.
     */
    method Clone() returns (c: TrackedFolder)
      requires Valid()
      ensures fresh(c) && c.path == path && |c.files| == |files|
      ensures forall i :: 0 <= i < |files| ==> fresh(c.files[i]) && fresh(c.files[i].timeline)
      ensures forall i :: 0 <= i < |files| ==>
                c.files[i].path == files[i].path && c.files[i].timeline.store == files[i].timeline.store &&
                c.files[i].timeline.backend == files[i].timeline.backend &&
                c.files[i].timeline.hashes == files[i].timeline.hashes
      ensures c.Valid()
      ensures forall o :: o in c.Repr() ==> o in Repr() || fresh(o)
      ensures forall i :: 0 <= i < |files| ==> files[i].timeline !in c.Repr()
    {
      var copies: seq<TrackedFile> := [];
      for i := 0 to |files|
        invariant |copies| == i
        invariant forall j :: 0 <= j < i ==> fresh(copies[j]) && fresh(copies[j].timeline)
        invariant forall j :: 0 <= j < i ==>
                    copies[j].path == files[j].path && copies[j].timeline.store == files[j].timeline.store &&
                    copies[j].timeline.backend == files[j].timeline.backend &&
                    copies[j].timeline.hashes == files[j].timeline.hashes
      {
        var copy := files[i].Clone();
        copies := copies + [copy];
      }
      c := new TrackedFolder(path, copies);
    }

    /**
     * `split(index)` as written: loads version `index`, clones the folder, clears the clone
     * and saves it. A failed load stops the split before anything else changes; after a load,
     * every file holds its version `index`, and the clone's one version is the commit of that
     * file, which it rebuilds (`FirstCommitRebuilds`). The clone's chains share their patch
     * directories with this folder's, so clearing the clone deletes the patch files this
     * folder's chains still name: afterwards the only file of the original history that can
     * remain is the one the clone just saved.
     */
    method Split(disk: Disk, index: nat) returns (r: Result<TrackedFolder, PatchTimelineError>)
      requires Valid() && disk.Valid()
      modifies disk, Repr()
      ensures disk.Valid()
      ensures forall i :: 0 <= i < |files| ==> files[i].timeline.hashes == old(files[i].timeline.hashes)
      ensures r.Ok? ==> HoldVersions(disk.files, files, old(Chains()), old(Dirs()), index)
      ensures r.Err? ==> LoadStopped(disk, index) || HoldVersions(disk.files, files, old(Chains()), old(Dirs()), index)
      ensures r.Ok? ==> fresh(r.value) && r.value.Valid() && |r.value.files| == |files|
      ensures r.Ok? ==> forall i :: 0 <= i < |files| ==>
                && r.value.files[i].path == files[i].path
                && r.value.files[i].timeline.store == files[i].timeline.store
                && LandedOn(disk, r.value.files[i], [],
                            old(files[i].timeline.store.blobs) - Dropped(old(files[i].timeline.hashes), 0))
                && r.value.files[i].VersionCount() == 1
                && forall h :: h in files[i].timeline.hashes && h in files[i].timeline.store.blobs ==>
                     h == r.value.files[i].timeline.hashes[0]
      ensures r.Ok? ==> forall i :: 0 <= i < |files| ==>
                RoundTrips(r.value.files[i].timeline.backend) &&
                NoStalePatch(disk, r.value.files[i],
                             old(files[i].timeline.store.blobs) - Dropped(old(files[i].timeline.hashes), 0)) ==>
                  RebuildsFile(disk, r.value.files[i])
    {
      var loaded := SplitLoad(disk, index);
      if loaded.Err? {
        return Err(loaded.error);
      }
      assert disk !in Repr();
      var other, saved := SavedClearedClone(disk);
      if saved.Err? {
        return Err(saved.error);
      }
      forall i | 0 <= i < |files| && RoundTrips(other.files[i].timeline.backend) &&
                 NoStalePatch(disk, other.files[i],
                              old(files[i].timeline.store.blobs) - Dropped(old(files[i].timeline.hashes), 0))
        ensures RebuildsFile(disk, other.files[i])
      {
        FirstCommitRebuilds(disk, other.files[i],
                            old(files[i].timeline.store.blobs) - Dropped(old(files[i].timeline.hashes), 0));
      }
      return Ok(other);
    }

    /** The first step of `split`: `load(index)`, its outcome stated against the chains as they stood. */
    method SplitLoad(disk: Disk, index: nat) returns (r: Result<(), PatchTimelineError>)
      requires Valid() && disk.Valid()
      modifies disk
      ensures disk.Valid()
      ensures r.Ok? ==> HoldVersions(disk.files, files, old(Chains()), old(Dirs()), index)
      ensures r.Err? ==> LoadStopped(disk, index)
    {
      r := Load(disk, index);
    }

    /**
     * The rest of `split` as written: a clone sharing this folder's patch directories is
     * cleared and saves one version, and of the files this folder's chain names at most the
     * one that version stored is left.
     */
    method SavedClearedClone(disk: Disk) returns (c: TrackedFolder, r: Result<(), PatchTimelineError>)
      requires Valid()
      modifies Repr()
      ensures fresh(c) && c.Valid() && |c.files| == |files|
      ensures forall i :: 0 <= i < |files| ==> files[i].timeline.hashes == old(files[i].timeline.hashes)
      ensures r.Ok? ==> forall i :: 0 <= i < |files| ==>
                && c.files[i].path == files[i].path
                && c.files[i].timeline.store == files[i].timeline.store
                && LandedOn(disk, c.files[i], [],
                            old(files[i].timeline.store.blobs) - Dropped(old(files[i].timeline.hashes), 0))
                && c.files[i].VersionCount() == 1
                && forall h :: h in files[i].timeline.hashes && h in files[i].timeline.store.blobs ==>
                     h == c.files[i].timeline.hashes[0]
    {
      c, r := ClearedClone();
      if r.Err? {
        return;
      }
      label Cleared:
      r := c.Save(disk);
      if r.Err? {
        return;
      }
      forall i | 0 <= i < |files|
        ensures LandedOn(disk, c.files[i], [],
                         old(files[i].timeline.store.blobs) - Dropped(old(files[i].timeline.hashes), 0))
        ensures c.files[i].VersionCount() == 1
        ensures forall h :: h in files[i].timeline.hashes && h in files[i].timeline.store.blobs ==>
                  h == c.files[i].timeline.hashes[0]
      {
        var t := c.files[i].timeline;
        assert LandedOn(disk, c.files[i], old@Cleared(c.Chains())[i], old@Cleared(c.Dirs())[i]);
        DroppedEverything(files[i].timeline.hashes);
        OnlyNewPatchSurvives(t.backend, files[i].timeline.hashes, old@Cleared(t.store.blobs), disk.files[files[i].path],
                             t.store.blobs, t.hashes);
      }
    }

    /**
     * The middle of `split`: clones this folder and clears the clone. The clone's chains
     * share this folder's patch directories, so on success each directory has lost every
     * file this folder's chain names, while the chain itself still names them.
     */
    method ClearedClone() returns (c: TrackedFolder, r: Result<(), PatchTimelineError>)
      requires Valid()
      modifies Repr()
      ensures fresh(c) && c.path == path && |c.files| == |files| && c.Valid()
      ensures forall o :: o in c.Repr() ==> o in Repr() || fresh(o)
      ensures forall i :: 0 <= i < |files| ==> files[i].timeline !in c.Repr()
      ensures forall i :: 0 <= i < |files| ==>
                && files[i].timeline.hashes == old(files[i].timeline.hashes)
                && c.files[i].path == files[i].path
                && c.files[i].timeline.store == files[i].timeline.store
      ensures r.Ok? ==> forall i :: 0 <= i < |files| ==>
                && c.files[i].timeline.hashes == []
                && files[i].timeline.store.blobs ==
                   old(files[i].timeline.store.blobs) - Dropped(old(files[i].timeline.hashes), 0)
    {
      c := Clone();
      label Cloned:
      r := c.Clear();
      if r.Ok? {
        forall i | 0 <= i < |files|
          ensures c.files[i].timeline.hashes == []
          ensures files[i].timeline.store.blobs ==
                  old(files[i].timeline.store.blobs) - Dropped(old(files[i].timeline.hashes), 0)
        {
          assert Truncated@Cloned(c.files[i], 0);
        }
      }
    }

    /**
     * A clone whose children start empty chains over this folder's patch directories,
     * without deleting anything from them.
     */
    method CloneEmpty() returns (c: TrackedFolder)
      requires Valid()
      ensures fresh(c) && c.path == path && |c.files| == |files| && c.Valid()
      ensures forall i :: 0 <= i < |files| ==> fresh(c.files[i]) && fresh(c.files[i].timeline)
      ensures forall i :: 0 <= i < |files| ==>
                c.files[i].path == files[i].path && c.files[i].timeline.store == files[i].timeline.store &&
                c.files[i].timeline.backend == files[i].timeline.backend &&
                c.files[i].timeline.dir == files[i].timeline.dir && c.files[i].VersionCount() == 0
      ensures forall o :: o in c.Repr() ==> o in Repr() || fresh(o)
      ensures forall i :: 0 <= i < |files| ==> files[i].timeline !in c.Repr()
    {
      var copies: seq<TrackedFile> := [];
      for i := 0 to |files|
        invariant |copies| == i
        invariant forall j :: 0 <= j < i ==> fresh(copies[j]) && fresh(copies[j].timeline)
        invariant forall j :: 0 <= j < i ==>
                    copies[j].path == files[j].path && copies[j].timeline.store == files[j].timeline.store &&
                    copies[j].timeline.backend == files[j].timeline.backend &&
                    copies[j].timeline.dir == files[j].timeline.dir && copies[j].timeline.hashes == []
      {
        var t := new PatchTimeline(files[i].timeline.dir, files[i].timeline.store, files[i].timeline.backend, []);
        var copy := new TrackedFile(files[i].path, t);
        copies := copies + [copy];
      }
      c := new TrackedFolder(path, copies);
    }

    /**
     * `split(index)` with the clone's history forgotten rather than deleted: the clone starts
     * empty chains over the shared directories and saves one version. This folder stays
     * valid and keeps its chains, and its patch directories only gain files, so every one of
     * its versions rebuilds as before (`GrowingKeepsReplays`): in particular each file still
     * holds the version `index` that this folder rebuilds.
     */
    method SplitKeepingHistory(disk: Disk, index: nat) returns (r: Result<TrackedFolder, PatchTimelineError>)
      requires Valid() && disk.Valid()
      modifies disk, Repr()
      ensures disk.Valid() && Valid()
      ensures forall i :: 0 <= i < |files| ==> files[i].timeline.hashes == old(files[i].timeline.hashes) && Grew(files[i])
      ensures r.Ok? ==> HoldVersions(disk.files, files, old(Chains()), old(Dirs()), index) && RestoredBefore(disk, index, |files|)
      ensures r.Err? ==> LoadStopped(disk, index) || (HoldVersions(disk.files, files, old(Chains()), old(Dirs()), index) && RestoredBefore(disk, index, |files|))
      ensures r.Ok? ==> fresh(r.value) && r.value.Valid() && |r.value.files| == |files|
      ensures r.Ok? ==> forall i :: 0 <= i < |files| ==>
                r.value.files[i].path == files[i].path &&
                r.value.files[i].timeline.store == files[i].timeline.store &&
                LandedOn(disk, r.value.files[i], [], old(files[i].timeline.store.blobs)) &&
                r.value.files[i].VersionCount() == 1
      ensures r.Ok? ==> forall i :: 0 <= i < |files| ==>
                RoundTrips(r.value.files[i].timeline.backend) &&
                NoStalePatch(disk, r.value.files[i], old(files[i].timeline.store.blobs)) ==>
                  RebuildsFile(disk, r.value.files[i])
    {
      var loaded := SplitLoad(disk, index);
      if loaded.Err? {
        return Err(loaded.error);
      }
      assert disk !in Repr();
      var other, saved := SavedEmptyClone(disk);
      GrownKeepVersion(disk, files, old(Chains()), old(Dirs()), index);
      if saved.Err? {
        return Err(saved.error);
      }
      forall i | 0 <= i < |files| && RoundTrips(other.files[i].timeline.backend) &&
                 NoStalePatch(disk, other.files[i], old(files[i].timeline.store.blobs))
        ensures RebuildsFile(disk, other.files[i])
      {
        FirstCommitRebuilds(disk, other.files[i], old(files[i].timeline.store.blobs));
      }
      return Ok(other);
    }

    /**
     * The rest of `split` when the history is kept: a clone with empty chains over this
     * folder's patch directories saves one version. This folder stays valid, keeps its
     * chains, and its directories only gain files.
     */
    method SavedEmptyClone(disk: Disk) returns (c: TrackedFolder, r: Result<(), PatchTimelineError>)
      requires Valid()
      modifies Repr()
      ensures Valid() && fresh(c) && c.Valid() && |c.files| == |files|
      ensures forall i :: 0 <= i < |files| ==> files[i].timeline.hashes == old(files[i].timeline.hashes) && Grew(files[i])
      ensures forall i :: 0 <= i < |files| ==>
                c.files[i].path == files[i].path && c.files[i].timeline.store == files[i].timeline.store
      ensures r.Ok? ==> forall i :: 0 <= i < |files| ==>
                LandedOn(disk, c.files[i], [], old(files[i].timeline.store.blobs)) && c.files[i].VersionCount() == 1
    {
      c := CloneEmpty();
      label Cloned:
      r := c.Save(disk);
      forall i | 0 <= i < |files|
        ensures files[i].timeline.hashes == old(files[i].timeline.hashes) && Grew(files[i])
      {
        assert Holds(c.files[i], old@Cloned(c.Dirs())[i]);
      }
      forall i | 0 <= i < |files|
        ensures files[i].Valid()
      {
        assert old(files[i].Valid());
      }
      assert ChildrenDisjoint(files);
      if r.Ok? {
        forall i | 0 <= i < |files|
          ensures LandedOn(disk, c.files[i], [], old(files[i].timeline.store.blobs))
          ensures c.files[i].VersionCount() == 1
        {
          assert LandedOn(disk, c.files[i], old@Cloned(c.Chains())[i], old@Cloned(c.Dirs())[i]);
        }
      }
    }
  }
}
