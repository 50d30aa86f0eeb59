/**
 * The first-generation tracked folder (src/tracked_folder.rs): one first-generation
 * `TrackedFile` per non-directory entry of a walk of the folder, all keeping their patches
 * in one shared patch directory. `save` and `load` run the file operation on each child in
 * turn and stop at the first error.
 */
module FolderTracking {
  import opened Wrappers
  import opened Primitives
  import opened FileSystem
  import opened ByteTracking
  import opened FileTracking
  import TrackedFolders

  type WalkEntry = TrackedFolders.WalkEntry

  /** The paths of the walk entries that are not directories (files and links), in walk order. */
  function NonDirPaths(entries: seq<WalkEntry>): (ps: seq<Path>)
    ensures |ps| <= |entries|
    ensures forall p :: p in ps <==>
              exists j :: 0 <= j < |entries| && entries[j].Entry? && !entries[j].kind.Directory? && entries[j].path == p
  {
    if entries == [] then []
    else
      var last := entries[|entries| - 1];
      NonDirPaths(entries[..|entries| - 1]) + (if last.Entry? && !last.kind.Directory? then [last.path] else [])
  }

  /** One more entry of the walk adds its path unless it is a directory. */
  lemma NonDirPathsStep(entries: seq<WalkEntry>, i: nat)
    requires i < |entries|
    ensures NonDirPaths(entries[..i + 1]) ==
              NonDirPaths(entries[..i]) + (if entries[i].Entry? && !entries[i].kind.Directory? then [entries[i].path] else [])
  {
    assert entries[..i + 1][..i] == entries[..i];
  }

  /** The tracked paths of a sequence of children, in order. */
  function PathsOf(files: seq<TrackedFile>): (ps: seq<Path>)
    ensures |ps| == |files| && forall j :: 0 <= j < |files| ==> ps[j] == files[j].path
  {
    seq(|files|, j requires 0 <= j < |files| => files[j].path)
  }

  /** The patch directories of a sequence of children, in order. */
  function PatchDirsOf(files: seq<TrackedFile>): (ps: seq<Path>)
    ensures |ps| == |files| && forall j :: 0 <= j < |files| ==> ps[j] == files[j].bytes.patchDir
  {
    seq(|files|, j requires 0 <= j < |files| => files[j].bytes.patchDir)
  }

  /** The tracked paths of a sequence of children, as a set. */
  ghost function PathSet(files: seq<TrackedFile>): set<Path> {
    set j | 0 <= j < |files| :: files[j].path
  }

  /** Every child is new, with an empty history over `patchDir` hashed with `b`. */
  twostate predicate FreshChildren(new files: seq<TrackedFile>, b: Backend)
    reads set j | 0 <= j < |files| :: files[j].bytes
  {
    forall j :: 0 <= j < |files| ==> fresh(files[j].bytes) && files[j].bytes.ids == [] && files[j].bytes.backend == b
  }

  /** `f`'s file on `disk` holds version `index` of `f`. */
  ghost predicate Restored(disk: Disk, f: TrackedFile, index: nat)
    requires index < |f.bytes.ids|
    reads disk, f, f.bytes, DirObjects(disk, f.bytes.patchDir)
  {
    var v := f.Version(disk, index);
    v.Ok? && f.path in disk.files && disk.files[f.path] == v.value
  }

  class TrackedFolder {
    const path: Path
    const files: seq<TrackedFile>

    /** The children's histories, which `save` updates. */
    ghost function Histories(): set<TrackedBytes> {
      set i | 0 <= i < |files| :: files[i].bytes
    }

    /** No two children share a history. */
    ghost predicate Valid() {
      forall i, j :: 0 <= i < j < |files| ==> files[i].bytes != files[j].bytes
    }

    /** No two children track the same path. */
    predicate PathsDistinct() {
      forall i, j :: 0 <= i < j < |files| ==> files[i].path != files[j].path
    }

    constructor (path: Path, files: seq<TrackedFile>)
      ensures this.path == path && this.files == files
    {
      this.path := path;
      this.files := files;
    }

    /**
     * `TrackedFolder::new`, with the arguments of `TrackedFile::new` in the order it declares
     * them: every non-directory entry of the walk becomes a child tracking that entry, with
     * its patches in `patchDir`. A walk error makes the whole call fail.
     */
    static method New(path: Path, patchDir: Path, entries: seq<WalkEntry>, backend: Backend)
      returns (r: Result<TrackedFolder, IoError>)
      ensures r.Err? <==> TrackedFolders.WalkFailure in entries
      ensures r.Ok? ==> fresh(r.value) && r.value.Valid() && r.value.path == path && FreshChildren(r.value.files, backend)
      ensures r.Ok? ==> PathsOf(r.value.files) == NonDirPaths(entries)
      ensures r.Ok? ==> forall i :: 0 <= i < |r.value.files| ==> r.value.files[i].bytes.patchDir == patchDir
    {
      var files: seq<TrackedFile> := [];
      for i := 0 to |entries|
        invariant TrackedFolders.WalkFailure !in entries[..i]
        invariant PathsOf(files) == NonDirPaths(entries[..i])
        invariant forall j :: 0 <= j < |files| ==> files[j].bytes.patchDir == patchDir
        invariant FreshChildren(files, backend)
        invariant forall j, k :: 0 <= j < k < |files| ==> files[j].bytes != files[k].bytes
      {
        var next := VisitEntry(files, entries, i, patchDir, backend);
        if next.Err? {
          return Err(next.error);
        }
        assert entries[..i + 1] == entries[..i] + [entries[i]];
        files := next.value;
      }
      assert entries[..|entries|] == entries;
      var folder := new TrackedFolder(path, files);
      return Ok(folder);
    }

    /** The body of `new`'s loop: the `i`-th entry fails the walk, is skipped, or adds a child. */
    static method VisitEntry(files: seq<TrackedFile>, entries: seq<WalkEntry>, i: nat, patchDir: Path, backend: Backend)
      returns (r: Result<seq<TrackedFile>, IoError>)
      requires i < |entries| && PathsOf(files) == NonDirPaths(entries[..i])
      requires forall j :: 0 <= j < |files| ==> files[j].bytes.patchDir == patchDir
      requires forall j, k :: 0 <= j < k < |files| ==> files[j].bytes != files[k].bytes
      ensures entries[i].WalkFailure? <==> r.Err?
      ensures r.Err? ==> r.error == Refused
      ensures r.Ok? ==> PathsOf(r.value) == NonDirPaths(entries[..i + 1])
      ensures r.Ok? ==> forall j :: 0 <= j < |r.value| ==> r.value[j].bytes.patchDir == patchDir
      ensures r.Ok? ==> forall j, k :: 0 <= j < k < |r.value| ==> r.value[j].bytes != r.value[k].bytes
      ensures r.Ok? ==> |files| <= |r.value| && r.value[..|files|] == files && FreshChildren(r.value[|files|..], backend)
    {
      NonDirPathsStep(entries, i);
      if entries[i].WalkFailure? {
        return Err(Refused);
      }
      if entries[i].kind.Directory? {
        return Ok(files);
      }
      var child := new TrackedFile(patchDir, entries[i].path, backend);
      return Ok(files + [child]);
    }

    /**
     * `TrackedFolder::new` as written: it passes the entry's path where `TrackedFile::new`
     * expects the patch directory and the patch directory where it expects the tracked path.
     * Every child therefore tracks the patch directory itself, and keeps its patches in a
     * "directory" named after the entry.
     */
    static method NewAsWritten(path: Path, patchDir: Path, entries: seq<WalkEntry>, backend: Backend)
      returns (r: Result<TrackedFolder, IoError>)
      ensures r.Err? <==> TrackedFolders.WalkFailure in entries
      ensures r.Ok? ==> fresh(r.value) && r.value.Valid() && r.value.path == path && FreshChildren(r.value.files, backend)
      ensures r.Ok? ==> PatchDirsOf(r.value.files) == NonDirPaths(entries)
      ensures r.Ok? ==> forall i :: 0 <= i < |r.value.files| ==> r.value.files[i].path == patchDir
    {
      var files: seq<TrackedFile> := [];
      for i := 0 to |entries|
        invariant TrackedFolders.WalkFailure !in entries[..i]
        invariant PatchDirsOf(files) == NonDirPaths(entries[..i])
        invariant forall j :: 0 <= j < |files| ==> files[j].path == patchDir
        invariant FreshChildren(files, backend)
        invariant forall j, k :: 0 <= j < k < |files| ==> files[j].bytes != files[k].bytes
      {
        var next := VisitEntryAsWritten(files, entries, i, patchDir, backend);
        if next.Err? {
          return Err(next.error);
        }
        assert entries[..i + 1] == entries[..i] + [entries[i]];
        files := next.value;
      }
      assert entries[..|entries|] == entries;
      var folder := new TrackedFolder(path, files);
      return Ok(folder);
    }

    /** The body of `new`'s loop as written, with the arguments of `TrackedFile::new` swapped. */
    static method VisitEntryAsWritten(files: seq<TrackedFile>, entries: seq<WalkEntry>, i: nat, patchDir: Path, backend: Backend)
      returns (r: Result<seq<TrackedFile>, IoError>)
      requires i < |entries| && PatchDirsOf(files) == NonDirPaths(entries[..i])
      requires forall j :: 0 <= j < |files| ==> files[j].path == patchDir
      requires forall j, k :: 0 <= j < k < |files| ==> files[j].bytes != files[k].bytes
      ensures entries[i].WalkFailure? <==> r.Err?
      ensures r.Err? ==> r.error == Refused
      ensures r.Ok? ==> PatchDirsOf(r.value) == NonDirPaths(entries[..i + 1])
      ensures r.Ok? ==> forall j :: 0 <= j < |r.value| ==> r.value[j].path == patchDir
      ensures r.Ok? ==> forall j, k :: 0 <= j < k < |r.value| ==> r.value[j].bytes != r.value[k].bytes
      ensures r.Ok? ==> |files| <= |r.value| && r.value[..|files|] == files && FreshChildren(r.value[|files|..], backend)
    {
      NonDirPathsStep(entries, i);
      if entries[i].WalkFailure? {
        return Err(Refused);
      }
      if entries[i].kind.Directory? {
        return Ok(files);
      }
      var child := new TrackedFile(entries[i].path, patchDir, backend);
      return Ok(files + [child]);
    }

    /** `len`: the number of tracked files. */
    function Len(): (n: nat)
      ensures n == |files|
    {
      |files|
    }

    /** `is_empty`: no file is tracked. */
    function IsEmpty(): (b: bool)
      ensures b <==> Len() == 0
    {
      |files| == 0
    }

    /** Each child's list of patches, in order. */
    ghost function Lists(): (ls: seq<seq<u64>>)
      reads Histories()
      ensures |ls| == |files| && forall j :: 0 <= j < |files| ==> ls[j] == files[j].bytes.ids
    {
      seq(|files|, j requires 0 <= j < |files| reads Histories() => files[j].bytes.ids)
    }

    /** Starting from the lists `ls`, children `0..k` gained one patch each and the rest none. */
    ghost predicate GrewBefore(k: nat, ls: seq<seq<u64>>)
      reads Histories()
    {
      && k <= |files| == |ls|
      && (forall j :: 0 <= j < k ==> |files[j].bytes.ids| == |ls[j]| + 1 && files[j].bytes.ids[..|ls[j]|] == ls[j])
      && (forall j :: k <= j < |files| ==> files[j].bytes.ids == ls[j])
    }

    /**
     * `save`: saves every child in order. On failure at child `k` the children before it
     * have one more version each and the others none; a first child whose path is a
     * directory fails the whole call before anything is written.
     */
    method Save(disk: Disk) returns (r: Result<(), IoError>)
      requires Valid()
      modifies Histories(), disk.dirs.Values
      ensures r.Ok? ==> GrewBefore(|files|, old(Lists()))
      ensures r.Err? ==> exists k :: 0 <= k < |files| && GrewBefore(k, old(Lists()))
      ensures |files| > 0 && files[0].path in disk.dirs ==> r == Err(IsADirectory) && Lists() == old(Lists())
    {
      ghost var ls := Lists();
      for i := 0 to |files|
        invariant GrewBefore(i, ls)
        invariant i > 0 ==> files[0].path !in disk.dirs
      {
        r := SaveChild(disk, i, ls);
        if r.Err? {
          assert 0 <= i < |files| && GrewBefore(i, ls);
          return;
        }
      }
      return Ok(());
    }

    /** The body of `save`'s loop: saves child `i`, leaving the other children as they were. */
    method SaveChild(disk: Disk, i: nat, ghost ls: seq<seq<u64>>) returns (r: Result<(), IoError>)
      requires Valid() && i < |files| && GrewBefore(i, ls)
      modifies files[i].bytes, disk.dirs.Values
      ensures r.Ok? ==> GrewBefore(i + 1, ls)
      ensures r.Err? ==> GrewBefore(i, ls)
      ensures files[i].path in disk.dirs ==> r == Err(IsADirectory)
    {
      var f := files[i];
      assert DirObjects(disk, f.bytes.patchDir) <= disk.dirs.Values;
      r := f.Save(disk);
      forall j | 0 <= j < |files| && j != i
        ensures files[j].bytes.ids == old(files[j].bytes.ids)
      {
      }
    }

    /** Children `0..k` hold version `index` of their files on `disk`. */
    ghost predicate RestoredBefore(disk: Disk, index: nat, k: nat)
      requires k <= |files|
      reads files, Histories(), disk, disk.dirs.Values
    {
      forall j :: 0 <= j < k ==> index < |files[j].bytes.ids| && Restored(disk, files[j], index)
    }

    /**
     * `load(index)` stopped at child `k`, starting from the files `before`: the children
     * before it are restored when paths are distinct, and no file other than theirs and
     * child `k`'s changed.
     */
    ghost predicate StoppedAt(disk: Disk, index: nat, k: nat, before: map<Path, Bytes>)
      reads files, Histories(), disk, disk.dirs.Values
    {
      && k < |files|
      && (PathsDistinct() ==> RestoredBefore(disk, index, k))
      && disk.files - PathSet(files[..k + 1]) == before - PathSet(files[..k + 1])
    }

    /**
     * `load(index)`: writes version `index` of every child over its file, in order, stopping
     * at the first failure; a child with fewer versions is a panic, so every child must have
     * one. Only the tracked files change; when the children track different paths, success
     * means every one holds its version `index`.
     */
    method Load(disk: Disk, index: nat) returns (r: Result<(), IoError>)
      requires disk.Valid() && forall j :: 0 <= j < |files| ==> index < |files[j].bytes.ids|
      modifies disk
      ensures disk.Valid() && disk.dirs == old(disk.dirs)
      ensures r.Ok? ==> disk.files - PathSet(files) == old(disk.files) - PathSet(files)
      ensures r.Ok? && PathsDistinct() ==> RestoredBefore(disk, index, |files|)
      ensures r.Err? ==> exists k :: StoppedAt(disk, index, k, old(disk.files))
    {
      for i := 0 to |files|
        invariant disk.Valid() && disk.dirs == old(disk.dirs)
        invariant PathsDistinct() ==> RestoredBefore(disk, index, i)
        invariant disk.files - PathSet(files[..i]) == old(disk.files) - PathSet(files[..i])
      {
        ghost var before := disk.files;
        r := LoadChild(disk, i, index);
        TrackedFolders.AgreeOutside(old(disk.files), before, PathSet(files[..i]), PathSet(files[..i + 1]));
        if r.Err? {
          assert disk.files - PathSet(files[..i + 1]) == old(disk.files) - PathSet(files[..i + 1]);
          assert 0 <= i < |files| && (PathsDistinct() ==> RestoredBefore(disk, index, i));
          assert StoppedAt(disk, index, i, old(disk.files));
          return;
        }
      }
      assert files[..|files|] == files;
      return Ok(());
    }

    /** The body of `load`'s loop: loads child `i`, keeping the children before it restored. */
    method LoadChild(disk: Disk, i: nat, index: nat) returns (r: Result<(), IoError>)
      requires disk.Valid() && i < |files| && forall j :: 0 <= j < |files| ==> index < |files[j].bytes.ids|
      requires PathsDistinct() ==> RestoredBefore(disk, index, i)
      modifies disk
      ensures disk.Valid() && disk.dirs == old(disk.dirs)
      ensures PathsDistinct() ==> RestoredBefore(disk, index, i)
      ensures r.Ok? && PathsDistinct() ==> RestoredBefore(disk, index, i + 1)
      ensures disk.files - PathSet(files[..i + 1]) == old(disk.files) - PathSet(files[..i + 1])
      ensures PathSet(files[..i]) <= PathSet(files[..i + 1])
    {
      assert PathSet(files[..i + 1]) == PathSet(files[..i]) + {files[i].path};
      r := files[i].Load(disk, index);
      TrackedFolders.AgreeOutside(old(disk.files), disk.files, {files[i].path}, PathSet(files[..i + 1]));
      if PathsDistinct() {
        forall j | 0 <= j < i
          ensures Restored(disk, files[j], index)
        {
          var q := files[j].path;
          assert q != files[i].path && q in old(disk.files);
          assert (disk.files - {files[i].path})[q] == (old(disk.files) - {files[i].path})[q];
        }
      }
    }
  }

  /**
   * With the arguments as written, saving a folder with at least one file fails as soon as
   * the patch directory exists: the first child reads the patch directory as its file.
   */
  method SaveAsWrittenFails(disk: Disk, path: Path, patchDir: Path, entries: seq<WalkEntry>, backend: Backend)
    returns (r: Result<(), IoError>)
    requires patchDir in disk.dirs
    requires TrackedFolders.WalkFailure !in entries && |NonDirPaths(entries)| > 0
    modifies disk.dirs.Values
    ensures r == Err(IsADirectory)
  {
    var made := TrackedFolder.NewAsWritten(path, patchDir, entries, backend);
    var folder := made.value;
    r := folder.Save(disk);
  }

  /**
   * With the arguments in declared order, every child tracks a walked file (never the
   * patch directory, unless the walk itself lists it) and keeps its patches in `patchDir`.
   */
  method NewTracksWalkedFiles(path: Path, patchDir: Path, entries: seq<WalkEntry>, backend: Backend)
    returns (r: Result<TrackedFolder, IoError>)
    requires TrackedFolders.WalkFailure !in entries
    requires patchDir !in NonDirPaths(entries)
    ensures r.Ok? && forall i :: 0 <= i < |r.value.files| ==> r.value.files[i].path != patchDir
  {
    r := TrackedFolder.New(path, patchDir, entries, backend);
  }
}
