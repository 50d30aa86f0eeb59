/**
 * The first-generation tracked file (src/tracked_file.rs): a path on disk plus the
 * `TrackedBytes` history of its content. Saving snapshots what the file holds now; loading
 * overwrites the file with an earlier version.
 */
module FileTracking {
  import opened Wrappers
  import opened Primitives
  import opened FileSystem
  import opened ByteTracking

  class TrackedFile {
    const path: Path
    const bytes: TrackedBytes

    /** `TrackedFile::new(patch_dir, path)`: an empty history for the file at `path`. */
    constructor (patchDir: Path, path: Path, backend: Backend)
      ensures this.path == path && fresh(bytes)
      ensures bytes.patchDir == patchDir && bytes.backend == backend && bytes.ids == []
    {
      this.path := path;
      bytes := new TrackedBytes(patchDir, backend);
    }

    /** The version `index` of the file, as the history rebuilds it from the disk. */
    function Version(disk: Disk, index: nat): (r: Result<Bytes, IoError>)
      requires index < |bytes.ids|
      reads this, bytes, disk, DirObjects(disk, bytes.patchDir)
      ensures r.Ok? ==> forall i :: 0 <= i <= index ==> bytes.ids[i] in StoredIn(disk, bytes.patchDir)
    {
      Replayed(bytes.backend, StoredIn(disk, bytes.patchDir), bytes.ids[..index + 1])
    }

    /**
     * `load`: rebuilds version `index` and writes it over the file. Nothing is written when
     * the version cannot be rebuilt; a failed write leaves only this file changed.
     */
    method Load(disk: Disk, index: nat) returns (r: Result<(), IoError>)
      requires disk.Valid() && index < |bytes.ids|
      modifies disk
      ensures disk.Valid() && disk.dirs == old(disk.dirs)
      ensures r.Ok? ==> old(Version(disk, index)).Ok? && disk.files == old(disk.files)[path := old(Version(disk, index)).value]
      ensures old(Version(disk, index)).Err? ==> r == old(Version(disk, index)).PropagateFailure() && disk.files == old(disk.files)
      ensures r.Err? ==> disk.files - {path} == old(disk.files) - {path}
    {
      var target :- bytes.Load(disk, index);
      r := disk.Write(path, target);
    }

    /** `save`: reads the file and records its content as the next version. */
    method Save(disk: Disk) returns (r: Result<(), IoError>)
      modifies bytes, DirObjects(disk, bytes.patchDir)
      ensures path in disk.dirs ==> r == Err(IsADirectory)
      ensures !disk.Exists(path) ==> r == Err(NotFound)
      ensures r.Ok? ==> path in disk.files &&
                        Saved(bytes.backend, old(StoredIn(disk, bytes.patchDir)), old(bytes.ids), disk.files[path],
                              StoredIn(disk, bytes.patchDir), bytes.ids)
      ensures r.Err? ==> bytes.ids == old(bytes.ids)
      ensures r.Err? && path in disk.files ==>
                SaveFailed(bytes.backend, old(StoredIn(disk, bytes.patchDir)), old(bytes.ids), disk.files[path],
                           StoredIn(disk, bytes.patchDir), bytes.ids)
    {
      var target :- disk.Read(path);
      r := bytes.Save(disk, target);
    }
  }

  /** `fs::write` of `content` to the tracked file, then `save`. */
  method WriteThenSave(disk: Disk, f: TrackedFile, content: Bytes) returns (r: Result<(), IoError>)
    requires disk.Valid() && f.path !in disk.dirs
    modifies disk, f.bytes, DirObjects(disk, f.bytes.patchDir)
    ensures disk.Valid() && disk.dirs == old(disk.dirs)
    ensures r.Ok? ==> Saved(f.bytes.backend, old(StoredIn(disk, f.bytes.patchDir)), old(f.bytes.ids), content,
                            StoredIn(disk, f.bytes.patchDir), f.bytes.ids)
  {
    r := disk.Write(f.path, content);
    if r.Ok? {
      r := f.Save(disk);
    }
  }

  /** `load(index)`, then `fs::read` of the tracked file. */
  method LoadThenRead(disk: Disk, f: TrackedFile, index: nat) returns (r: Result<Bytes, IoError>)
    requires disk.Valid() && index < |f.bytes.ids|
    modifies disk
    ensures disk.Valid() && disk.dirs == old(disk.dirs)
    ensures r.Ok? ==> old(f.Version(disk, index)) == Ok(r.value)
  {
    var loaded := f.Load(disk, index);
    if loaded.Err? {
      return Err(loaded.error);
    }
    r := disk.Read(f.path);
  }

  /**
   * Writing "1" to the file and saving, then writing "2" and saving, `load(0)` puts "1" back
   * in the file and `load(1)` puts "2" back, as long as the two patches do not hash alike.
   */
  method SaveTwoVersionsThenLoad(disk: Disk, patchDir: Path, path: Path, b: Backend)
    returns (r0: Result<Bytes, IoError>, r1: Result<Bytes, IoError>)
    requires disk.Valid() && RoundTrips(b) && PatchesApart(b, [49], [50])
    requires patchDir in disk.dirs && disk.dirs[patchDir].blobs == map[] && path !in disk.dirs
    modifies disk, disk.dirs[patchDir]
    ensures r0.Ok? ==> r0.value == [49]
    ensures r1.Ok? ==> r1.value == [50]
  {
    r0, r1 := Err(Refused), Err(Refused);
    var tracked := new TrackedFile(patchDir, path, b);
    var saved := WriteThenSave(disk, tracked, [49]);
    if saved.Err? {
      return;
    }
    ghost var blobs1, ids1 := StoredIn(disk, patchDir), tracked.bytes.ids;
    saved := WriteThenSave(disk, tracked, [50]);
    if saved.Err? {
      return;
    }
    TwoSavesReplay(b, [49], [50], blobs1, ids1, StoredIn(disk, patchDir), tracked.bytes.ids);
    r0 := LoadThenRead(disk, tracked, 0);
    r1 := LoadThenRead(disk, tracked, 1);
  }
}
