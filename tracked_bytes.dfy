/**
 * The first-generation byte history (src/tracked_bytes.rs).
 *
 * A `TrackedBytes` is a patch directory plus the list of the patch files that rebuild its
 * versions: version `i` is what applying the first `i + 1` patches, in order, to the empty
 * buffer gives. Each patch file is named after the id of the patch it holds, so the model
 * keeps the ids and looks the files up in the directory's `BlobDir` (see `FileSystem`).
 * The directory is looked up on the disk at every call: `new` does not create it.
 */
module ByteTracking {
  import opened Wrappers
  import opened Primitives
  import opened FileSystem
  import opened Patches

  /** The objects behind the directory `dir`, if there is one. */
  function DirObjects(disk: Disk, dir: Path): set<BlobDir>
    reads disk
  {
    if dir in disk.dirs then {disk.dirs[dir]} else {}
  }

  /** The patch files in `dir`; a missing directory holds none. */
  function StoredIn(disk: Disk, dir: Path): map<u64, Bytes>
    reads disk, DirObjects(disk, dir)
  {
    if dir in disk.dirs then disk.dirs[dir].blobs else map[]
  }

  /**
   * `apply_patch`: opens the patch file with this id (`NotFound` when it is missing) and
   * applies the patch to `source`.
   */
  function ApplyPatch(b: Backend, blobs: map<u64, Bytes>, source: Bytes, id: u64): (r: Result<Bytes, IoError>)
    ensures id !in blobs ==> r == Err(NotFound)
    ensures r.Ok? ==> id in blobs && b.patch(blobs[id], source) == Some(r.value)
    ensures id in blobs && b.patch(blobs[id], source).Some? ==> r.Ok?
  {
    if id !in blobs then Err(NotFound) else Apply(b, FromData(blobs[id]), source)
  }

  /**
   * What `load_patches` computes: the patches applied in order to the empty buffer, stopping
   * at the first patch that is missing or does not apply.
   */
  function Replayed(b: Backend, blobs: map<u64, Bytes>, ids: seq<u64>): (r: Result<Bytes, IoError>)
    ensures ids == [] ==> r == Ok([])
    ensures r.Ok? ==> forall id :: id in ids ==> id in blobs
    decreases |ids|
  {
    if ids == [] then Ok([])
    else
      var source :- Replayed(b, blobs, ids[..|ids| - 1]);
      ApplyPatch(b, blobs, source, ids[|ids| - 1])
  }

  /** Once a prefix of the patches fails to replay, the whole list fails with the same error. */
  lemma {:induction false} ReplayedFailureSticks(b: Backend, blobs: map<u64, Bytes>, ids: seq<u64>, k: nat)
    requires k <= |ids| && Replayed(b, blobs, ids[..k]).Err?
    ensures Replayed(b, blobs, ids) == Replayed(b, blobs, ids[..k])
    decreases |ids| - k
  {
    if k < |ids| {
      assert ids[..|ids| - 1][..k] == ids[..k];
      ReplayedFailureSticks(b, blobs, ids[..|ids| - 1], k);
    } else {
      assert ids[..k] == ids;
    }
  }

  /** The replay only looks at the files the listed patches name. */
  lemma {:induction false} ReplayedReadsOnlyItsPatches(b: Backend, blobs0: map<u64, Bytes>, blobs1: map<u64, Bytes>, ids: seq<u64>)
    requires forall id :: id in ids && id in blobs0 ==> id in blobs1 && blobs1[id] == blobs0[id]
    requires forall id :: id in ids && id in blobs1 ==> id in blobs0
    ensures Replayed(b, blobs1, ids) == Replayed(b, blobs0, ids)
    decreases |ids|
  {
    if ids != [] {
      ReplayedReadsOnlyItsPatches(b, blobs0, blobs1, ids[..|ids| - 1]);
    }
  }

  /** What `save(target)` leaves behind when it succeeds: one more patch, leading to `target`. */
  ghost predicate Saved(b: Backend, blobs0: map<u64, Bytes>, ids0: seq<u64>, target: Bytes,
                        blobs1: map<u64, Bytes>, ids1: seq<u64>)
  {
    var source := Replayed(b, blobs0, ids0);
    && source.Ok?
    && var p := New(b, source.value, target);
    && p.Ok?
    && ids1 == ids0 + [Id(b, p.value)]
    && blobs1 == blobs0[Id(b, p.value) := p.value.data]
  }

  /**
   * What a failed `save(target)` leaves behind: the same list, and at most the file the new
   * patch was being written to changed.
   */
  ghost predicate SaveFailed(b: Backend, blobs0: map<u64, Bytes>, ids0: seq<u64>, target: Bytes,
                             blobs1: map<u64, Bytes>, ids1: seq<u64>)
  {
    var source := Replayed(b, blobs0, ids0);
    && ids1 == ids0
    && if source.Ok? && New(b, source.value, target).Ok? then
         var id := Id(b, New(b, source.value, target).value);
         blobs1 - {id} == blobs0 - {id} && (id in blobs0 ==> id in blobs1)
       else
         blobs1 == blobs0
  }

  /**
   * After a successful save the new last version is `target`, and every earlier version
   * replays as before, provided the new patch's file did not replace a different file.
   */
  lemma SavedThenReplayed(b: Backend, blobs0: map<u64, Bytes>, ids0: seq<u64>, target: Bytes,
                          blobs1: map<u64, Bytes>, ids1: seq<u64>, k: nat)
    requires RoundTrips(b)
    requires Saved(b, blobs0, ids0, target, blobs1, ids1)
    requires var id := ids1[|ids1| - 1]; id in blobs0 ==> blobs0[id] == blobs1[id]
    requires k <= |ids0|
    ensures Replayed(b, blobs1, ids1) == Ok(target)
    ensures Replayed(b, blobs1, ids1[..k]) == Replayed(b, blobs0, ids0[..k])
  {
    var source := Replayed(b, blobs0, ids0).value;
    var p := New(b, source, target).value;
    var id := Id(b, p);
    NewThenApply(b, source, target);
    assert ids1[..|ids1| - 1] == ids0 && ids1[..k] == ids0[..k];
    ReplayedReadsOnlyItsPatches(b, blobs0, blobs1, ids0);
    ReplayedReadsOnlyItsPatches(b, blobs0, blobs1, ids0[..k]);
  }

  /** The patches saving `first` then `second` into an empty history produces hash apart unless they are equal. */
  ghost predicate PatchesApart(b: Backend, first: Bytes, second: Bytes) {
    forall p, q :: b.diff([], first) == Some(p) && b.diff(first, second) == Some(q) && b.hashBytes(p) == b.hashBytes(q) ==> p == q
  }

  /**
   * Two successful saves into an empty patch directory: the first version replays to the
   * first content saved and the second to the second.
   */
  lemma TwoSavesReplay(b: Backend, first: Bytes, second: Bytes,
                       blobs1: map<u64, Bytes>, ids1: seq<u64>, blobs2: map<u64, Bytes>, ids2: seq<u64>)
    requires RoundTrips(b) && PatchesApart(b, first, second)
    requires Saved(b, map[], [], first, blobs1, ids1)
    requires Saved(b, blobs1, ids1, second, blobs2, ids2)
    ensures |ids2| == 2
    ensures Replayed(b, blobs2, ids2[..1]) == Ok(first)
    ensures Replayed(b, blobs2, ids2[..2]) == Ok(second)
  {
    SavedThenReplayed(b, map[], [], first, blobs1, ids1, 0);
    SavedThenReplayed(b, blobs1, ids1, second, blobs2, ids2, 1);
    assert ids2[..1] == ids1 && ids2[..2] == ids2;
  }

  /**
   * `load_patches`: folds `apply_patch` over the patch files in `dir`, starting from the
   * empty buffer.
   */
  method LoadPatches(disk: Disk, dir: Path, b: Backend, ids: seq<u64>) returns (r: Result<Bytes, IoError>)
    ensures r == Replayed(b, StoredIn(disk, dir), ids)
  {
    var blobs := StoredIn(disk, dir);
    var source: Bytes := [];
    for i := 0 to |ids|
      invariant Replayed(b, blobs, ids[..i]) == Ok(source)
    {
      assert ids[..i + 1][..i] == ids[..i];
      var next := ApplyPatch(b, blobs, source, ids[i]);
      if next.Err? {
        ReplayedFailureSticks(b, blobs, ids, i + 1);
        return Err(next.error);
      }
      source := next.value;
    }
    assert ids[..|ids|] == ids;
    return Ok(source);
  }

  class TrackedBytes {
    const patchDir: Path
    const backend: Backend
    var ids: seq<u64>

    /** `TrackedBytes::new`: an empty history over `patchDir`; nothing is created on disk. */
    constructor (patchDir: Path, backend: Backend)
      ensures this.patchDir == patchDir && this.backend == backend && ids == []
    {
      this.patchDir := patchDir;
      this.backend := backend;
      ids := [];
    }

    /** `load`: version `index` is the replay of the first `index + 1` patches. */
    method Load(disk: Disk, index: nat) returns (r: Result<Bytes, IoError>)
      requires index < |ids|
      ensures r == Replayed(backend, StoredIn(disk, patchDir), ids[..index + 1])
    {
      r := LoadPatches(disk, patchDir, backend, ids[..index + 1]);
    }

    /**
     * `save`: rebuilds the latest version, diffs it against `target`, writes the patch into
     * the patch directory (`NotFound` when there is none) and appends it to the list.
     */
    method Save(disk: Disk, target: Bytes) returns (r: Result<(), IoError>)
      modifies this, DirObjects(disk, patchDir)
      ensures patchDir !in disk.dirs ==> r.Err?
      ensures r.Ok? ==> Saved(backend, old(StoredIn(disk, patchDir)), old(ids), target, StoredIn(disk, patchDir), ids)
      ensures r.Err? ==> SaveFailed(backend, old(StoredIn(disk, patchDir)), old(ids), target, StoredIn(disk, patchDir), ids)
    {
      var source :- LoadPatches(disk, patchDir, backend, ids);
      r := SavePatch(disk, source, target);
    }

    /** `save_patch`: diff, write the patch file, then record it. */
    method SavePatch(disk: Disk, source: Bytes, target: Bytes) returns (r: Result<(), IoError>)
      requires Replayed(backend, StoredIn(disk, patchDir), ids) == Ok(source)
      modifies this, DirObjects(disk, patchDir)
      ensures patchDir !in disk.dirs ==> r.Err?
      ensures r.Ok? ==> Saved(backend, old(StoredIn(disk, patchDir)), old(ids), target, StoredIn(disk, patchDir), ids)
      ensures r.Err? ==> SaveFailed(backend, old(StoredIn(disk, patchDir)), old(ids), target, StoredIn(disk, patchDir), ids)
    {
      var patch :- New(backend, source, target);
      if patchDir !in disk.dirs {
        return Err(NotFound);
      }
      var written := disk.dirs[patchDir].Create(Id(backend, patch), patch.data);
      if written.Err? {
        return Err(written.error);
      }
      ids := ids + [Id(backend, patch)];
      return Ok(());
    }
  }

  /**
   * Saving `first` and then `second` into an empty patch directory, `load(0)` gives `first`
   * back and `load(1)` gives `second`, as long as the two patches do not hash alike.
   */
  method SaveTwiceThenLoad(disk: Disk, patchDir: Path, b: Backend, first: Bytes, second: Bytes)
    returns (r0: Result<Bytes, IoError>, r1: Result<Bytes, IoError>)
    requires RoundTrips(b) && PatchesApart(b, first, second)
    requires patchDir in disk.dirs && disk.dirs[patchDir].blobs == map[]
    modifies disk.dirs[patchDir]
    ensures r0.Ok? ==> r0.value == first
    ensures r1.Ok? ==> r1.value == second
  {
    r0, r1 := Err(Refused), Err(Refused);
    var tracked := new TrackedBytes(patchDir, b);
    var saved := tracked.Save(disk, first);
    if saved.Err? {
      return;
    }
    ghost var blobs1, ids1 := StoredIn(disk, patchDir), tracked.ids;
    saved := tracked.Save(disk, second);
    if saved.Err? {
      return;
    }
    TwoSavesReplay(b, first, second, blobs1, ids1, StoredIn(disk, patchDir), tracked.ids);
    r0 := tracked.Load(disk, 0);
    r1 := tracked.Load(disk, 1);
  }
}
