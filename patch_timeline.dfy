/**
 * The deduplicating patch chain (src/patches/patch_timeline.rs).
 *
 * A timeline is the ordered list of the hashes of its patches plus a directory holding one
 * file per distinct hash. Equal patches share a file, and a file is deleted only when the
 * last entry referring to it is popped.
 */
module PatchTimelines {
  import opened Wrappers
  import opened Primitives
  import opened FileSystem
  import opened Patches

  datatype PatchTimelineError = IoError(io: IoError) | IndexOutOfRange(index: nat) | NoVersionsAvailable

  /**
   * `get` over a snapshot of the directory: the patch stored under the `idx`-th hash.
   * Opening a file that is not there fails with `NotFound`.
   */
  function Fetch(blobs: map<u64, Bytes>, hashes: seq<u64>, idx: nat): (r: Result<Patch, PatchTimelineError>)
    ensures idx >= |hashes| <==> r == Err(IndexOutOfRange(idx))
    ensures r.Ok? <==> idx < |hashes| && hashes[idx] in blobs
    ensures r.Ok? ==> r.value.data == blobs[hashes[idx]]
    ensures r.Err? && idx < |hashes| ==> r == Err(IoError(NotFound))
  {
    if idx >= |hashes| then Err(IndexOutOfRange(idx))
    else if hashes[idx] in blobs then Ok(FromData(blobs[hashes[idx]]))
    else Err(IoError(NotFound))
  }

  class PatchTimeline {
    const dir: Path
    const store: BlobDir
    const backend: Backend
    var hashes: seq<u64>

    /** Every entry of the chain has its patch file. */
    ghost predicate Valid()
      reads this, store
    {
      forall h :: h in hashes ==> h in store.blobs
    }

    constructor (dir: Path, store: BlobDir, backend: Backend, hashes: seq<u64>)
      ensures this.dir == dir && this.store == store && this.backend == backend
      ensures this.hashes == hashes
    {
      this.dir := dir;
      this.store := store;
      this.backend := backend;
      this.hashes := hashes;
    }

    /**
     * `PatchTimeline::new`: creates the directory (and its parents) if needed and starts an
     * empty chain over it. An existing directory is reused with whatever files it holds.
     */
    static method New(disk: Disk, dir: Path, backend: Backend) returns (r: Result<PatchTimeline, PatchTimelineError>)
      requires disk.Valid()
      modifies disk
      ensures disk.Valid() && disk.files == old(disk.files)
      ensures dir in old(disk.files) ==> r == Err(IoError(AlreadyAFile))
      ensures r.Err? ==> disk.dirs == old(disk.dirs)
      ensures r.Ok? ==> fresh(r.value) && r.value.Valid() && r.value.Len() == 0
      ensures r.Ok? ==> r.value.dir == dir && r.value.backend == backend
      ensures r.Ok? ==> disk.dirs == old(disk.dirs)[dir := r.value.store]
      ensures r.Ok? && dir !in old(disk.dirs) ==> fresh(r.value.store) && r.value.store.blobs == map[]
    {
      var made := disk.CreateDirAll(dir);
      if made.Err? {
        return Err(IoError(made.error));
      }
      var t := new PatchTimeline(dir, made.value, backend, []);
      return Ok(t);
    }

    /** `Clone`: a second chain with the same entries over the same directory. */
    method Clone() returns (c: PatchTimeline)
      ensures fresh(c)
      ensures c.dir == dir && c.store == store && c.backend == backend && c.hashes == hashes
    {
      c := new PatchTimeline(dir, store, backend, hashes);
    }

    /** `len`: the number of entries, one per pushed patch, counting repeats. */
    function Len(): (n: nat)
      reads this
      ensures n == |hashes|
    {
      |hashes|
    }

    function IsEmpty(): (b: bool)
      reads this
      ensures b <==> Len() == 0
    {
      |hashes| == 0
    }

    /** `get`: fails with `IndexOutOfRange(idx)` past the end, else reads the `idx`-th patch. */
    function Get(idx: nat): (r: Result<Patch, PatchTimelineError>)
      reads this, store
      ensures idx >= Len() <==> r == Err(IndexOutOfRange(idx))
      ensures Valid() && idx < Len() ==> r == Ok(FromData(store.blobs[hashes[idx]]))
    {
      Fetch(store.blobs, hashes, idx)
    }

    /**
     * `push`: appends the patch's hash. The patch file is written only when none exists
     * for that hash yet; a failed write leaves the chain as it was.
     */
    method Push(p: Patch) returns (r: Result<(), PatchTimelineError>)
      requires Valid()
      modifies this, store
      ensures Valid()
      ensures var h := Id(backend, p);
        r.Ok? ==> hashes == old(hashes) + [h] &&
                  store.blobs == (if h in old(store.blobs) then old(store.blobs) else old(store.blobs)[h := p.data])
      ensures var h := Id(backend, p);
        r.Err? ==> r.error.IoError? && hashes == old(hashes) && h !in old(store.blobs) &&
                   store.blobs - {h} == old(store.blobs) - {h}
    {
      var h := Id(backend, p);
      if h !in store.blobs {
        var written := store.Create(h, p.data);
        if written.Err? {
          assert forall k :: k in hashes ==> k in old(store.blobs) - {h};
          return Err(IoError(written.error));
        }
      }
      hashes := hashes + [h];
      return Ok(());
    }

    /**
     * `pop`: removes the last hash, then deletes its patch file unless an earlier entry
     * still refers to it. On an empty chain it fails and changes nothing; when the deletion
     * fails the hash is already gone from the chain.
     */
    method Pop() returns (r: Result<(), PatchTimelineError>)
      requires Valid()
      modifies this, store
      ensures Valid()
      ensures old(hashes) == [] ==> r == Err(NoVersionsAvailable) && hashes == [] && store.blobs == old(store.blobs)
      ensures old(hashes) != [] ==> hashes == old(hashes)[..|old(hashes)| - 1]
      ensures old(hashes) != [] && r.Ok? ==>
                var h := old(hashes)[|old(hashes)| - 1];
                store.blobs == (if h in hashes then old(store.blobs) else old(store.blobs) - {h})
      ensures old(hashes) != [] && r.Err? ==> r.error.IoError? && store.blobs == old(store.blobs)
    {
      if hashes == [] {
        return Err(NoVersionsAvailable);
      }
      var h := hashes[|hashes| - 1];
      hashes := hashes[..|hashes| - 1];
      if h !in hashes {
        var removed := store.Remove(h);
        if removed.Err? {
          return Err(IoError(removed.error));
        }
      }
      return Ok(());
    }
  }

  /**
   * On a timeline over a fresh directory, pushing the same patch twice gives two entries
   * sharing one file, and `get(0)` then hands back the patch. `hashes` and `blobs` are the
   * chain and the directory after the two pushes.
   */
  method PushTwiceThenGet(disk: Disk, dir: Path, backend: Backend, p: Patch)
    returns (r: Result<Patch, PatchTimelineError>, hashes: seq<u64>, blobs: map<u64, Bytes>)
    requires disk.Valid() && !disk.Exists(dir)
    modifies disk
    ensures r.Ok? ==> r.value == p
    ensures r.Ok? ==> hashes == [Id(backend, p), Id(backend, p)] && blobs == map[Id(backend, p) := p.data]
  {
    hashes, blobs := [], map[];
    var t :- PatchTimeline.New(disk, dir, backend);
    var _ :- t.Push(p);
    // The file is there already, so the second push writes nothing and cannot fail.
    var again := t.Push(p);
    assert again.Ok?;
    hashes, blobs := t.hashes, t.store.blobs;
    r := t.Get(0);
  }
}
