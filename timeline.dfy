/**
 * The older, path-based patch chain (src/timeline.rs).
 *
 * Each entry is the path `<patch_dir>/<id>.bz2` of the file holding a patch; the model keeps
 * the ids and derives the paths (`PatchPaths`), which name the same entries because the
 * path is an injective function of the id (`PatchPathInjective`). Unlike `PatchTimeline`,
 * `push` always (re)writes the file and `pop` on an empty chain succeeds.
 */
module Timelines {
  import opened Wrappers
  import opened Primitives
  import opened Chains
  import opened FileSystem
  import opened Patches

  datatype TimelineError = IoError(io: IoError) | IndexOutOfRange(index: nat)

  /** The file a patch with this id is stored in. */
  function PatchPath(dir: Path, id: u64): (p: Path)
    ensures var name := Decimal(id as nat) + ".bz2";
            |p| >= |dir| + |name| && p[..|dir|] == dir && p[|p| - |name|..] == name
  {
    Join(dir, Decimal(id as nat) + ".bz2")
  }

  /** Different ids are stored in different files. */
  lemma PatchPathInjective(dir: Path, a: u64, b: u64)
    requires PatchPath(dir, a) == PatchPath(dir, b)
    ensures a == b
  {
    JoinInjective(dir, Decimal(a as nat) + ".bz2", Decimal(b as nat) + ".bz2");
    var sa, sb := Decimal(a as nat) + ".bz2", Decimal(b as nat) + ".bz2";
    assert Decimal(a as nat) == sa[..|sa| - 4] == sb[..|sb| - 4] == Decimal(b as nat);
    DecimalInjective(a as nat, b as nat);
  }

  class Timeline {
    const patchDir: Path
    const store: BlobDir
    const backend: Backend
    var ids: seq<u64>

    /** Every entry of the chain has its patch file. */
    ghost predicate Valid()
      reads this, store
    {
      forall id :: id in ids ==> id in store.blobs
    }

    constructor (patchDir: Path, store: BlobDir, backend: Backend)
      ensures this.patchDir == patchDir && this.store == store && this.backend == backend
      ensures ids == []
    {
      this.patchDir := patchDir;
      this.store := store;
      this.backend := backend;
      ids := [];
    }

    /** `Timeline::patch_paths`: the stored paths, in chain order. */
    function PatchPaths(): (ps: seq<Path>)
      reads this
      ensures |ps| == |ids|
      ensures forall i :: 0 <= i < |ids| ==> ps[i] == PatchPath(patchDir, ids[i])
    {
      seq(|ids|, i requires 0 <= i < |ids| reads this => PatchPath(patchDir, ids[i]))
    }

    /** A patch's path is among the stored paths exactly when its id is among the ids. */
    lemma ContainsPathIffContainsId(id: u64)
      ensures PatchPath(patchDir, id) in PatchPaths() <==> id in ids
    {
      var ps := PatchPaths();
      if PatchPath(patchDir, id) in ps {
        var i :| 0 <= i < |ps| && ps[i] == PatchPath(patchDir, id);
        PatchPathInjective(patchDir, ids[i], id);
      }
      if id in ids {
        var i :| 0 <= i < |ids| && ids[i] == id;
        assert ps[i] == PatchPath(patchDir, id);
      }
    }

    /** `Timeline::new`: creates the directory if needed and starts an empty chain over it. */
    static method New(disk: Disk, patchDir: Path, backend: Backend) returns (r: Result<Timeline, TimelineError>)
      requires disk.Valid()
      modifies disk
      ensures disk.Valid() && disk.files == old(disk.files)
      ensures patchDir in old(disk.files) ==> r == Err(IoError(AlreadyAFile))
      ensures r.Err? ==> disk.dirs == old(disk.dirs)
      ensures r.Ok? ==> fresh(r.value) && r.value.Valid() && r.value.Len() == 0 && r.value.IsEmpty()
      ensures r.Ok? ==> r.value.patchDir == patchDir && r.value.backend == backend
      ensures r.Ok? ==> disk.dirs == old(disk.dirs)[patchDir := r.value.store]
      ensures r.Ok? && patchDir !in old(disk.dirs) ==> fresh(r.value.store) && r.value.store.blobs == map[]
    {
      var made := disk.CreateDirAll(patchDir);
      if made.Err? {
        return Err(IoError(made.error));
      }
      var t := new Timeline(patchDir, made.value, backend);
      return Ok(t);
    }

    /** `len`: the number of stored patch paths. */
    function Len(): (n: nat)
      reads this
      ensures n == |PatchPaths()|
    {
      |ids|
    }

    function IsEmpty(): (b: bool)
      reads this
      ensures b <==> Len() == 0
    {
      |ids| == 0
    }

    /** `get`: `None` past the end, otherwise the outcome of reading the `index`-th file. */
    function Get(index: nat): (r: Option<Result<Patch, TimelineError>>)
      reads this, store
      ensures r.None? <==> index >= Len()
      ensures Valid() && r.Some? ==> r.value == Ok(FromData(store.blobs[ids[index]]))
    {
      if index >= |ids| then None
      else if ids[index] in store.blobs then Some(Ok(FromData(store.blobs[ids[index]])))
      else Some(Err(IoError(NotFound)))
    }

    /**
     * `push`: writes the patch to the file named after its id, replacing whatever was there,
     * then appends the entry. If the write fails the chain is unchanged, though an existing
     * file of that name may have been truncated.
     */
    method Push(p: Patch) returns (r: Result<(), TimelineError>)
      requires Valid()
      modifies this, store
      ensures Valid()
      ensures r.Ok? ==> ids == old(ids) + [Id(backend, p)] && store.blobs == old(store.blobs)[Id(backend, p) := p.data]
      ensures r.Err? ==> r.error.IoError? && ids == old(ids) &&
                         store.blobs - {Id(backend, p)} == old(store.blobs) - {Id(backend, p)}
    {
      var id := Id(backend, p);
      var written := store.Create(id, p.data);
      if written.Err? {
        assert forall k :: k in ids && k != id ==> k in old(store.blobs) - {id};
        return Err(IoError(written.error));
      }
      ids := ids + [id];
      return Ok(());
    }

    /**
     * `pop`: removes the last entry and deletes its file unless another entry names the same
     * file. On an empty chain it succeeds and changes nothing.
     */
    method Pop() returns (r: Result<(), TimelineError>)
      requires Valid()
      modifies this, store
      ensures Valid()
      ensures old(ids) == [] ==> r.Ok? && ids == [] && store.blobs == old(store.blobs)
      ensures old(ids) != [] ==> ids == old(ids)[..|old(ids)| - 1]
      ensures old(ids) != [] && r.Ok? ==>
                var id := old(ids)[|old(ids)| - 1];
                store.blobs == (if id in ids then old(store.blobs) else old(store.blobs) - {id})
      ensures r.Err? ==> r.error.IoError? && store.blobs == old(store.blobs)
    {
      if ids != [] {
        var id := ids[|ids| - 1];
        ids := ids[..|ids| - 1];
        if id !in ids {
          var removed := store.Remove(id);
          if removed.Err? {
            return Err(IoError(removed.error));
          }
        }
      }
      return Ok(());
    }

    /**
     * `trunicate`: keeps the first `index` entries, popping the rest one by one from the end;
     * an index past the end is refused. When a pop fails, the entries popped before it stay
     * popped.
     */
    method Trunicate(index: nat) returns (r: Result<(), TimelineError>)
      requires Valid()
      modifies this, store
      ensures Valid()
      ensures index > old(Len()) ==> r == Err(IndexOutOfRange(index)) && ids == old(ids) && store.blobs == old(store.blobs)
      ensures r.Ok? ==> index <= old(Len()) && ids == old(ids)[..index] &&
                        store.blobs == old(store.blobs) - Dropped(old(ids), index)
      ensures r.Err? && index <= old(Len()) ==>
                r.error.IoError? &&
                exists k :: index <= k < old(Len()) && ids == old(ids)[..k] &&
                            store.blobs == old(store.blobs) - Dropped(old(ids), k + 1)
    {
      if index > |ids| {
        return Err(IndexOutOfRange(index));
      }
      ghost var hs, blobs0 := ids, store.blobs;
      var n := |ids|;
      DroppedNothing(hs);
      for i := index to n
        invariant Valid()
        invariant |ids| == n - (i - index) && ids == hs[..|ids|]
        invariant store.blobs == blobs0 - Dropped(hs, |ids|)
      {
        ghost var k := |ids| - 1;
        var popped := Pop();
        DroppedStep(hs, k);
        assert ids == hs[..k];
        if popped.Err? {
          assert index <= k < n && store.blobs == blobs0 - Dropped(hs, k + 1);
          return popped;
        }
      }
      assert ids == hs[..index];
      return Ok(());
    }
  }

  /**
   * On a chain over a new directory, pushing a patch and calling `get(0)` reads it back, and
   * `trunicate(0)` then empties the chain.
   */
  method PushGetTrunicate(disk: Disk, patchDir: Path, backend: Backend, p: Patch)
    returns (got: Option<Result<Patch, TimelineError>>, after: Result<nat, TimelineError>)
    requires disk.Valid() && !disk.Exists(patchDir)
    modifies disk
    ensures got.Some? ==> got.value == Ok(p)
    ensures after.Ok? ==> after.value == 0
  {
    got, after := None, Err(IndexOutOfRange(0));
    var made := Timeline.New(disk, patchDir, backend);
    if made.Err? {
      return;
    }
    var t := made.value;
    var pushed := t.Push(p);
    if pushed.Err? {
      return;
    }
    got := t.Get(0);
    var emptied := t.Trunicate(0);
    after := if emptied.Ok? then Ok(t.Len()) else Err(emptied.error);
  }
}
