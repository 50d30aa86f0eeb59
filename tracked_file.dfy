/**
 * A tracked file over a deduplicating patch chain (src/tracked/file.rs).
 *
 * Version `i` of the file is rebuilt by replaying the first `i + 1` patches of its chain,
 * in order, starting from the empty buffer; a commit appends the delta from the latest
 * version to the file's current content.
 */
module TrackedFiles {
  import opened Wrappers
  import opened Primitives
  import opened Chains
  import opened FileSystem
  import opened Patches
  import opened PatchTimelines

  datatype TrackedFileError = PatchTimelineError(error: PatchTimelineError) | FileDoesntExist

  /**
   * The left fold of patch application over entries `0..k` of a chain, starting from `[]`:
   * entry `i` is fetched with `get(i)` and applied to the result so far, and the first
   * failure is the outcome. Replaying past the end fails with `IndexOutOfRange` naming the
   * first missing position, the chain's length.
   */
  function Replay(b: Backend, blobs: map<u64, Bytes>, hashes: seq<u64>, k: nat): (r: Result<Bytes, PatchTimelineError>)
    ensures k > |hashes| ==> r.Err?
    ensures r.Err? && r.error.IndexOutOfRange? ==> k > |hashes| && r.error.index == |hashes|
    ensures r.Err? ==> !r.error.NoVersionsAvailable?
    ensures r.Ok? ==> forall i :: 0 <= i < k ==> hashes[i] in blobs
    decreases k
  {
    if k == 0 then Ok([])
    else
      match Replay(b, blobs, hashes, k - 1)
      case Err(e) => Err(e)
      case Ok(source) =>
        match Fetch(blobs, hashes, k - 1)
        case Err(e) => Err(e)
        case Ok(p) =>
          match Patches.Apply(b, p, source)
          case Err(e) => Err(IoError(e))
          case Ok(target) => Ok(target)
  }

  /** Once a replay fails, replaying further fails the same way. */
  lemma {:induction false} ReplayFailureSticks(b: Backend, blobs: map<u64, Bytes>, hashes: seq<u64>, k: nat, m: nat)
    requires k <= m && Replay(b, blobs, hashes, k).Err?
    ensures Replay(b, blobs, hashes, m) == Replay(b, blobs, hashes, k)
    decreases m
  {
    if k < m {
      ReplayFailureSticks(b, blobs, hashes, k, m - 1);
    }
  }

  /** A replay depends only on the entries it replays and on the files they name. */
  lemma {:induction false} ReplayAgrees(b: Backend, blobs1: map<u64, Bytes>, hs1: seq<u64>,
                                         blobs2: map<u64, Bytes>, hs2: seq<u64>, k: nat)
    requires k <= |hs1| && k <= |hs2| && hs1[..k] == hs2[..k]
    requires forall h :: h in hs1[..k] && h in blobs1 ==> h in blobs2 && blobs2[h] == blobs1[h]
    requires forall h :: h in hs1[..k] && h !in blobs1 ==> h !in blobs2
    ensures Replay(b, blobs1, hs1, k) == Replay(b, blobs2, hs2, k)
    decreases k
  {
    if k > 0 {
      assert hs1[..k - 1] == hs1[..k][..k - 1] && hs2[..k - 1] == hs2[..k][..k - 1];
      assert hs1[k - 1] == hs1[..k][k - 1] == hs2[k - 1];
      ReplayAgrees(b, blobs1, hs1, blobs2, hs2, k - 1);
    }
  }

  /** The content a commit diffs against: the latest version, or `[]` with no versions. */
  function Latest(b: Backend, blobs: map<u64, Bytes>, hashes: seq<u64>): (r: Result<Bytes, PatchTimelineError>)
    ensures hashes == [] ==> r == Ok([])
    ensures r.Err? ==> !r.error.IndexOutOfRange?
  {
    Replay(b, blobs, hashes, |hashes|)
  }

  /** The patch a commit of `target` appends: the delta from the latest version to `target`. */
  function NextPatch(b: Backend, blobs: map<u64, Bytes>, hashes: seq<u64>, target: Bytes): (r: Result<Patch, PatchTimelineError>)
    ensures r.Ok? ==> Latest(b, blobs, hashes).Ok? && New(b, Latest(b, blobs, hashes).value, target) == Ok(r.value)
  {
    var source :- Latest(b, blobs, hashes);
    New(b, source, target).MapErr(e => IoError(e))
  }

  /** The directory after a deduplicating push of `data` under `h`. */
  function StoreOnce(blobs: map<u64, Bytes>, h: u64, data: Bytes): (m: map<u64, Bytes>)
    ensures h in m && forall k :: k in blobs ==> k in m && m[k] == blobs[k]
    ensures m.Keys == blobs.Keys + {h}
  {
    if h in blobs then blobs else blobs[h := data]
  }

  /** `(blobs1, hashes1)` is the chain and directory after committing `target` onto `(blobs0, hashes0)`. */
  ghost predicate Committed(b: Backend, blobs0: map<u64, Bytes>, hashes0: seq<u64>, target: Bytes,
                            blobs1: map<u64, Bytes>, hashes1: seq<u64>)
  {
    var p := NextPatch(b, blobs0, hashes0, target);
    && p.Ok?
    && hashes1 == hashes0 + [Id(b, p.value)]
    && blobs1 == StoreOnce(blobs0, Id(b, p.value), p.value.data)
  }

  /** `(blobs1, hashes1)` has the same chain as `(blobs0, hashes0)` and every one of its files intact. */
  ghost predicate Kept(blobs0: map<u64, Bytes>, hashes0: seq<u64>, blobs1: map<u64, Bytes>, hashes1: seq<u64>) {
    && hashes1 == hashes0
    && forall h :: h in blobs0 ==> h in blobs1 && blobs1[h] == blobs0[h]
  }

  /**
   * Committing `target` and replaying the whole chain gives `target` back, provided the codec
   * round-trips and any file already stored under the new patch's hash holds that patch
   * (no hash collision, no stale file).
   */
  lemma CommitThenReplay(b: Backend, blobs: map<u64, Bytes>, hashes: seq<u64>, target: Bytes)
    requires RoundTrips(b)
    requires NextPatch(b, blobs, hashes, target).Ok?
    requires var p := NextPatch(b, blobs, hashes, target).value;
             Id(b, p) in blobs ==> blobs[Id(b, p)] == p.data
    ensures var p := NextPatch(b, blobs, hashes, target).value;
            Replay(b, StoreOnce(blobs, Id(b, p), p.data), hashes + [Id(b, p)], |hashes| + 1) == Ok(target)
  {
    var p := NextPatch(b, blobs, hashes, target).value;
    var h := Id(b, p);
    var blobs', hashes' := StoreOnce(blobs, h, p.data), hashes + [h];
    assert hashes'[..|hashes|] == hashes;
    assert hashes[..|hashes|] == hashes;
    ReplayAgrees(b, blobs, hashes, blobs', hashes', |hashes|);
    NewThenApply(b, Latest(b, blobs, hashes).value, target);
  }

  /** A commit leaves every earlier version as it was. */
  lemma CommitKeepsHistory(b: Backend, blobs: map<u64, Bytes>, hashes: seq<u64>, h: u64, data: Bytes, k: nat)
    requires k <= |hashes|
    requires forall x :: x in hashes ==> x in blobs
    requires h in blobs ==> blobs[h] == data
    ensures Replay(b, StoreOnce(blobs, h, data), hashes + [h], k) == Replay(b, blobs, hashes, k)
  {
    assert (hashes + [h])[..k] == hashes[..k];
    ReplayAgrees(b, blobs, hashes, StoreOnce(blobs, h, data), hashes + [h], k);
  }

  /** The patch directory of a tracked file: the patch root joined with the decimal hash of its path. */
  function TimelineDir(b: Backend, patchDir: Path, filePath: Path): Path {
    Join(patchDir, Decimal(b.hashPath(filePath) as nat))
  }

  /** Files whose paths hash differently keep their patches in different directories. */
  lemma TimelineDirsDiffer(b: Backend, patchDir: Path, p: Path, q: Path)
    requires b.hashPath(p) != b.hashPath(q)
    ensures TimelineDir(b, patchDir, p) != TimelineDir(b, patchDir, q)
  {
    if TimelineDir(b, patchDir, p) == TimelineDir(b, patchDir, q) {
      JoinInjective(patchDir, Decimal(b.hashPath(p) as nat), Decimal(b.hashPath(q) as nat));
      DecimalInjective(b.hashPath(p) as nat, b.hashPath(q) as nat);
    }
  }

  class TrackedFile {
    const path: Path
    const timeline: PatchTimeline

    ghost predicate Valid()
      reads this, timeline, timeline.store
    {
      timeline.Valid()
    }

    constructor (path: Path, timeline: PatchTimeline)
      ensures this.path == path && this.timeline == timeline
    {
      this.path := path;
      this.timeline := timeline;
    }

    /**
     * `TrackedFile::new`: refuses a path that does not exist, otherwise opens (creating if
     * needed) the patch directory `TimelineDir` with an empty chain.
     */
    static method New(disk: Disk, filePath: Path, patchDir: Path, backend: Backend) returns (r: Result<TrackedFile, TrackedFileError>)
      requires disk.Valid()
      modifies disk
      ensures disk.Valid() && disk.files == old(disk.files)
      ensures !old(disk.Exists(filePath)) ==> r == Err(FileDoesntExist) && disk.dirs == old(disk.dirs)
      ensures r.Err? ==> disk.dirs == old(disk.dirs)
      ensures r.Ok? ==> fresh(r.value) && fresh(r.value.timeline) && r.value.Valid()
      ensures r.Ok? ==> r.value.path == filePath && r.value.VersionCount() == 0
      ensures r.Ok? ==> r.value.timeline.backend == backend
      ensures r.Ok? ==> var dir := TimelineDir(backend, patchDir, filePath);
                        r.value.timeline.dir == dir && disk.dirs == old(disk.dirs)[dir := r.value.timeline.store]
      ensures r.Ok? && TimelineDir(backend, patchDir, filePath) !in old(disk.dirs) ==> fresh(r.value.timeline.store)
    {
      if !disk.Exists(filePath) {
        return Err(FileDoesntExist);
      }
      var made := PatchTimeline.New(disk, TimelineDir(backend, patchDir, filePath), backend);
      if made.Err? {
        return Err(PatchTimelineError(made.error));
      }
      var f := new TrackedFile(filePath, made.value);
      return Ok(f);
    }

    /** `Clone`: the same path over a cloned chain, which shares the patch directory. */
    method Clone() returns (c: TrackedFile)
      ensures fresh(c) && fresh(c.timeline)
      ensures c.path == path && c.timeline.dir == timeline.dir && c.timeline.store == timeline.store
      ensures c.timeline.backend == timeline.backend && c.timeline.hashes == timeline.hashes
    {
      var t := timeline.Clone();
      c := new TrackedFile(path, t);
    }

    /** `version_count`: one version per entry of the chain. */
    function VersionCount(): (n: nat)
      reads this, timeline
      ensures n == |timeline.hashes|
    {
      timeline.Len()
    }

    function IsEmpty(): (b: bool)
      reads this, timeline
      ensures b <==> VersionCount() == 0
    {
      timeline.IsEmpty()
    }

    /** The index of the newest version: none when there are no versions, else the count less one. */
    function LatestVersionIndex(): (r: Option<nat>)
      reads this, timeline
      ensures r.None? <==> VersionCount() == 0
      ensures r.Some? ==> r.value + 1 == VersionCount()
    {
      if timeline.IsEmpty() then None else Some(timeline.Len() - 1)
    }

    /** `apply(index)`: rebuilds version `index` by replaying entries `0..=index`. */
    method Apply(index: nat) returns (r: Result<Bytes, PatchTimelineError>)
      ensures VersionCount() == 0 ==> r == Err(NoVersionsAvailable)
      ensures VersionCount() > 0 ==> r == Replay(timeline.backend, timeline.store.blobs, timeline.hashes, index + 1)
    {
      if timeline.IsEmpty() {
        return Err(NoVersionsAvailable);
      }
      var b, blobs, hashes := timeline.backend, timeline.store.blobs, timeline.hashes;
      var source: Bytes := [];
      for i := 0 to index + 1
        invariant Replay(b, blobs, hashes, i) == Ok(source)
      {
        var patch := timeline.Get(i);
        if patch.Err? {
          ReplayFailureSticks(b, blobs, hashes, i + 1, index + 1);
          return Err(patch.error);
        }
        var next := Patches.Apply(b, patch.value, source);
        if next.Err? {
          ReplayFailureSticks(b, blobs, hashes, i + 1, index + 1);
          return Err(IoError(next.error));
        }
        source := next.value;
      }
      return Ok(source);
    }

    /**
     * `commit`: diffs the latest version (or `[]`) against the file's current content and
     * pushes the patch. Only the chain and its directory change; on failure the chain is as
     * it was and every file it referred to is intact.
     */
    method Commit(disk: Disk) returns (r: Result<(), PatchTimelineError>)
      requires Valid()
      modifies timeline, timeline.store
      ensures Valid()
      ensures r.Ok? ==> path in disk.files &&
                        Committed(timeline.backend, old(timeline.store.blobs), old(timeline.hashes), disk.files[path],
                                  timeline.store.blobs, timeline.hashes)
      ensures r.Err? ==> Kept(old(timeline.store.blobs), old(timeline.hashes), timeline.store.blobs, timeline.hashes)
    {
      var b := timeline.backend;
      var source: Bytes := [];
      if !timeline.IsEmpty() {
        source :- Apply(timeline.Len() - 1);
      }
      assert Latest(b, timeline.store.blobs, timeline.hashes) == Ok(source);
      var target := disk.Read(path);
      if target.Err? {
        return Err(IoError(target.error));
      }
      var patch := Patches.New(b, source, target.value);
      if patch.Err? {
        return Err(IoError(patch.error));
      }
      r := timeline.Push(patch.value);
      if r.Err? {
        assert forall h :: h in old(timeline.store.blobs) ==> h in old(timeline.store.blobs) - {Id(b, patch.value)};
      }
    }

    /** `load_version(index)`: rebuilds version `index` and writes it over the tracked file. */
    method LoadVersion(disk: Disk, index: nat) returns (r: Result<(), PatchTimelineError>)
      requires disk.Valid()
      modifies disk
      ensures disk.Valid() && disk.dirs == old(disk.dirs)
      ensures VersionCount() == 0 ==> r == Err(NoVersionsAvailable) && disk.files == old(disk.files)
      ensures r.Ok? ==> var v := Replay(timeline.backend, timeline.store.blobs, timeline.hashes, index + 1);
                        v.Ok? && disk.files == old(disk.files)[path := v.value]
      ensures r.Err? ==> disk.files - {path} == old(disk.files) - {path}
      ensures var v := Replay(timeline.backend, timeline.store.blobs, timeline.hashes, index + 1);
              v.Err? ==> disk.files == old(disk.files) &&
                         r == (if VersionCount() == 0 then Err(NoVersionsAvailable) else Err(v.error))
    {
      var content :- Apply(index);
      var written := disk.Write(path, content);
      if written.Err? {
        return Err(IoError(written.error));
      }
      return Ok(());
    }

    /**
     * `delete_version(index)`: drops versions `index..` by popping the chain down to
     * `index` entries; fails on an empty chain. An index past the newest version drops
     * nothing. The tracked file itself is never touched.
     */
    method DeleteVersion(index: nat) returns (r: Result<(), PatchTimelineError>)
      requires Valid()
      modifies timeline, timeline.store
      ensures Valid()
      ensures old(VersionCount()) == 0 ==> r == Err(NoVersionsAvailable) &&
                                           timeline.hashes == old(timeline.hashes) &&
                                           timeline.store.blobs == old(timeline.store.blobs)
      ensures r.Ok? ==> var keep := if index < old(VersionCount()) then index else old(VersionCount());
                        timeline.hashes == old(timeline.hashes)[..keep] &&
                        timeline.store.blobs == old(timeline.store.blobs) - Dropped(old(timeline.hashes), keep)
      ensures r.Err? && old(VersionCount()) > 0 ==>
                r.error.IoError? &&
                exists k :: index <= k < old(VersionCount()) && timeline.hashes == old(timeline.hashes)[..k] &&
                            timeline.store.blobs == old(timeline.store.blobs) - Dropped(old(timeline.hashes), k + 1)
    {
      var latest := LatestVersionIndex();
      if latest.None? {
        return Err(NoVersionsAvailable);
      }
      ghost var hs, blobs0 := timeline.hashes, timeline.store.blobs;
      var n := latest.value + 1;
      DroppedNothing(hs);
      var i := index;
      while i <= latest.value
        invariant Valid()
        invariant index <= i && (i <= n || i == index)
        invariant |timeline.hashes| == n - (i - index) && timeline.hashes == hs[..|timeline.hashes|]
        invariant timeline.store.blobs == blobs0 - Dropped(hs, |timeline.hashes|)
      {
        ghost var k := |timeline.hashes| - 1;
        var popped := timeline.Pop();
        DroppedStep(hs, k);
        assert timeline.hashes == hs[..k];
        if popped.Err? {
          return popped;
        }
        i := i + 1;
      }
      return Ok(());
    }
  }

  /**
   * On a file with no versions and an empty patch directory, a commit followed by `apply(0)`
   * gives back the content the file had at commit time.
   */
  method CommitThenApply(disk: Disk, f: TrackedFile) returns (r: Result<Bytes, PatchTimelineError>)
    requires RoundTrips(f.timeline.backend)
    requires f.Valid() && f.VersionCount() == 0 && f.timeline.store.blobs == map[]
    modifies f.timeline, f.timeline.store
    ensures r.Ok? ==> f.path in disk.files && r.value == disk.files[f.path]
  {
    var committed := f.Commit(disk);
    if committed.Err? {
      return Err(committed.error);
    }
    CommitThenReplay(f.timeline.backend, map[], [], disk.files[f.path]);
    r := f.Apply(0);
  }
}
