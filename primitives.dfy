/**
 * Machine types, paths and the foreign primitives the engine is built on.
 *
 * The delta codec (bsdiff followed by bzip2, src/patch.rs:16-25 and 58-65) and the
 * standard-library hasher (`hash`, src/lib.rs:8-15) are not modelled internally: they
 * are carried as function values in a `Backend`, and what the engine relies on about
 * them is the single round-trip property `RoundTrips`.
 */
module Primitives {
  import opened Wrappers

  newtype byte = x: int | 0 <= x < 0x100
  newtype u64 = x: int | 0 <= x < 0x1_0000_0000_0000_0000

  type Bytes = seq<byte>

  /**
   * The `io::Error`s the model tells apart: a missing file, a directory where a file was
   * expected, a file where a directory was expected, data the codec rejects, and anything
   * else the operating system refuses (permissions, a full disk, ...).
   */
  datatype IoError = NotFound | IsADirectory | AlreadyAFile | InvalidData | Refused

  /** A filesystem path, as the text of a `PathBuf`. */
  type Path = string

  /**
   * `Path::join` with a relative, single-component name: a separator is inserted
   * unless the directory is empty or already ends with one.
   */
  function Join(dir: Path, name: string): (p: Path)
    ensures |p| >= |dir| + |name| && p[..|dir|] == dir && p[|p| - |name|..] == name
  {
    if dir == [] || dir[|dir| - 1] == '/' then dir + name else dir + "/" + name
  }

  /** Joining two different names onto the same directory gives two different paths. */
  lemma JoinInjective(dir: Path, x: string, y: string)
    requires Join(dir, x) == Join(dir, y)
    ensures x == y
  {
    var p := Join(dir, x);
    assert |x| == |y|;
    assert x == p[|p| - |x|..] == y;
  }

  function Digit(d: nat): (c: char)
    requires d < 10
    ensures '0' <= c <= '9'
  {
    (48 + d) as char
  }

  /** `u64::to_string`: the decimal digits of `n`, most significant first, no leading zeros. */
  function Decimal(n: nat): (s: string)
    ensures |s| >= 1
    ensures forall i :: 0 <= i < |s| ==> '0' <= s[i] <= '9'
    ensures (|s| == 1) <==> n < 10
    decreases n
  {
    if n < 10 then [Digit(n)] else Decimal(n / 10) + [Digit(n % 10)]
  }

  /** Different numbers print differently, so directories named after different hashes differ. */
  lemma {:induction false} DecimalInjective(a: nat, b: nat)
    requires Decimal(a) == Decimal(b)
    ensures a == b
    decreases a
  {
    if a >= 10 && b >= 10 {
      var sa, sb := Decimal(a), Decimal(b);
      assert sa[|sa| - 1] == Digit(a % 10) && sb[|sb| - 1] == Digit(b % 10);
      assert a % 10 == b % 10;
      assert sa[..|sa| - 1] == Decimal(a / 10) && sb[..|sb| - 1] == Decimal(b / 10);
      DecimalInjective(a / 10, b / 10);
    } else {
      assert [Digit(a)] == [Digit(b)];
    }
  }

  /**
   * The foreign primitives.
   * - `diff(source, target)`: `Patch::new`, a bsdiff delta compressed with bzip2; `None` when
   *   either library reports an error.
   * - `patch(delta, source)`: `Patch::apply`, decompression followed by bsdiff patching;
   *   `None` when the delta is corrupt or does not fit the source.
   * - `hashBytes(data)`: `hash(&patch)`, the `DefaultHasher` digest of a patch's byte vector.
   * - `hashPath(path)`: `hash(&path)`, the digest of a tracked file's path.
   */
  datatype Backend = Backend(
    diff: (Bytes, Bytes) -> Option<Bytes>,
    patch: (Bytes, Bytes) -> Option<Bytes>,
    hashBytes: Bytes -> u64,
    hashPath: Path -> u64)

  /** The codec contract the engine relies on: applying `diff(s, t)` to `s` gives back `t`. */
  ghost predicate RoundTrips(b: Backend) {
    forall s: Bytes, t: Bytes :: b.diff(s, t).Some? ==> b.patch(b.diff(s, t).value, s) == Some(t)
  }
}
