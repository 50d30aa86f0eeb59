/**
 * `Version<T>` (src/version.rs): a version remembered by where it is stored. Opening reads
 * a patch out of a reader; writing stores a patch into a writer and remembers the writer.
 */
module Versions {
  import opened Wrappers
  import opened Primitives
  import opened Streams
  import opened Patches

  datatype Version<T> = Version(location: T) {
    /** `Version::location` and `AsRef::as_ref`: the location, unchanged. */
    function Location(): (l: T)
      ensures Version(l) == this
    {
      location
    }
  }

  /** `From<T> for Version<T>`. */
  function FromLocation<T>(t: T): (v: Version<T>)
    ensures v.Location() == t
  {
    Version(t)
  }

  /** Wrapping a location and asking for it back are inverse to each other. */
  lemma LocationRoundTrip<T>(t: T, v: Version<T>)
    ensures FromLocation(t).Location() == t
    ensures FromLocation(v.Location()) == v
  {
  }

  /** `Version::open`: the patch whose data is everything left in the reader. */
  method Open(location: Reader) returns (r: Result<Patch, IoError>)
    modifies location
    ensures r.Ok? ==> r.value == FromData(old(location.remaining)) && location.remaining == []
  {
    var data :- location.ReadToEnd();
    return Ok(FromData(data));
  }

  /** `Version::write`: writes exactly the patch's data, then wraps the location. */
  method Write(location: Writer, patch: Patch) returns (r: Result<Version<Writer>, IoError>)
    modifies location
    ensures r.Ok? ==> r.value.Location() == location && location.written == old(location.written) + patch.data
    ensures r.Err? ==> exists k :: 0 <= k <= |patch.data| && location.written == old(location.written) + patch.data[..k]
  {
    var _ :- location.WriteAll(patch.data);
    return Ok(Version(location));
  }

  /** Writing a patch into a fresh buffer and opening that buffer gives the patch back. */
  method WriteThenOpen(patch: Patch) returns (r: Result<Patch, IoError>)
    ensures r.Ok? ==> r.value == patch
  {
    var buffer := new Writer();
    var version :- Write(buffer, patch);
    var reader := new Reader(version.Location().written);
    r := Open(reader);
  }
}
