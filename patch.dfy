/**
 * The patch value (src/patch.rs): an owned byte vector holding a compressed delta, with
 * raw stream (de)serialisation. The delta codec itself is the `Backend`'s.
 */
module Patches {
  import opened Wrappers
  import opened Primitives
  import opened Streams

  datatype Patch = Patch(data: Bytes)

  /** `Patch::from_data`: a patch holding a copy of `d`. */
  function FromData(d: Bytes): (p: Patch)
    ensures p.data == d
  {
    Patch(d)
  }

  /** `From<&[u8]> for Patch`. */
  function FromSlice(d: Bytes): (p: Patch)
    ensures p == FromData(d)
  {
    FromData(d)
  }

  /** `From<Patch> for Vec<u8>`: hands back the data. */
  function IntoBytes(p: Patch): (d: Bytes)
    ensures FromData(d) == p
  {
    p.data
  }

  /** `Patch::len`: the length of the byte vector the patch converts into. */
  function Len(p: Patch): (n: nat)
    ensures n == |IntoBytes(p)|
  {
    |p.data|
  }

  function IsEmpty(p: Patch): (b: bool)
    ensures b <==> Len(p) == 0
  {
    |p.data| == 0
  }

  /** `Patch::id`: the hash of the patch, which is the hash of its data vector. */
  function Id(b: Backend, p: Patch): (i: u64)
    ensures i == b.hashBytes(IntoBytes(p))
  {
    b.hashBytes(p.data)
  }

  /** `Patch::new`: the compressed delta from `source` to `target`. */
  function New(b: Backend, source: Bytes, target: Bytes): (r: Result<Patch, IoError>)
    ensures r.Ok? <==> b.diff(source, target).Some?
    ensures r.Err? ==> r.error == InvalidData
  {
    match b.diff(source, target)
    case None => Err(InvalidData)
    case Some(d) => Ok(Patch(d))
  }

  /** `Patch::apply`: decompresses the delta and applies it to `source`. */
  function Apply(b: Backend, p: Patch, source: Bytes): (r: Result<Bytes, IoError>)
    ensures r.Ok? <==> b.patch(p.data, source).Some?
    ensures r.Err? ==> r.error == InvalidData
  {
    match b.patch(p.data, source)
    case None => Err(InvalidData)
    case Some(t) => Ok(t)
  }

  /** A patch made from `source` to `target` turns `source` back into `target`. */
  lemma NewThenApply(b: Backend, source: Bytes, target: Bytes)
    requires RoundTrips(b)
    requires New(b, source, target).Ok?
    ensures Apply(b, New(b, source, target).value, source) == Ok(target)
  {
  }

  /** `Patch::read_from`: the whole rest of the stream becomes the patch's data. */
  method ReadFrom(reader: Reader) returns (r: Result<Patch, IoError>)
    modifies reader
    ensures r.Ok? ==> r.value.data == old(reader.remaining) && reader.remaining == []
  {
    var data :- reader.ReadToEnd();
    return Ok(Patch(data));
  }

  /** `Patch::write_to`: emits exactly the patch's bytes. */
  method WriteTo(p: Patch, writer: Writer) returns (r: Result<(), IoError>)
    modifies writer
    ensures r.Ok? ==> writer.written == old(writer.written) + p.data
    ensures r.Err? ==> exists k :: 0 <= k <= |p.data| && writer.written == old(writer.written) + p.data[..k]
  {
    r := writer.WriteAll(p.data);
  }

  /** Writing a patch to an empty buffer and reading the buffer back gives the same patch. */
  method WriteThenRead(p: Patch) returns (r: Result<Patch, IoError>)
    ensures r.Ok? ==> r.value == p
  {
    var buffer := new Writer();
    var _ :- WriteTo(p, buffer);
    var reader := new Reader(buffer.written);
    r := ReadFrom(reader);
  }
}
