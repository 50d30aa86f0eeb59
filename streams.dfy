/**
 * Byte streams: the `Read` and `Write` ends that patches are (de)serialised through.
 * A reader holds the bytes not yet consumed, a writer the bytes emitted so far.
 */
module Streams {
  import opened Wrappers
  import opened Primitives

  class Reader {
    var remaining: Bytes

    constructor (data: Bytes)
      ensures remaining == data
    {
      remaining := data;
    }

    /**
     * `read_to_end`: drains the stream. On failure part of the stream may already have
     * been consumed.
     */
    method ReadToEnd() returns (r: Result<Bytes, IoError>)
      modifies this
      ensures r.Ok? ==> r.value == old(remaining) && remaining == []
      ensures r.Err? ==> exists k :: 0 <= k <= |old(remaining)| && remaining == old(remaining)[k..]
    {
      var refused: bool := *;
      if refused {
        var k: int :| 0 <= k <= |remaining|;
        remaining := remaining[k..];
        return Err(Refused);
      }
      r := Ok(remaining);
      remaining := [];
    }
  }

  class Writer {
    var written: Bytes

    constructor ()
      ensures written == []
    {
      written := [];
    }

    /** `write_all`: appends all of `data`, or fails having appended only a prefix of it. */
    method WriteAll(data: Bytes) returns (r: Result<(), IoError>)
      modifies this
      ensures r.Ok? ==> written == old(written) + data
      ensures r.Err? ==> exists k :: 0 <= k <= |data| && written == old(written) + data[..k]
    {
      var refused: bool := *;
      if refused {
        var k: int :| 0 <= k <= |data|;
        written := written + data[..k];
        return Err(Refused);
      }
      written := written + data;
      return Ok(());
    }
  }
}
