/**
 Files seen through the calls the transfer code makes: `read` on a descriptor, which may return fewer bytes
 than asked for, and `get` on a stream. A file marked faulty may fail at any call;
 one marked whole never returns less than it was asked for and has.
 */
module FileIO {
  import opened Base

  class InputFile {
    const data: Bytes
    const faulty: bool
    const whole: bool
    var pos: nat
    var failed: bool

    ghost predicate Valid()
      reads this
    {
      pos <= |data|
    }

    ghost function Rest(): Bytes
      requires Valid()
      reads this
    {
      data[pos..]
    }

    constructor (data: Bytes, faulty: bool)
      ensures Valid() && pos == 0 && !failed && this.data == data && this.faulty == faulty
    {
      this.data, this.faulty, pos, failed := data, faulty, 0, false;
      whole := *;
    }

    /** POSIX read: some non-empty prefix of what is left, or nothing at the end of the file. */
    method Read(max: nat) returns (r: Result<Bytes>)
      requires Valid() && max > 0
      modifies this`pos
      ensures Valid()
      ensures r.Err? ==> faulty && pos == old(pos)
      ensures r.Ok? ==>
                && |r.value| <= max
                && old(Rest()) == r.value + Rest()
                && (r.value == [] <==> old(Rest()) == [])
                && (whole ==> |r.value| == max || Rest() == [])
    {
      if faulty {
        var fails: bool := *;
        if fails {
          return Err(IoError);
        }
      }
      if pos == |data| {
        return Ok([]);
      }
      var n: nat :| 0 < n <= max && pos + n <= |data| && (whole ==> n == max || pos + n == |data|);
      r := Ok(data[pos..pos + n]);
      pos := pos + n;
    }

    /** What a stream's `read` extracts: fewer bytes than asked for make the stream fail, and then it gives no more. */
    method ReadChunk(count: nat) returns (got: Bytes)
      requires Valid() && count > 0
      modifies this`pos, this`failed
      ensures Valid() && old(Rest()) == got + Rest() && |got| <= count
      ensures failed <==> |got| < count
      ensures old(failed) ==> got == []
      ensures !old(failed) && |got| < count ==> faulty || Rest() == []
    {
      if failed {
        return [];
      }
      var n := if |data| - pos < count then |data| - pos else count;
      if faulty {
        n :| 0 <= n <= count && pos + n <= |data|;
      }
      got := data[pos..pos + n];
      pos := pos + n;
      failed := n < count;
    }

    /** One byte of a stream, None at the end. */
    method GetByte() returns (r: Result<Option<Byte>>)
      requires Valid()
      modifies this`pos
      ensures Valid()
      ensures r.Err? ==> faulty && pos == old(pos)
      ensures r.Ok? && r.value.None? ==> Rest() == [] && pos == old(pos)
      ensures r.Ok? && r.value.Some? ==> old(Rest()) == [r.value.value] + Rest()
    {
      if faulty {
        var fails: bool := *;
        if fails {
          return Err(IoError);
        }
      }
      if pos == |data| {
        return Ok(None);
      }
      r := Ok(Some(data[pos]));
      pos := pos + 1;
    }
  }

  /** A file being written front to back. */
  class OutputFile {
    const faulty: bool
    var data: Bytes

    constructor (faulty: bool)
      ensures data == [] && this.faulty == faulty
    {
      this.faulty, data := faulty, [];
    }

    /** A failed write may leave a part of the bytes behind. */
    method Write(bytes: Bytes) returns (r: Result<bool>)
      modifies this`data
      ensures r.Err? ==> faulty && old(data) <= data
      ensures r.Ok? ==> data == old(data) + bytes
    {
      if bytes == [] {
        return Ok(true);
      }
      if faulty {
        var fails: bool := *;
        if fails {
          var n: nat :| n <= |bytes|;
          data := data + bytes[..n];
          return Err(IoError);
        }
      }
      data := data + bytes;
      r := Ok(true);
    }
  }
}
