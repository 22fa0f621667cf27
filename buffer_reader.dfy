/** BufferReader: a forward-only cursor over an immutable byte string
    (an io.BytesIO that is only ever read). */
module BufferReaders {
  import opened Bytes
  import opened Utf8
  import opened Results

  class BufferReader {
    const data: seq<Byte>
    var pos: nat

    ghost predicate Valid()
      reads this
    {
      pos <= |data|
    }

    /** The bytes not read yet. */
    function Remaining(): (r: seq<Byte>)
      reads this
      requires Valid()
      ensures |r| == |data| - pos
    {
      data[pos..]
    }

    constructor (data: seq<Byte>)
      ensures Valid() && this.data == data && pos == 0
      ensures Remaining() == data
    {
      this.data := data;
      pos := 0;
    }

    /** read(size): exactly `size` bytes, or EOFError. A short read still consumes
        whatever was left, as BytesIO.read does before the length check fails. */
    method Read(size: nat) returns (r: Result<seq<Byte>>)
      requires Valid()
      modifies this
      ensures Valid()
      ensures size <= |old(Remaining())| ==>
        r == Success(old(Remaining())[..size]) && pos == old(pos) + size
      ensures size > |old(Remaining())| ==> r == Failure(UnexpectedEof) && pos == |data|
    {
      if pos + size <= |data| {
        assert data[pos..][..size] == data[pos..pos + size];
        r := Success(data[pos..pos + size]);
        pos := pos + size;
      } else {
        pos := |data|;
        r := Failure(UnexpectedEof);
      }
    }

    /** read_byte(): read(1)[0]. */
    method ReadByte() returns (r: Result<Byte>)
      requires Valid()
      modifies this
      ensures Valid()
      ensures |old(Remaining())| >= 1 ==> r == Success(old(Remaining())[0]) && pos == old(pos) + 1
      ensures |old(Remaining())| == 0 ==> r == Failure(UnexpectedEof) && pos == |data|
    {
      var b :- Read(1);
      r := Success(b[0]);
    }

    /** read_struct('>H')[0]: a big-endian u16. */
    method ReadU16() returns (r: Result<nat>)
      requires Valid()
      modifies this
      ensures Valid()
      ensures |old(Remaining())| >= 2 ==>
        r == Success(BE16(old(Remaining())[..2])) && pos == old(pos) + 2
      ensures |old(Remaining())| < 2 ==> r == Failure(UnexpectedEof) && pos == |data|
    {
      var b :- Read(2);
      r := Success(BE16(b));
    }

    /** read_utf8(size): read(size).decode('utf-8'). The bytes are consumed even
        when they turn out not to be UTF-8. */
    method ReadUtf8(size: nat) returns (r: Result<seq<Byte>>)
      requires Valid()
      modifies this
      ensures Valid()
      ensures size <= |old(Remaining())| ==> pos == old(pos) + size
      ensures size <= |old(Remaining())| ==>
        r == (if IsUtf8(old(Remaining())[..size]) then Success(old(Remaining())[..size])
              else Failure(UnicodeDecodeError))
      ensures size > |old(Remaining())| ==> r == Failure(UnexpectedEof) && pos == |data|
    {
      var b :- Read(size);
      if IsUtf8(b) {
        r := Success(b);
      } else {
        r := Failure(UnicodeDecodeError);
      }
    }
  }
}
