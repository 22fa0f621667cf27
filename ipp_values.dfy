/** Decoded IPP attribute values (RFC 8010, section 3.9) and the decoding that
    parse_ipp_response applies to one value according to its value tag. */
module IppValues {
  import opened Bytes
  import opened Utf8
  import opened Results

  // Delimiter tags (RFC 8010, section 3.5.1)
  const OPERATION_ATTRIBUTES_TAG: Byte := 0x01
  const JOB_ATTRIBUTES_TAG: Byte := 0x02
  const END_OF_ATTRIBUTES_TAG: Byte := 0x03
  const PRINTER_ATTRIBUTES_TAG: Byte := 0x04
  const UNSUPPORTED_ATTRIBUTES_TAG: Byte := 0x05

  /** The tags parse_ipp_response treats as the start of an attribute group. */
  predicate IsGroupTag(t: Byte) {
    t == OPERATION_ATTRIBUTES_TAG || t == JOB_ATTRIBUTES_TAG
    || t == PRINTER_ATTRIBUTES_TAG || t == UNSUPPORTED_ATTRIBUTES_TAG
  }

  // Value tags (RFC 8010, section 3.5.2) that select a decoding
  const BOOLEAN_TAG: Byte := 0x21
  const ENUM_TAG: Byte := 0x22
  const INTEGER_TAG: Byte := 0x23
  const RESOLUTION_TAG: Byte := 0x32

  /** The resolution units the decoder knows: 3 is 'dpi', 4 is 'dpcm'. */
  datatype Units = Dpi | Dpcm

  /** A decoded value: Python bool, int from '>I', int from '>i', the dict
      {'x', 'y', 'units'}, or a str (kept as its UTF-8 bytes). */
  datatype Value =
    | Bool(b: bool)
    | Enum(e: nat)
    | Integer(i: int)
    | Resolution(x: nat, y: nat, units: Units)
    | Text(s: seq<Byte>)

  /** What the attribute dict maps a name to: a Python list of values while parsing,
      and after the flattening step either a bare value or a list of two or more. */
  datatype Entry = Single(value: Value) | Multi(values: seq<Value>)

  /** struct.calcsize of the two resolution formats the source tries. */
  const HHB_SIZE: nat := 5   // '>HHB': 2 + 2 + 1
  const IIB_SIZE: nat := 9   // '>IIB': 4 + 4 + 1

  /** The {3: 'dpi', 4: 'dpcm'}[units] lookup. */
  function UnitsFromByte(u: Byte): (r: Result<Units>)
    ensures r.Success? <==> u == 3 || u == 4
    ensures r.Failure? ==> r.error == KeyError
    ensures r == Success(Dpi) <==> u == 3
  {
    if u == 3 then Success(Dpi)
    else if u == 4 then Success(Dpcm)
    else Failure(KeyError)
  }

  function UnitsToByte(u: Units): Byte {
    match u
    case Dpi => 3
    case Dpcm => 4
  }

  /** The value-decoding branch chain of parse_ipp_response. */
  function DecodeValue(tag: Byte, v: seq<Byte>): (r: Result<Value>)
    ensures tag == BOOLEAN_TAG ==> (r.Success? <==> |v| >= 1)
    ensures tag == BOOLEAN_TAG && |v| == 0 ==> r == Failure(IndexError)
    ensures r.Success? && tag == BOOLEAN_TAG ==> r.value == Bool(v[0] != 0)
    ensures tag == ENUM_TAG || tag == INTEGER_TAG ==> (r.Success? <==> |v| == 4)
    ensures (tag == ENUM_TAG || tag == INTEGER_TAG) && |v| != 4 ==> r == Failure(StructError)
    ensures r.Success? && tag == ENUM_TAG ==> r.value.Enum? && r.value.e < TWO_32
    ensures r.Success? && tag == INTEGER_TAG ==> r.value.Integer? && -TWO_31 <= r.value.i < TWO_31
    ensures r.Success? && tag == RESOLUTION_TAG ==> r.value.Resolution? && |v| == IIB_SIZE
    ensures tag !in {BOOLEAN_TAG, ENUM_TAG, INTEGER_TAG, RESOLUTION_TAG} ==>
      r == if IsUtf8(v) then Success(Text(v)) else Failure(UnicodeDecodeError)
  {
    if tag == BOOLEAN_TAG then
      // bool(value_bytes[0]): an empty value raises IndexError
      if |v| == 0 then Failure(IndexError) else Success(Bool(v[0] != 0))
    else if tag == ENUM_TAG then
      if |v| != 4 then Failure(StructError) else Success(Enum(BE32(v)))
    else if tag == INTEGER_TAG then
      if |v| != 4 then Failure(StructError) else Success(Integer(ToSigned32(BE32(v))))
    else if tag == RESOLUTION_TAG then
      if |v| == 6 then
        // struct.unpack('>HHB', ...) needs HHB_SIZE == 5 bytes, so a 6-byte value never unpacks
        Failure(StructError)
      else if |v| != IIB_SIZE then Failure(StructError)
      else
        match UnitsFromByte(v[8])
        case Failure(e) => Failure(e)
        case Success(u) => Success(Resolution(BE32(v[0..4]), BE32(v[4..8]), u))
    else
      if IsUtf8(v) then Success(Text(v)) else Failure(UnicodeDecodeError)
  }

  /** Values that the wire format can carry: the integer fields fit their 32-bit
      slots, and strings are well-formed UTF-8. */
  predicate Encodable(v: Value) {
    match v
    case Bool(_) => true
    case Enum(e) => e < TWO_32
    case Integer(i) => -TWO_31 <= i < TWO_31
    case Resolution(x, y, _) => x < TWO_32 && y < TWO_32
    case Text(s) => IsUtf8(s)
  }

  /** A value tag that selects the decoding branch for `v` (strings may use any other tag). */
  predicate TagFits(tag: Byte, v: Value) {
    match v
    case Bool(_) => tag == BOOLEAN_TAG
    case Enum(_) => tag == ENUM_TAG
    case Integer(_) => tag == INTEGER_TAG
    case Resolution(_, _, _) => tag == RESOLUTION_TAG
    case Text(_) => tag !in {BOOLEAN_TAG, ENUM_TAG, INTEGER_TAG, RESOLUTION_TAG}
  }

  /** The RFC 8010 section 3.9 encoding of a value: the inverse of DecodeValue. */
  function EncodeValue(v: Value): (r: seq<Byte>)
    requires Encodable(v)
  {
    match v
    case Bool(b) => [if b then 1 else 0]
    case Enum(e) => U32(e)
    case Integer(i) => U32(i % TWO_32)
    case Resolution(x, y, u) => U32(x) + U32(y) + [UnitsToByte(u)]
    case Text(s) => s
  }

  /** Every encodable value decodes back to itself under a tag that fits it. */
  lemma DecodeEncodeValue(tag: Byte, v: Value)
    requires Encodable(v) && TagFits(tag, v)
    ensures DecodeValue(tag, EncodeValue(v)) == Success(v)
  {
    match v
    case Bool(b) =>
    case Enum(e) => BE32RoundTrip(e);
    case Integer(i) =>
      BE32RoundTrip(i % TWO_32);
    case Resolution(x, y, u) =>
      var w := EncodeValue(v);
      assert w[0..4] == U32(x) && w[4..8] == U32(y) && w[8] == UnitsToByte(u);
      BE32RoundTrip(x);
      BE32RoundTrip(y);
    case Text(s) =>
  }

  /** Decoding loses nothing that a decoded value could carry: re-encoding a decoded
      4-byte integer, enum or 9-byte resolution gives back the wire bytes. */
  lemma EncodeDecodeValue(tag: Byte, w: seq<Byte>)
    requires DecodeValue(tag, w).Success?
    requires tag != BOOLEAN_TAG
    ensures Encodable(DecodeValue(tag, w).value)
    ensures EncodeValue(DecodeValue(tag, w).value) == w
  {
    if tag == ENUM_TAG || tag == INTEGER_TAG {
      U32RoundTrip(w);
    } else if tag == RESOLUTION_TAG {
      U32RoundTrip(w[0..4]);
      U32RoundTrip(w[4..8]);
      assert w == w[0..4] + w[4..8] + [w[8]];
    }
  }

  /** Resolution values: only a 9-byte value with unit byte 3 or 4 decodes; in particular
      the 6-byte branch always fails. */
  lemma ResolutionDecoding(v: seq<Byte>)
    ensures |v| == 6 ==> DecodeValue(RESOLUTION_TAG, v) == Failure(StructError)
    ensures DecodeValue(RESOLUTION_TAG, v).Success? <==> |v| == 9 && (v[8] == 3 || v[8] == 4)
    ensures |v| == 9 && v[8] != 3 && v[8] != 4 ==> DecodeValue(RESOLUTION_TAG, v) == Failure(KeyError)
    ensures |v| == 9 && v[8] == 3 ==>
      DecodeValue(RESOLUTION_TAG, v) == Success(Resolution(BE32(v[0..4]), BE32(v[4..8]), Dpi))
  {
  }
}
