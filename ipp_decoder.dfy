/** parse_ipp_response: the response decoder (RFC 8010, sections 3.1 and 3.2).
    It reads the 8-byte header, then runs a state machine over tags that tracks
    the current group and the current attribute name, lets an empty name
    continue the previous attribute, and finally turns one-element lists into
    bare values. */
module IppDecoder {
  import opened Bytes
  import opened Utf8
  import opened Results
  import opened IppValues
  import opened BufferReaders

  type Name = seq<Byte>

  /** The `attributes` dict. */
  type Attributes = map<Name, Entry>

  /** The dict parse_ipp_response returns. */
  datatype Response = Response(version: string, statusCode: nat, requestId: nat, attributes: Attributes)

  function DigitChar(d: nat): (c: char)
    requires d < 10
    ensures '0' <= c <= '9' && c as int - '0' as int == d
  {
    ('0' as int + d) as char
  }

  predicate IsDigits(s: string) {
    forall i | 0 <= i < |s| :: '0' <= s[i] <= '9'
  }

  /** int(s) for a string of decimal digits. */
  function DigitsValue(s: string): nat
    requires IsDigits(s)
    decreases |s|
  {
    if |s| == 0 then 0 else DigitsValue(s[..|s| - 1]) * 10 + (s[|s| - 1] as int - '0' as int)
  }

  /** Writing one more digit after p multiplies p's value by ten and adds the digit. */
  lemma AppendDigit(p: string, c: char)
    requires IsDigits(p) && '0' <= c <= '9'
    ensures IsDigits(p + [c]) && DigitsValue(p + [c]) == DigitsValue(p) * 10 + (c as int - '0' as int)
  {
    assert (p + [c])[..|p|] == p;
  }

  /** str(n) for a non-negative int: decimal digits that int() reads back as n,
      with no leading zero. */
  function DecimalString(n: nat): (s: string)
    ensures |s| >= 1 && IsDigits(s) && DigitsValue(s) == n
    ensures s[0] == '0' ==> n == 0
    decreases n
  {
    var p := if n < 10 then "" else DecimalString(n / 10);
    var c := DigitChar(n % 10);
    AppendDigit(p, c);
    p + [c]
  }

  /** f'{version_major}.{version_minor}': the two numbers in decimal around one '.'. */
  function VersionString(major: Byte, minor: Byte): (r: string)
    ensures |r| >= 3
  {
    DecimalString(major) + "." + DecimalString(minor)
  }

  /** The version text reads back as the two numbers: the major number in
      decimal, one '.', then the minor number in decimal. */
  lemma VersionStringReadsBack(major: Byte, minor: Byte)
    ensures var r, k := VersionString(major, minor), |DecimalString(major)|;
      && k < |r| && r[k] == '.'
      && IsDigits(r[..k]) && DigitsValue(r[..k]) == major
      && IsDigits(r[k + 1..]) && DigitsValue(r[k + 1..]) == minor
  {
    var a, b := DecimalString(major), DecimalString(minor);
    JoinReadsBack(a, b, major, minor);
    assert VersionString(major, minor) == a + "." + b;
  }

  /** Two digit strings joined by '.' read back on either side of the '.'. */
  lemma JoinReadsBack(a: string, b: string, m: nat, n: nat)
    requires IsDigits(a) && DigitsValue(a) == m && IsDigits(b) && DigitsValue(b) == n
    ensures var r := a + "." + b;
      && |a| < |r| && r[|a|] == '.'
      && IsDigits(r[..|a|]) && DigitsValue(r[..|a|]) == m
      && IsDigits(r[|a| + 1..]) && DigitsValue(r[|a| + 1..]) == n
  {
    var r := a + "." + b;
    assert r[..|a|] == a && r[|a| + 1..] == b;
  }

  /** While parsing, every name maps to a non-empty Python list. */
  ghost predicate AllLists(attrs: Attributes) {
    forall k | k in attrs :: attrs[k].Multi? && |attrs[k].values| >= 1
  }

  /** The values a dict entry holds. */
  function ValuesOf(e: Entry): seq<Value> {
    match e
    case Single(v) => [v]
    case Multi(vs) => vs
  }

  /** `if name not in attributes: attributes[name] = []` then `.append(value)`. */
  function Append(attrs: Attributes, name: Name, v: Value): (r: Attributes)
    ensures r.Keys == attrs.Keys + {name}
    ensures r[name] == Multi((if name in attrs then ValuesOf(attrs[name]) else []) + [v])
    ensures forall k | k in attrs && k != name :: r[k] == attrs[k]
  {
    attrs[name := Multi((if name in attrs then ValuesOf(attrs[name]) else []) + [v])]
  }

  /** How one attribute record ends: the parse stops (an empty name with no current
      name), or a value was decoded for `name` and `rest` is what follows the record. */
  datatype RecordOutcome = Stop | Decoded(name: Name, value: Value, rest: seq<Byte>)

  /** One attribute record after its value tag `tag`: u16 name length, name (or an
      empty name that continues `current`), then the value part. */
  function ParseRecord(tag: Byte, body: seq<Byte>, current: Option<Name>): (r: Result<RecordOutcome>)
    ensures r.Success? && r.value.Decoded? ==> |r.value.rest| + 4 <= |body|
    ensures r.Success? && r.value.Decoded? && current.None? ==> |r.value.rest| + 5 <= |body|
    ensures r == Success(Stop) ==> current.None?
  {
    if |body| < 2 then Failure(UnexpectedEof)
    else
      var nameLen := BE16(body[..2]);
      var afterNameLen := body[2..];
      if nameLen > 0 && |afterNameLen| < nameLen then Failure(UnexpectedEof)
      else if nameLen > 0 && !IsUtf8(afterNameLen[..nameLen]) then Failure(UnicodeDecodeError)
      else if nameLen == 0 && current.None? then Success(Stop)   // "invalid response"
      else
        var name := if nameLen > 0 then afterNameLen[..nameLen] else current.value;
        ParseRecordValue(tag, name, afterNameLen[nameLen..])
  }

  /** The value part of a record for `name`: u16 value length, value. */
  function ParseRecordValue(tag: Byte, name: Name, afterName: seq<Byte>): (r: Result<RecordOutcome>)
    ensures r.Success? ==> r.value.Decoded? && r.value.name == name && |r.value.rest| + 2 <= |afterName|
  {
    if |afterName| < 2 then Failure(UnexpectedEof)
    else
      var valueLen := BE16(afterName[..2]);
      var afterValueLen := afterName[2..];
      if |afterValueLen| < valueLen then Failure(UnexpectedEof)
      else
        match DecodeValue(tag, afterValueLen[..valueLen])
        case Failure(e) => Failure(e)
        case Success(v) => Success(Decoded(name, v, afterValueLen[valueLen..]))
  }

  /** The attribute loop of parse_ipp_response, on the bytes not read yet, with
      the current name and the attributes gathered so far. EOF at a tag position,
      the end-of-attributes tag and an empty name without a current name end it
      normally with what has been gathered. */
  function ParseAttributes(rest: seq<Byte>, current: Option<Name>, attrs: Attributes): (r: Result<Attributes>)
    requires AllLists(attrs)
    ensures r.Success? ==> AllLists(r.value) && attrs.Keys <= r.value.Keys
    ensures r.Success? ==> forall k | k in attrs :: ValuesOf(attrs[k]) <= ValuesOf(r.value[k])
    decreases |rest|
  {
    if |rest| == 0 then Success(attrs)
    else if rest[0] == END_OF_ATTRIBUTES_TAG then Success(attrs)
    else if IsGroupTag(rest[0]) then ParseAttributes(rest[1..], None, attrs)
    else
      match ParseRecord(rest[0], rest[1..], current)
      case Failure(e) => Failure(e)
      case Success(Stop) => Success(attrs)
      case Success(Decoded(name, v, after)) => ParseAttributes(after, Some(name), Append(attrs, name, v))
  }

  function FlattenEntry(e: Entry): Entry {
    if e.Multi? && |e.values| == 1 then Single(e.values[0]) else e
  }

  /** The "flatten single-item lists" loop, as a function of the gathered dict:
      every entry keeps its values, and no one-element list remains. */
  function Flatten(attrs: Attributes): (r: Attributes)
    requires AllLists(attrs)
    ensures r.Keys == attrs.Keys
    ensures forall k | k in r :: ValuesOf(r[k]) == ValuesOf(attrs[k])
    ensures forall k | k in r :: r[k].Single? <==> |ValuesOf(attrs[k])| == 1
    ensures forall k | k in r && r[k].Multi? :: |r[k].values| >= 2
  {
    map k | k in attrs :: FlattenEntry(attrs[k])
  }

  /** What parse_ipp_response(data) returns or raises. */
  function ParseResponse(data: seq<Byte>): (r: Result<Response>)
    ensures |data| < 8 ==> r == Failure(UnexpectedEof)
    ensures r.Success? ==>
      && r.value.version == VersionString(data[0], data[1])
      && r.value.statusCode == BE16(data[2..4])
      && r.value.requestId == BE32(data[4..8])
  {
    if |data| < 8 then Failure(UnexpectedEof)
    else
      match ParseAttributes(data[8..], None, map[])
      case Failure(e) => Failure(e)
      case Success(attrs) =>
        Success(Response(VersionString(data[0], data[1]), BE16(data[2..4]), BE32(data[4..8]), Flatten(attrs)))
  }

  /** The flattening loop, rewriting the dict entry by entry. */
  method FlattenSingletons(attrs: Attributes) returns (out: Attributes)
    requires AllLists(attrs)
    ensures out == Flatten(attrs)
  {
    out := attrs;
    var pending := attrs.Keys;
    while pending != {}
      invariant pending <= attrs.Keys && out.Keys == attrs.Keys
      invariant forall k | k in attrs :: out[k] == if k in pending then attrs[k] else FlattenEntry(attrs[k])
      decreases pending
    {
      var k :| k in pending;
      var v := out[k];
      if v.Multi? && |v.values| == 1 {
        out := out[k := Single(v.values[0])];
      }
      pending := pending - {k};
    }
  }

  /** Lines of the attribute loop after the value tag has been read: the name
      length and the name, then the value part. */
  method ReadAttribute(buf: BufferReader, valueTag: Byte, currentName: Option<Name>)
    returns (r: Result<RecordOutcome>)
    requires buf.Valid()
    modifies buf
    ensures buf.Valid()
    ensures r == ParseRecord(valueTag, old(buf.Remaining()), currentName)
    ensures r.Success? && r.value.Decoded? ==> buf.Remaining() == r.value.rest
  {
    ghost var body := buf.Remaining();
    var nameLen :- buf.ReadU16();
    assert nameLen == BE16(body[..2]) && buf.Remaining() == body[2..];
    var name: Name;
    if nameLen > 0 {
      name :- buf.ReadUtf8(nameLen);
      assert name == body[2..][..nameLen] && buf.Remaining() == body[2..][nameLen..];
    } else if currentName.None? {
      return Success(Stop);
    } else {
      name := currentName.value;
      assert buf.Remaining() == body[2..][nameLen..];
    }
    assert ParseRecord(valueTag, body, currentName) == ParseRecordValue(valueTag, name, buf.Remaining());
    r := ReadRecordValue(buf, valueTag, name);
  }

  /** Lines of the attribute loop after the name: the value length, the value
      and its decoding. */
  method ReadRecordValue(buf: BufferReader, valueTag: Byte, name: Name)
    returns (r: Result<RecordOutcome>)
    requires buf.Valid()
    modifies buf
    ensures buf.Valid()
    ensures r == ParseRecordValue(valueTag, name, old(buf.Remaining()))
    ensures r.Success? ==> buf.Remaining() == r.value.rest
  {
    ghost var afterName := buf.Remaining();
    var valueLen :- buf.ReadU16();
    var valueBytes :- buf.Read(valueLen);
    assert valueBytes == afterName[2..][..valueLen];
    var value :- DecodeValue(valueTag, valueBytes);
    assert buf.Remaining() == afterName[2..][valueLen..];
    r := Success(Decoded(name, value, buf.Remaining()));
  }

  /** The attribute loop: tags, groups and records until the end tag, the end
      of the data or a nameless record with no attribute to continue. */
  method ReadAttributes(buf: BufferReader) returns (r: Result<Attributes>)
    requires buf.Valid()
    modifies buf
    ensures buf.Valid()
    ensures r == ParseAttributes(old(buf.Remaining()), None, map[])
    ensures r.Success? ==> AllLists(r.value)
  {
    var attributes: Attributes := map[];
    var currentName: Option<Name> := None;
    var currentGroup: Option<Byte> := None;
    ghost var goal := ParseAttributes(buf.Remaining(), None, map[]);
    while true
      invariant buf.Valid()
      invariant AllLists(attributes)
      invariant ParseAttributes(buf.Remaining(), currentName, attributes) == goal
      decreases |buf.Remaining()|
    {
      ghost var rest := buf.Remaining();
      var t := buf.ReadByte();
      if t.Failure? {
        assert |rest| == 0 && goal == Success(attributes);
        break;                                       // EOF at a tag position
      }
      var tag := t.value;
      assert tag == rest[0] && buf.Remaining() == rest[1..];
      if tag == END_OF_ATTRIBUTES_TAG {
        assert goal == Success(attributes);
        break;
      }
      if IsGroupTag(tag) {
        assert goal == ParseAttributes(rest[1..], None, attributes);
        currentGroup := Some(tag);
        currentName := None;
        continue;
      }
      ghost var step := ParseRecord(tag, rest[1..], currentName);
      assert goal == match step
        case Failure(e) => Failure(e)
        case Success(Stop) => Success(attributes)
        case Success(Decoded(name, v, after)) => ParseAttributes(after, Some(name), Append(attributes, name, v));
      var record :- ReadAttribute(buf, tag, currentName);
      if record.Stop? {
        break;                                       // invalid response
      }
      currentName := Some(record.name);
      attributes := Append(attributes, record.name, record.value);
    }
    r := Success(attributes);
  }

  /** Where the fields of an 8-byte header sit once its two reads are split. */
  lemma HeaderSlices(data: seq<Byte>)
    requires |data| >= 8
    ensures data[2..][..6] == data[2..8] && data[2..][6..] == data[8..]
    ensures data[2..8][..2] == data[2..4] && data[2..8][2..] == data[4..8]
  {
  }

  method ParseIppResponse(data: seq<Byte>) returns (r: Result<Response>)
    ensures r == ParseResponse(data)
  {
    var buf := new BufferReader(data);
    var versionBytes :- buf.Read(2);                 // read_struct('>BB')
    var version := VersionString(versionBytes[0], versionBytes[1]);
    var statusAndId :- buf.Read(6);                  // read_struct('>HI')
    var statusCode := BE16(statusAndId[..2]);
    var requestId := BE32(statusAndId[2..]);
    HeaderSlices(data);
    assert data[..2] == versionBytes && data[2..8] == statusAndId;
    assert buf.Remaining() == data[8..];
    assert ParseResponse(data) == match ParseAttributes(data[8..], None, map[])
      case Failure(e) => Failure(e)
      case Success(attrs) => Success(Response(version, statusCode, requestId, Flatten(attrs)));
    var attributes :- ReadAttributes(buf);
    var flat := FlattenSingletons(attributes);
    r := Success(Response(version, statusCode, requestId, flat));
  }
}
