/** Properties of parse_ipp_response: where the attribute loop ends normally,
    where it fails, what a group tag does, and how records and multi-valued
    attributes (first record named, later records with an empty name) are
    gathered. Records are written in the encoder's shape, IppEncoder.Attr. */
module IppDecoderLemmas {
  import opened Bytes
  import opened Utf8
  import opened Results
  import opened IppValues
  import opened IppEncoder
  import opened IppDecoder

  /** A tag that the loop reads as the value tag of an attribute record. */
  predicate IsValueTag(t: Byte) {
    t != END_OF_ATTRIBUTES_TAG && !IsGroupTag(t)
  }

  /** The three ways the attribute loop ends normally, keeping what it gathered:
      EOF where a tag is expected, the end-of-attributes tag (whatever follows it),
      and an empty name while there is no current name. */
  lemma NormalEnd(rest: seq<Byte>, current: Option<Name>, attrs: Attributes)
    requires AllLists(attrs)
    ensures |rest| == 0 ==> ParseAttributes(rest, current, attrs) == Success(attrs)
    ensures |rest| > 0 && rest[0] == END_OF_ATTRIBUTES_TAG ==> ParseAttributes(rest, current, attrs) == Success(attrs)
    ensures |rest| >= 3 && IsValueTag(rest[0]) && rest[1] == 0 && rest[2] == 0 && current.None? ==>
      ParseAttributes(rest, current, attrs) == Success(attrs)
  {
    if |rest| >= 3 && IsValueTag(rest[0]) {
      assert rest[1..][..2] == [rest[1], rest[2]];
    }
  }

  /** A group tag forgets the current name and otherwise changes nothing. */
  lemma GroupTagResetsName(g: Byte, rest: seq<Byte>, current: Option<Name>, attrs: Attributes)
    requires AllLists(attrs) && IsGroupTag(g)
    ensures ParseAttributes([g] + rest, current, attrs) == ParseAttributes(rest, None, attrs)
  {
    assert ([g] + rest)[1..] == rest;
  }

  /** So an empty-name record straight after a group tag stops the parse, even when
      an attribute came before the group tag. */
  lemma EmptyNameAfterGroupTagStops(g: Byte, tag: Byte, rest: seq<Byte>, current: Option<Name>, attrs: Attributes)
    requires AllLists(attrs) && IsGroupTag(g) && IsValueTag(tag)
    ensures ParseAttributes([g, tag, 0, 0] + rest, current, attrs) == Success(attrs)
  {
    GroupTagResetsName(g, [tag, 0, 0] + rest, current, attrs);
    assert [g, tag, 0, 0] + rest == [g] + ([tag, 0, 0] + rest);
    NormalEnd([tag, 0, 0] + rest, None, attrs);
  }

  lemma ConcatAssoc(a: seq<Byte>, b: seq<Byte>, c: seq<Byte>)
    ensures (a + b) + c == a + (b + c)
  {
  }

  /** Unfolding a multi-valued attribute of two or more values at its last record. */
  lemma MultiValuedLast(tag: Byte, name: Name, vs: seq<seq<Byte>>)
    requires Fits(name) && |vs| >= 2 && forall i | 0 <= i < |vs| :: Fits(vs[i])
    ensures MultiValued(tag, name, vs) == MultiValued(tag, name, vs[..|vs| - 1]) + Attr(tag, [], vs[|vs| - 1])
  {
  }

  /** The name a record is filed under: its own, or the current one when it is empty. */
  function RecordName(name: Name, current: Option<Name>): Name
    requires |name| > 0 || current.Some?
  {
    if |name| > 0 then name else current.value
  }

  /** Where the parts of a record followed by `rest` sit. */
  lemma AttrSlices(tag: Byte, name: Name, value: seq<Byte>, rest: seq<Byte>)
    requires Fits(name) && Fits(value)
    ensures var m := Attr(tag, name, value) + rest;
      var n, v := |name|, |value|;
      && m[0] == tag
      && m[1..][..2] == U16(n)
      && m[1..][2..][..n] == name
      && m[1..][2..][n..][..2] == U16(v)
      && m[1..][2..][n..][2..][..v] == value
      && m[1..][2..][n..][2..][v..] == rest
  {
    var m := Attr(tag, name, value) + rest;
    var n, v := |name|, |value|;
    assert m[1..][..2] == m[1..3];
    assert m[1..][2..] == m[3..];
    assert m[3..][..n] == name;
    assert m[3..][n..] == m[3 + n..];
    assert m[3 + n..][..2] == U16(v);
    assert m[3 + n..][2..] == m[5 + n..];
    assert m[5 + n..][..v] == value;
    assert m[5 + n..][v..] == rest;
  }

  /** One well-formed record is read as one value appended under its name. */
  lemma ParseRecordOfAttr(tag: Byte, name: Name, value: seq<Byte>, rest: seq<Byte>, current: Option<Name>)
    requires Fits(name) && Fits(value)
    requires |name| > 0 ==> IsUtf8(name)
    requires |name| > 0 || current.Some?
    requires DecodeValue(tag, value).Success?
    ensures ParseRecord(tag, (Attr(tag, name, value) + rest)[1..], current)
         == Success(Decoded(RecordName(name, current), DecodeValue(tag, value).value, rest))
  {
    var body := (Attr(tag, name, value) + rest)[1..];
    var n := |name|;
    AttrSlices(tag, name, value, rest);
    BE16RoundTrip(n);
    assert BE16(body[..2]) == n;
    var afterName := body[2..][n..];
    assert body[2..][..n] == name;
    var nm := RecordName(name, current);
    assert ParseRecord(tag, body, current) == ParseRecordValue(tag, nm, afterName);
    ParseRecordValueOfAttr(tag, nm, value, rest, afterName);
  }

  /** The value part of an encoded record is read as its decoded value, followed by `rest`. */
  lemma ParseRecordValueOfAttr(tag: Byte, name: Name, value: seq<Byte>, rest: seq<Byte>, afterName: seq<Byte>)
    requires Fits(value) && DecodeValue(tag, value).Success?
    requires |afterName| >= 2 && afterName[..2] == U16(|value|)
    requires |afterName[2..]| >= |value|
    requires afterName[2..][..|value|] == value && afterName[2..][|value|..] == rest
    ensures ParseRecordValue(tag, name, afterName) == Success(Decoded(name, DecodeValue(tag, value).value, rest))
  {
    BE16RoundTrip(|value|);
  }

  lemma ParseAttributesOfAttr(tag: Byte, name: Name, value: seq<Byte>, rest: seq<Byte>,
                              current: Option<Name>, attrs: Attributes)
    requires AllLists(attrs) && IsValueTag(tag)
    requires Fits(name) && Fits(value)
    requires |name| > 0 ==> IsUtf8(name)
    requires |name| > 0 || current.Some?
    requires DecodeValue(tag, value).Success?
    ensures var n := RecordName(name, current);
      ParseAttributes(Attr(tag, name, value) + rest, current, attrs)
        == ParseAttributes(rest, Some(n), Append(attrs, n, DecodeValue(tag, value).value))
  {
    ParseRecordOfAttr(tag, name, value, rest, current);
  }

  /** A record whose value does not decode fails the whole parse with the
      decoding error (struct.error, KeyError, IndexError or UnicodeDecodeError). */
  lemma DecodeFailurePropagates(tag: Byte, name: Name, value: seq<Byte>, rest: seq<Byte>,
                                current: Option<Name>, attrs: Attributes)
    requires AllLists(attrs) && IsValueTag(tag)
    requires Fits(name) && Fits(value)
    requires |name| > 0 ==> IsUtf8(name)
    requires |name| > 0 || current.Some?
    requires DecodeValue(tag, value).Failure?
    ensures ParseAttributes(Attr(tag, name, value) + rest, current, attrs)
         == Failure(DecodeValue(tag, value).error)
  {
    AttrSlices(tag, name, value, rest);
    BE16RoundTrip(|name|);
    BE16RoundTrip(|value|);
  }

  /** A record whose non-empty name is not well-formed UTF-8 fails the whole
      parse with UnicodeDecodeError. */
  lemma BadNameFails(tag: Byte, name: Name, value: seq<Byte>, rest: seq<Byte>,
                     current: Option<Name>, attrs: Attributes)
    requires AllLists(attrs) && IsValueTag(tag)
    requires Fits(name) && Fits(value)
    requires |name| > 0 && !IsUtf8(name)
    ensures ParseAttributes(Attr(tag, name, value) + rest, current, attrs) == Failure(UnicodeDecodeError)
  {
    AttrSlices(tag, name, value, rest);
    BE16RoundTrip(|name|);
  }

  /** Where the parts of a record sit, by index. */
  lemma AttrIndices(tag: Byte, name: Name, value: seq<Byte>)
    requires Fits(name) && Fits(value)
    ensures var m, n := Attr(tag, name, value), |name|;
      && m[1..3] == U16(n)
      && m[3..3 + n] == name
      && m[3 + n..5 + n] == U16(|value|)
      && m[5 + n..] == value
  {
  }

  /** EOF inside a record is a failure: every proper prefix of a well-formed record
      that holds at least the value tag fails with UnexpectedEof. */
  lemma TruncatedRecordFails(tag: Byte, name: Name, value: seq<Byte>, k: nat,
                             current: Option<Name>, attrs: Attributes)
    requires AllLists(attrs) && IsValueTag(tag)
    requires Fits(name) && Fits(value) && IsUtf8(name)
    requires |name| > 0 || current.Some?
    requires 1 <= k < |Attr(tag, name, value)|
    ensures ParseAttributes(Attr(tag, name, value)[..k], current, attrs) == Failure(UnexpectedEof)
  {
    var rec := Attr(tag, name, value);
    var n := |name|;
    AttrIndices(tag, name, value);
    var cut := rec[..k];
    assert cut[1..] == rec[1..k];
    if k >= 3 {
      SliceOfSlice(rec, 1, k, 2);
      BE16RoundTrip(n);
      if k >= 3 + n {
        SliceOfSlice(rec, 3, k, n);
        if k >= 5 + n {
          SliceOfSlice(rec, 3 + n, k, 2);
          BE16RoundTrip(|value|);
        }
      }
    }
  }

  /** Cutting a slice s[i..j] at l. */
  lemma SliceOfSlice(s: seq<Byte>, i: nat, j: nat, l: nat)
    requires i + l <= j <= |s|
    ensures s[i..j][..l] == s[i..i + l] && s[i..j][l..] == s[i + l..j]
  {
  }

  /** The attributes after appending each of `vs`, in order, under `name`. */
  function AppendAll(attrs: Attributes, name: Name, vs: seq<Value>): (r: Attributes)
    decreases |vs|
  {
    if |vs| == 0 then attrs
    else Append(AppendAll(attrs, name, vs[..|vs| - 1]), name, vs[|vs| - 1])
  }

  /** Appending keeps encounter order: the new values follow the old ones under `name`,
      and no other name changes. */
  lemma {:induction false} AppendAllValues(attrs: Attributes, name: Name, vs: seq<Value>)
    requires |vs| >= 1
    ensures var r := AppendAll(attrs, name, vs);
      && r.Keys == attrs.Keys + {name}
      && r[name] == Multi((if name in attrs then ValuesOf(attrs[name]) else []) + vs)
      && forall k | k in attrs && k != name :: r[k] == attrs[k]
    decreases |vs|
  {
    var last := |vs| - 1;
    if last > 0 {
      AppendAllValues(attrs, name, vs[..last]);
      assert vs[..last] + [vs[last]] == vs;
    }
  }

  /** Strings of `vs` decoded under a text-valued tag. */
  function Texts(vs: seq<seq<Byte>>): (r: seq<Value>)
    ensures |r| == |vs|
    ensures forall i | 0 <= i < |vs| :: r[i] == Text(vs[i])
  {
    seq(|vs|, i requires 0 <= i < |vs| => Text(vs[i]))
  }

  /** A tag whose values decode as strings. */
  predicate IsTextTag(tag: Byte) {
    IsValueTag(tag) && tag !in {BOOLEAN_TAG, ENUM_TAG, INTEGER_TAG, RESOLUTION_TAG}
  }

  lemma {:induction false} AppendAllKeepsLists(attrs: Attributes, name: Name, vs: seq<Value>)
    requires AllLists(attrs)
    ensures AllLists(AppendAll(attrs, name, vs))
    decreases |vs|
  {
    if |vs| > 0 {
      AppendAllKeepsLists(attrs, name, vs[..|vs| - 1]);
    }
  }

  /** A named single-valued string attribute is gathered as a one-element list. */
  lemma ParseTextAttr(tag: Byte, name: Name, value: seq<Byte>, rest: seq<Byte>,
                      current: Option<Name>, attrs: Attributes)
    requires AllLists(attrs) && IsTextTag(tag)
    requires Fits(name) && 0 < |name| && IsUtf8(name)
    requires Fits(value) && IsUtf8(value)
    ensures AllLists(Append(attrs, name, Text(value)))
    ensures ParseAttributes(Attr(tag, name, value) + rest, current, attrs)
         == ParseAttributes(rest, Some(name), Append(attrs, name, Text(value)))
  {
    ParseAttributesOfAttr(tag, name, value, rest, current, attrs);
  }

  /** A multi-valued attribute (a named record then empty-name records) is gathered
      as one list under its name, values in encounter order. */
  lemma {:induction false} ParseMultiValued(tag: Byte, name: Name, vs: seq<seq<Byte>>, rest: seq<Byte>,
                                            current: Option<Name>, attrs: Attributes)
    requires AllLists(attrs) && IsTextTag(tag)
    requires Fits(name) && 0 < |name| && IsUtf8(name)
    requires |vs| >= 1 && forall i | 0 <= i < |vs| :: Fits(vs[i]) && IsUtf8(vs[i])
    ensures AllLists(AppendAll(attrs, name, Texts(vs)))
    ensures ParseAttributes(MultiValued(tag, name, vs) + rest, current, attrs)
         == ParseAttributes(rest, Some(name), AppendAll(attrs, name, Texts(vs)))
    decreases |vs|
  {
    AppendAllKeepsLists(attrs, name, Texts(vs));
    if |vs| == 1 {
      assert MultiValued(tag, name, vs) == Attr(tag, name, vs[0]);
      ParseAttributesOfAttr(tag, name, vs[0], rest, current, attrs);
    } else {
      ParseMultiValuedStep(tag, name, vs, rest, current, attrs);
    }
  }

  lemma {:induction false} ParseMultiValuedStep(tag: Byte, name: Name, vs: seq<seq<Byte>>, rest: seq<Byte>,
                                                current: Option<Name>, attrs: Attributes)
    requires AllLists(attrs) && IsTextTag(tag)
    requires Fits(name) && 0 < |name| && IsUtf8(name)
    requires |vs| >= 2 && forall i | 0 <= i < |vs| :: Fits(vs[i]) && IsUtf8(vs[i])
    ensures AllLists(AppendAll(attrs, name, Texts(vs)))
    ensures ParseAttributes(MultiValued(tag, name, vs) + rest, current, attrs)
         == ParseAttributes(rest, Some(name), AppendAll(attrs, name, Texts(vs)))
    decreases |vs|, 0
  {
    var last := |vs| - 1;
    var init := vs[..last];
    var head, next := MultiValued(tag, name, init), Attr(tag, [], vs[last]);
    AppendAllKeepsLists(attrs, name, Texts(vs));
    MultiValuedLast(tag, name, vs);
    ConcatAssoc(head, next, rest);
    assert MultiValued(tag, name, vs) + rest == head + (next + rest);
    ParseMultiValued(tag, name, init, next + rest, current, attrs);
    var gathered := AppendAll(attrs, name, Texts(init));
    assert DecodeValue(tag, vs[last]) == Success(Text(vs[last]));
    ParseAttributesOfAttr(tag, [], vs[last], rest, Some(name), gathered);
    assert RecordName([], Some(name)) == name;
    AppendAllLast(attrs, name, vs);
    var all := Append(gathered, name, Text(vs[last]));
    calc {
      ParseAttributes(MultiValued(tag, name, vs) + rest, current, attrs);
      ParseAttributes(head + (next + rest), current, attrs);
      ParseAttributes(next + rest, Some(name), gathered);
      ParseAttributes(rest, Some(name), all);
    }
    assert AppendAll(attrs, name, Texts(vs)) == all;
  }

  /** Gathering all of `vs` is gathering all but the last, then appending the last. */
  lemma AppendAllLast(attrs: Attributes, name: Name, vs: seq<seq<Byte>>)
    requires |vs| >= 1
    ensures AppendAll(attrs, name, Texts(vs))
         == Append(AppendAll(attrs, name, Texts(vs[..|vs| - 1])), name, Text(vs[|vs| - 1]))
  {
    assert Texts(vs)[..|vs| - 1] == Texts(vs[..|vs| - 1]);
  }
}
