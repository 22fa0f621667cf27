/** Round trips: parsing what the two builders write gives back the header
    fields and the attributes they wrote, single-valued ones as bare values and
    requested-attributes as its two-element list. */
module IppRoundTrip {
  import opened Bytes
  import opened Utf8
  import opened Results
  import opened IppValues
  import opened IppEncoder
  import opened IppDecoder
  import opened IppDecoderLemmas

  /** The attribute section of a Get-Printer-Attributes request, nested to the right. */
  function GpaTail(uri: seq<Byte>): seq<Byte>
    requires Fits(uri)
  {
    var r3: seq<Byte> := MultiValued(KEYWORD_TAG, REQUESTED_ATTRIBUTES_NAME, REQUESTED_ATTRIBUTES)
                         + [END_OF_ATTRIBUTES_TAG];
    var r2: seq<Byte> := Attr(URI_TAG, PRINTER_URI_NAME, uri) + r3;
    var r1: seq<Byte> := Attr(NATURAL_LANGUAGE_TAG, NATURAL_LANGUAGE_NAME, NATURAL_LANGUAGE) + r2;
    var r0: seq<Byte> := Attr(CHARSET_TAG, CHARSET_NAME, CHARSET) + r1;
    [OPERATION_ATTRIBUTES_TAG] + r0
  }


  lemma GpaFraming(uri: seq<Byte>)
    requires Fits(uri)
    ensures GetPrinterAttributesRequest(uri)
         == Success(Header(GET_PRINTER_ATTRIBUTES, GET_PRINTER_ATTRIBUTES_REQUEST_ID) + GpaTail(uri))
  {
    var h := Header(GET_PRINTER_ATTRIBUTES, GET_PRINTER_ATTRIBUTES_REQUEST_ID);
    var a1 := Attr(CHARSET_TAG, CHARSET_NAME, CHARSET);
    var a2 := Attr(NATURAL_LANGUAGE_TAG, NATURAL_LANGUAGE_NAME, NATURAL_LANGUAGE);
    var a3 := Attr(URI_TAG, PRINTER_URI_NAME, uri);
    var mv := MultiValued(KEYWORD_TAG, REQUESTED_ATTRIBUTES_NAME, REQUESTED_ATTRIBUTES);
    var r3 := mv + [END_OF_ATTRIBUTES_TAG];
    var r2 := a3 + r3;
    var r1 := a2 + r2;
    var r0 := a1 + r1;
    ConcatAssoc(h + [OPERATION_ATTRIBUTES_TAG] + a1 + a2 + a3, mv, [END_OF_ATTRIBUTES_TAG]);
    ConcatAssoc(h + [OPERATION_ATTRIBUTES_TAG] + a1 + a2, a3, r3);
    ConcatAssoc(h + [OPERATION_ATTRIBUTES_TAG] + a1, a2, r2);
    ConcatAssoc(h + [OPERATION_ATTRIBUTES_TAG], a1, r1);
    ConcatAssoc(h, [OPERATION_ATTRIBUTES_TAG], r0);
  }

  /** Header fields as the decoder reads them from any message starting with Header. */
  lemma ParseHeader(operation: nat, requestId: nat, tail: seq<Byte>)
    requires operation < TWO_16 && requestId < TWO_32
    ensures var m := Header(operation, requestId) + tail;
      && m[0] == VERSION_MAJOR && m[1] == VERSION_MINOR
      && BE16(m[2..4]) == operation && BE32(m[4..8]) == requestId
      && m[8..] == tail
  {
    var h := Header(operation, requestId);
    var m := h + tail;
    assert m[2..4] == U16(operation);
    assert m[4..8] == U32(requestId);
    BE16RoundTrip(operation);
    BE32RoundTrip(requestId);
  }

  lemma HeaderConstantsAreUtf8()
    ensures IsUtf8(CHARSET_NAME) && IsUtf8(CHARSET) && IsUtf8(NATURAL_LANGUAGE)
  {
    assert IsAscii("attributes-charset");
    assert IsAscii("utf-8");
    assert IsAscii("en");
    AsciiStringIsUtf8("attributes-charset");
    AsciiStringIsUtf8("utf-8");
    AsciiStringIsUtf8("en");
  }

  lemma NameConstantsAreUtf8()
    ensures IsUtf8(NATURAL_LANGUAGE_NAME) && IsUtf8(PRINTER_URI_NAME)
  {
    assert IsAscii("attributes-natural-language");
    assert IsAscii("printer-uri");
    AsciiStringIsUtf8("attributes-natural-language");
    AsciiStringIsUtf8("printer-uri");
  }

  lemma RequestedNamesAreUtf8()
    ensures IsUtf8(DOCUMENT_FORMAT_SUPPORTED) && IsUtf8(PRINTER_RESOLUTION_DEFAULT)
  {
    assert IsAscii("document-format-supported");
    assert IsAscii("printer-resolution-default");
    AsciiStringIsUtf8("document-format-supported");
    AsciiStringIsUtf8("printer-resolution-default");
  }

  lemma RequestedConstantsAreUtf8()
    ensures IsUtf8(REQUESTED_ATTRIBUTES_NAME)
    ensures IsUtf8(DOCUMENT_FORMAT_SUPPORTED) && IsUtf8(PRINTER_RESOLUTION_DEFAULT)
  {
    assert IsAscii("requested-attributes");
    AsciiStringIsUtf8("requested-attributes");
    RequestedNamesAreUtf8();
  }

  lemma JobConstantsAreUtf8()
    ensures IsUtf8(DOCUMENT_FORMAT_NAME) && IsUtf8(JOB_NAME_NAME) && IsUtf8(JOB_NAME_PREFIX)
  {
    assert IsAscii("document-format");
    assert IsAscii("job-name");
    assert IsAscii("Cupless job: ");
    AsciiStringIsUtf8("document-format");
    AsciiStringIsUtf8("job-name");
    AsciiStringIsUtf8("Cupless job: ");
  }

  lemma ConstantsAreUtf8()
    ensures IsUtf8(CHARSET_NAME) && IsUtf8(CHARSET)
    ensures IsUtf8(NATURAL_LANGUAGE_NAME) && IsUtf8(NATURAL_LANGUAGE)
    ensures IsUtf8(PRINTER_URI_NAME) && IsUtf8(REQUESTED_ATTRIBUTES_NAME)
    ensures IsUtf8(DOCUMENT_FORMAT_SUPPORTED) && IsUtf8(PRINTER_RESOLUTION_DEFAULT)
    ensures IsUtf8(DOCUMENT_FORMAT_NAME) && IsUtf8(JOB_NAME_NAME) && IsUtf8(JOB_NAME_PREFIX)
  {
    HeaderConstantsAreUtf8();
    NameConstantsAreUtf8();
    RequestedConstantsAreUtf8();
    JobConstantsAreUtf8();
  }

  /** The dict gathered from a Get-Printer-Attributes request, before flattening. */
  function GpaGathered(uri: seq<Byte>): Attributes {
    var a := Append(Append(Append(map[], CHARSET_NAME, Text(CHARSET)),
                           NATURAL_LANGUAGE_NAME, Text(NATURAL_LANGUAGE)),
                    PRINTER_URI_NAME, Text(uri));
    AppendAll(a, REQUESTED_ATTRIBUTES_NAME, Texts(REQUESTED_ATTRIBUTES))
  }

  /** An operation-attributes group tag, three named string attributes, a
      multi-valued attribute and the end tag, over any names and values. */
  function ThreeThenList(t1: Byte, n1: Name, v1: seq<Byte>, t2: Byte, n2: Name, v2: seq<Byte>,
                         t3: Byte, n3: Name, v3: seq<Byte>, t4: Byte, n4: Name, vs: seq<seq<Byte>>): seq<Byte>
    requires Fits(n1) && Fits(v1) && Fits(n2) && Fits(v2) && Fits(n3) && Fits(v3) && Fits(n4)
    requires forall i | 0 <= i < |vs| :: Fits(vs[i])
  {
    var r3: seq<Byte> := MultiValued(t4, n4, vs) + [END_OF_ATTRIBUTES_TAG];
    var r2: seq<Byte> := Attr(t3, n3, v3) + r3;
    var r1: seq<Byte> := Attr(t2, n2, v2) + r2;
    var r0: seq<Byte> := Attr(t1, n1, v1) + r1;
    [OPERATION_ATTRIBUTES_TAG] + r0
  }

  /** Such a section gathers each name's values into a list, in encounter order. */
  lemma {:induction false} ParseThreeThenList(t1: Byte, n1: Name, v1: seq<Byte>, t2: Byte, n2: Name, v2: seq<Byte>,
                           t3: Byte, n3: Name, v3: seq<Byte>, t4: Byte, n4: Name, vs: seq<seq<Byte>>)
    requires IsTextTag(t1) && IsTextTag(t2) && IsTextTag(t3) && IsTextTag(t4)
    requires Fits(n1) && 0 < |n1| && IsUtf8(n1) && Fits(v1) && IsUtf8(v1)
    requires Fits(n2) && 0 < |n2| && IsUtf8(n2) && Fits(v2) && IsUtf8(v2)
    requires Fits(n3) && 0 < |n3| && IsUtf8(n3) && Fits(v3) && IsUtf8(v3)
    requires Fits(n4) && 0 < |n4| && IsUtf8(n4)
    requires |vs| >= 1 && forall i | 0 <= i < |vs| :: Fits(vs[i]) && IsUtf8(vs[i])
    ensures var g := AppendAll(Append(Append(Append(map[], n1, Text(v1)), n2, Text(v2)), n3, Text(v3)), n4, Texts(vs));
      && AllLists(g)
      && ParseAttributes(ThreeThenList(t1, n1, v1, t2, n2, v2, t3, n3, v3, t4, n4, vs), None, map[]) == Success(g)
  {
    var r3 := MultiValued(t4, n4, vs) + [END_OF_ATTRIBUTES_TAG];
    var r2 := Attr(t3, n3, v3) + r3;
    var r1 := Attr(t2, n2, v2) + r2;
    var r0 := Attr(t1, n1, v1) + r1;
    GroupTagResetsName(OPERATION_ATTRIBUTES_TAG, r0, None, map[]);
    var s1 := Append(map[], n1, Text(v1));
    ParseTextAttr(t1, n1, v1, r1, None, map[]);
    var s2 := Append(s1, n2, Text(v2));
    ParseTextAttr(t2, n2, v2, r2, Some(n1), s1);
    var s3 := Append(s2, n3, Text(v3));
    ParseTextAttr(t3, n3, v3, r3, Some(n2), s2);
    ParseMultiValued(t4, n4, vs, [END_OF_ATTRIBUTES_TAG], Some(n3), s3);
    NormalEnd([END_OF_ATTRIBUTES_TAG], Some(n4), AppendAll(s3, n4, Texts(vs)));
  }

  lemma RequestedAttributesAreText()
    ensures |REQUESTED_ATTRIBUTES| == 2
    ensures forall i | 0 <= i < |REQUESTED_ATTRIBUTES| ::
      Fits(REQUESTED_ATTRIBUTES[i]) && IsUtf8(REQUESTED_ATTRIBUTES[i])
  {
    RequestedNamesAreUtf8();
    assert |DOCUMENT_FORMAT_SUPPORTED| == 25 && |PRINTER_RESOLUTION_DEFAULT| == 26;
    PairOfTexts(DOCUMENT_FORMAT_SUPPORTED, PRINTER_RESOLUTION_DEFAULT);
  }

  lemma PairOfTexts(a: seq<Byte>, b: seq<Byte>)
    requires Fits(a) && IsUtf8(a) && Fits(b) && IsUtf8(b)
    ensures forall i | 0 <= i < |[a, b]| :: Fits([a, b][i]) && IsUtf8([a, b][i])
  {
  }

  lemma GpaAttributes(uri: seq<Byte>)
    requires Fits(uri) && IsUtf8(uri)
    ensures AllLists(GpaGathered(uri))
    ensures ParseAttributes(GpaTail(uri), None, map[]) == Success(GpaGathered(uri))
  {
    HeaderConstantsAreUtf8();
    NameConstantsAreUtf8();
    RequestedConstantsAreUtf8();
    RequestedAttributesAreText();
    assert |CHARSET_NAME| == 18 && |NATURAL_LANGUAGE_NAME| == 27;
    assert |PRINTER_URI_NAME| == 11 && |REQUESTED_ATTRIBUTES_NAME| == 20;
    assert |CHARSET| == 5 && |NATURAL_LANGUAGE| == 2;
    ParseThreeThenList(CHARSET_TAG, CHARSET_NAME, CHARSET,
                       NATURAL_LANGUAGE_TAG, NATURAL_LANGUAGE_NAME, NATURAL_LANGUAGE,
                       URI_TAG, PRINTER_URI_NAME, uri,
                       KEYWORD_TAG, REQUESTED_ATTRIBUTES_NAME, REQUESTED_ATTRIBUTES);
    assert GpaTail(uri) == ThreeThenList(CHARSET_TAG, CHARSET_NAME, CHARSET,
                       NATURAL_LANGUAGE_TAG, NATURAL_LANGUAGE_NAME, NATURAL_LANGUAGE,
                       URI_TAG, PRINTER_URI_NAME, uri,
                       KEYWORD_TAG, REQUESTED_ATTRIBUTES_NAME, REQUESTED_ATTRIBUTES);
  }

  /** The attributes parse_ipp_response returns for a Get-Printer-Attributes request. */
  function GpaAttributesExpected(uri: seq<Byte>): Attributes {
    map[CHARSET_NAME := Single(Text(CHARSET)),
        NATURAL_LANGUAGE_NAME := Single(Text(NATURAL_LANGUAGE)),
        PRINTER_URI_NAME := Single(Text(uri)),
        REQUESTED_ATTRIBUTES_NAME := Multi([Text(DOCUMENT_FORMAT_SUPPORTED), Text(PRINTER_RESOLUTION_DEFAULT)])]
  }

  /** Appending to a name not yet present starts a one-element list. */
  lemma AppendFresh(attrs: Attributes, name: Name, v: Value)
    requires name !in attrs
    ensures Append(attrs, name, v) == attrs[name := Multi([v])]
  {
    assert [] + [v] == [v];
  }

  /** Flattening commutes with storing one non-empty list. */
  lemma FlattenUpdate(attrs: Attributes, name: Name, e: Entry)
    requires AllLists(attrs) && e.Multi? && |e.values| >= 1
    ensures AllLists(attrs[name := e])
    ensures Flatten(attrs[name := e]) == Flatten(attrs)[name := FlattenEntry(e)]
  {
    var l := Flatten(attrs[name := e]);
    var r := Flatten(attrs)[name := FlattenEntry(e)];
    assert l.Keys == r.Keys;
  }

  /** Three appends and a two-value list under four different names make three
      one-element lists and the two-element list. */
  lemma {:induction false} AppendThreeThenList(n1: Name, v1: Value, n2: Name, v2: Value, n3: Name, v3: Value,
                                               n4: Name, w1: Value, w2: Value)
    requires n1 != n2 && n1 != n3 && n1 != n4 && n2 != n3 && n2 != n4 && n3 != n4
    ensures AppendAll(Append(Append(Append(map[], n1, v1), n2, v2), n3, v3), n4, [w1, w2])
         == map[n1 := Multi([v1]), n2 := Multi([v2]), n3 := Multi([v3]), n4 := Multi([w1, w2])]
  {
    var m: Attributes := map[];
    AppendFresh(m, n1, v1);
    var a1 := m[n1 := Multi([v1])];
    AppendFresh(a1, n2, v2);
    var a2 := a1[n2 := Multi([v2])];
    AppendFresh(a2, n3, v3);
    var a3 := a2[n3 := Multi([v3])];
    var ws := [w1, w2];
    assert ws[..1] == [w1] && ws[..1][..0] == [] && ws[..|ws| - 1] == ws[..1];
    assert AppendAll(a3, n4, ws[..1][..0]) == a3;
    AppendFresh(a3, n4, w1);
    var b1 := a3[n4 := Multi([w1])];
    assert AppendAll(a3, n4, ws[..1]) == b1;
    assert [w1] + [w2] == ws;
  }

  /** Three one-element lists and a two-element list flatten to three bare values
      and the list. */
  lemma {:induction false} FlattenThreeThenList(n1: Name, v1: Value, n2: Name, v2: Value, n3: Name, v3: Value,
                                                n4: Name, w1: Value, w2: Value)
    ensures var g := map[n1 := Multi([v1]), n2 := Multi([v2]), n3 := Multi([v3]), n4 := Multi([w1, w2])];
      && AllLists(g)
      && Flatten(g) == map[n1 := Single(v1), n2 := Single(v2), n3 := Single(v3), n4 := Multi([w1, w2])]
  {
    var m: Attributes := map[];
    assert Flatten(m) == map[];
    FlattenUpdate(m, n1, Multi([v1]));
    var a1 := m[n1 := Multi([v1])];
    FlattenUpdate(a1, n2, Multi([v2]));
    var a2 := a1[n2 := Multi([v2])];
    FlattenUpdate(a2, n3, Multi([v3]));
    var a3 := a2[n3 := Multi([v3])];
    FlattenUpdate(a3, n4, Multi([w1, w2]));
  }

  lemma GpaFlatten(uri: seq<Byte>)
    ensures AllLists(GpaGathered(uri))
    ensures Flatten(GpaGathered(uri)) == GpaAttributesExpected(uri)
  {
    assert |CHARSET_NAME| == 18 && |NATURAL_LANGUAGE_NAME| == 27;
    assert |PRINTER_URI_NAME| == 11 && |REQUESTED_ATTRIBUTES_NAME| == 20;
    assert Texts(REQUESTED_ATTRIBUTES) == [Text(DOCUMENT_FORMAT_SUPPORTED), Text(PRINTER_RESOLUTION_DEFAULT)];
    AppendThreeThenList(CHARSET_NAME, Text(CHARSET), NATURAL_LANGUAGE_NAME, Text(NATURAL_LANGUAGE),
                        PRINTER_URI_NAME, Text(uri), REQUESTED_ATTRIBUTES_NAME,
                        Text(DOCUMENT_FORMAT_SUPPORTED), Text(PRINTER_RESOLUTION_DEFAULT));
    FlattenThreeThenList(CHARSET_NAME, Text(CHARSET), NATURAL_LANGUAGE_NAME, Text(NATURAL_LANGUAGE),
                         PRINTER_URI_NAME, Text(uri), REQUESTED_ATTRIBUTES_NAME,
                         Text(DOCUMENT_FORMAT_SUPPORTED), Text(PRINTER_RESOLUTION_DEFAULT));
  }


  lemma VersionTwoZero()
    ensures VersionString(2, 0) == "2.0"
  {
    assert DecimalString(2) == "2";
    assert DecimalString(0) == "0";
  }

  /** Parsing build_ipp_get_printer_attributes(uri) gives version "2.0", status code 11
      (the operation id, read where a response has its status), request id 1, and
      charset, language and printer-uri as bare values with requested-attributes as
      the list of the two names asked for. */
  lemma GetPrinterAttributesRoundTrip(uri: seq<Byte>)
    requires |uri| < TWO_16 && IsUtf8(uri)
    ensures GetPrinterAttributesRequest(uri).Success?
    ensures ParseResponse(GetPrinterAttributesRequest(uri).value)
         == Success(Response("2.0", 11, 1, GpaAttributesExpected(uri)))
  {
    GpaFraming(uri);
    ParseHeader(GET_PRINTER_ATTRIBUTES, GET_PRINTER_ATTRIBUTES_REQUEST_ID, GpaTail(uri));
    GpaAttributes(uri);
    GpaFlatten(uri);
    VersionTwoZero();
  }


  /** The attribute section of a Print-Job request (and the document behind it),
      nested to the right. */
  function PjTail(uri: seq<Byte>, format: seq<Byte>, jobName: seq<Byte>, document: seq<Byte>): seq<Byte>
    requires Fits(uri) && Fits(format) && Fits(jobName)
  {
    var r5: seq<Byte> := [END_OF_ATTRIBUTES_TAG] + document;
    var r4: seq<Byte> := Attr(NAME_TAG, JOB_NAME_NAME, jobName) + r5;
    var r3: seq<Byte> := Attr(KEYWORD_TAG, DOCUMENT_FORMAT_NAME, format) + r4;
    var r2: seq<Byte> := Attr(URI_TAG, PRINTER_URI_NAME, uri) + r3;
    var r1: seq<Byte> := Attr(NATURAL_LANGUAGE_TAG, NATURAL_LANGUAGE_NAME, NATURAL_LANGUAGE) + r2;
    var r0: seq<Byte> := Attr(CHARSET_TAG, CHARSET_NAME, CHARSET) + r1;
    [OPERATION_ATTRIBUTES_TAG] + r0
  }


  lemma PjFraming(uri: seq<Byte>, format: seq<Byte>, document: seq<Byte>, requestId: nat, timestamp: seq<Byte>)
    requires 1 <= requestId <= MAX_PRINT_JOB_REQUEST_ID
    requires Fits(uri) && Fits(format) && Fits(JobName(timestamp))
    ensures PrintJobRequest(uri, format, document, requestId, timestamp)
         == Success(Header(PRINT_JOB, requestId) + PjTail(uri, format, JobName(timestamp), document))
  {
    var h := Header(PRINT_JOB, requestId);
    var a1 := Attr(CHARSET_TAG, CHARSET_NAME, CHARSET);
    var a2 := Attr(NATURAL_LANGUAGE_TAG, NATURAL_LANGUAGE_NAME, NATURAL_LANGUAGE);
    var a3 := Attr(URI_TAG, PRINTER_URI_NAME, uri);
    var a4 := Attr(KEYWORD_TAG, DOCUMENT_FORMAT_NAME, format);
    var a5 := Attr(NAME_TAG, JOB_NAME_NAME, JobName(timestamp));
    var r5 := [END_OF_ATTRIBUTES_TAG] + document;
    var r4 := a5 + r5;
    var r3 := a4 + r4;
    var r2 := a3 + r3;
    var r1 := a2 + r2;
    var r0 := a1 + r1;
    var p := h + [OPERATION_ATTRIBUTES_TAG];
    ConcatAssoc(p + a1 + a2 + a3 + a4 + a5, [END_OF_ATTRIBUTES_TAG], document);
    ConcatAssoc(p + a1 + a2 + a3 + a4, a5, r5);
    ConcatAssoc(p + a1 + a2 + a3, a4, r4);
    ConcatAssoc(p + a1 + a2, a3, r3);
    ConcatAssoc(p + a1, a2, r2);
    ConcatAssoc(p, a1, r1);
    ConcatAssoc(h, [OPERATION_ATTRIBUTES_TAG], r0);
  }

  /** An operation-attributes group tag, five named string attributes, the end tag
      and any trailing bytes, over any names and values. */
  function FiveThenEnd(t1: Byte, n1: Name, v1: seq<Byte>, t2: Byte, n2: Name, v2: seq<Byte>,
                       t3: Byte, n3: Name, v3: seq<Byte>, t4: Byte, n4: Name, v4: seq<Byte>,
                       t5: Byte, n5: Name, v5: seq<Byte>, trailer: seq<Byte>): seq<Byte>
    requires Fits(n1) && Fits(v1) && Fits(n2) && Fits(v2) && Fits(n3) && Fits(v3)
    requires Fits(n4) && Fits(v4) && Fits(n5) && Fits(v5)
  {
    var r5: seq<Byte> := [END_OF_ATTRIBUTES_TAG] + trailer;
    var r4: seq<Byte> := Attr(t5, n5, v5) + r5;
    var r3: seq<Byte> := Attr(t4, n4, v4) + r4;
    var r2: seq<Byte> := Attr(t3, n3, v3) + r3;
    var r1: seq<Byte> := Attr(t2, n2, v2) + r2;
    var r0: seq<Byte> := Attr(t1, n1, v1) + r1;
    [OPERATION_ATTRIBUTES_TAG] + r0
  }

  /** Such a section gathers each attribute as a one-element list; the trailing
      bytes are not read. */
  lemma {:induction false} ParseFiveThenEnd(t1: Byte, n1: Name, v1: seq<Byte>, t2: Byte, n2: Name, v2: seq<Byte>,
                         t3: Byte, n3: Name, v3: seq<Byte>, t4: Byte, n4: Name, v4: seq<Byte>,
                         t5: Byte, n5: Name, v5: seq<Byte>, trailer: seq<Byte>)
    requires IsTextTag(t1) && IsTextTag(t2) && IsTextTag(t3) && IsTextTag(t4) && IsTextTag(t5)
    requires Fits(n1) && 0 < |n1| && IsUtf8(n1) && Fits(v1) && IsUtf8(v1)
    requires Fits(n2) && 0 < |n2| && IsUtf8(n2) && Fits(v2) && IsUtf8(v2)
    requires Fits(n3) && 0 < |n3| && IsUtf8(n3) && Fits(v3) && IsUtf8(v3)
    requires Fits(n4) && 0 < |n4| && IsUtf8(n4) && Fits(v4) && IsUtf8(v4)
    requires Fits(n5) && 0 < |n5| && IsUtf8(n5) && Fits(v5) && IsUtf8(v5)
    ensures var g := Append(Append(Append(Append(Append(map[], n1, Text(v1)), n2, Text(v2)),
                                          n3, Text(v3)), n4, Text(v4)), n5, Text(v5));
      && AllLists(g)
      && ParseAttributes(FiveThenEnd(t1, n1, v1, t2, n2, v2, t3, n3, v3, t4, n4, v4, t5, n5, v5, trailer),
                         None, map[])
         == Success(g)
  {
    var r5 := [END_OF_ATTRIBUTES_TAG] + trailer;
    var r4 := Attr(t5, n5, v5) + r5;
    var r3 := Attr(t4, n4, v4) + r4;
    var r2 := Attr(t3, n3, v3) + r3;
    var r1 := Attr(t2, n2, v2) + r2;
    var r0 := Attr(t1, n1, v1) + r1;
    GroupTagResetsName(OPERATION_ATTRIBUTES_TAG, r0, None, map[]);
    var s1 := Append(map[], n1, Text(v1));
    ParseTextAttr(t1, n1, v1, r1, None, map[]);
    var s2 := Append(s1, n2, Text(v2));
    ParseTextAttr(t2, n2, v2, r2, Some(n1), s1);
    var s3 := Append(s2, n3, Text(v3));
    ParseTextAttr(t3, n3, v3, r3, Some(n2), s2);
    var s4 := Append(s3, n4, Text(v4));
    ParseTextAttr(t4, n4, v4, r4, Some(n3), s3);
    var s5 := Append(s4, n5, Text(v5));
    ParseTextAttr(t5, n5, v5, r5, Some(n4), s4);
    NormalEnd(r5, Some(n5), s5);
  }

  /** The dict gathered from a Print-Job request, before flattening. */
  function PjGathered(uri: seq<Byte>, format: seq<Byte>, jobName: seq<Byte>): Attributes {
    Append(Append(Append(Append(Append(map[], CHARSET_NAME, Text(CHARSET)),
                                NATURAL_LANGUAGE_NAME, Text(NATURAL_LANGUAGE)),
                         PRINTER_URI_NAME, Text(uri)),
                  DOCUMENT_FORMAT_NAME, Text(format)),
           JOB_NAME_NAME, Text(jobName))
  }

  lemma PjAttributes(uri: seq<Byte>, format: seq<Byte>, jobName: seq<Byte>, document: seq<Byte>)
    requires Fits(uri) && IsUtf8(uri) && Fits(format) && IsUtf8(format)
    requires Fits(jobName) && IsUtf8(jobName)
    ensures AllLists(PjGathered(uri, format, jobName))
    ensures ParseAttributes(PjTail(uri, format, jobName, document), None, map[])
         == Success(PjGathered(uri, format, jobName))
  {
    HeaderConstantsAreUtf8();
    NameConstantsAreUtf8();
    JobConstantsAreUtf8();
    assert |CHARSET_NAME| == 18 && |NATURAL_LANGUAGE_NAME| == 27 && |PRINTER_URI_NAME| == 11;
    assert |DOCUMENT_FORMAT_NAME| == 15 && |JOB_NAME_NAME| == 8;
    assert |CHARSET| == 5 && |NATURAL_LANGUAGE| == 2;
    ParseFiveThenEnd(CHARSET_TAG, CHARSET_NAME, CHARSET,
                     NATURAL_LANGUAGE_TAG, NATURAL_LANGUAGE_NAME, NATURAL_LANGUAGE,
                     URI_TAG, PRINTER_URI_NAME, uri,
                     KEYWORD_TAG, DOCUMENT_FORMAT_NAME, format,
                     NAME_TAG, JOB_NAME_NAME, jobName, document);
    assert PjTail(uri, format, jobName, document)
        == FiveThenEnd(CHARSET_TAG, CHARSET_NAME, CHARSET,
                       NATURAL_LANGUAGE_TAG, NATURAL_LANGUAGE_NAME, NATURAL_LANGUAGE,
                       URI_TAG, PRINTER_URI_NAME, uri,
                       KEYWORD_TAG, DOCUMENT_FORMAT_NAME, format,
                       NAME_TAG, JOB_NAME_NAME, jobName, document);
  }

  /** The attributes parse_ipp_response returns for a Print-Job request. */
  function PjAttributesExpected(uri: seq<Byte>, format: seq<Byte>, jobName: seq<Byte>): Attributes {
    map[CHARSET_NAME := Single(Text(CHARSET)),
        NATURAL_LANGUAGE_NAME := Single(Text(NATURAL_LANGUAGE)),
        PRINTER_URI_NAME := Single(Text(uri)),
        DOCUMENT_FORMAT_NAME := Single(Text(format)),
        JOB_NAME_NAME := Single(Text(jobName))]
  }

  /** Five appends under five different names make five one-element lists. */
  lemma {:induction false} AppendFive(n1: Name, v1: Value, n2: Name, v2: Value, n3: Name, v3: Value,
                                      n4: Name, v4: Value, n5: Name, v5: Value)
    requires n1 != n2 && n1 != n3 && n1 != n4 && n1 != n5
    requires n2 != n3 && n2 != n4 && n2 != n5 && n3 != n4 && n3 != n5 && n4 != n5
    ensures Append(Append(Append(Append(Append(map[], n1, v1), n2, v2), n3, v3), n4, v4), n5, v5)
         == map[n1 := Multi([v1]), n2 := Multi([v2]), n3 := Multi([v3]), n4 := Multi([v4]), n5 := Multi([v5])]
  {
    var m: Attributes := map[];
    AppendFresh(m, n1, v1);
    var a1 := m[n1 := Multi([v1])];
    AppendFresh(a1, n2, v2);
    var a2 := a1[n2 := Multi([v2])];
    AppendFresh(a2, n3, v3);
    var a3 := a2[n3 := Multi([v3])];
    AppendFresh(a3, n4, v4);
    var a4 := a3[n4 := Multi([v4])];
    AppendFresh(a4, n5, v5);
  }

  /** Five one-element lists flatten to five bare values. */
  lemma {:induction false} FlattenFive(n1: Name, v1: Value, n2: Name, v2: Value, n3: Name, v3: Value,
                                       n4: Name, v4: Value, n5: Name, v5: Value)
    ensures var g := map[n1 := Multi([v1]), n2 := Multi([v2]), n3 := Multi([v3]), n4 := Multi([v4]), n5 := Multi([v5])];
      && AllLists(g)
      && Flatten(g) == map[n1 := Single(v1), n2 := Single(v2), n3 := Single(v3), n4 := Single(v4), n5 := Single(v5)]
  {
    var m: Attributes := map[];
    assert Flatten(m) == map[];
    FlattenUpdate(m, n1, Multi([v1]));
    var a1 := m[n1 := Multi([v1])];
    FlattenUpdate(a1, n2, Multi([v2]));
    var a2 := a1[n2 := Multi([v2])];
    FlattenUpdate(a2, n3, Multi([v3]));
    var a3 := a2[n3 := Multi([v3])];
    FlattenUpdate(a3, n4, Multi([v4]));
    var a4 := a3[n4 := Multi([v4])];
    FlattenUpdate(a4, n5, Multi([v5]));
  }

  lemma PjFlatten(uri: seq<Byte>, format: seq<Byte>, jobName: seq<Byte>)
    ensures AllLists(PjGathered(uri, format, jobName))
    ensures Flatten(PjGathered(uri, format, jobName)) == PjAttributesExpected(uri, format, jobName)
  {
    assert |CHARSET_NAME| == 18 && |NATURAL_LANGUAGE_NAME| == 27 && |PRINTER_URI_NAME| == 11;
    assert |DOCUMENT_FORMAT_NAME| == 15 && |JOB_NAME_NAME| == 8;
    AppendFive(CHARSET_NAME, Text(CHARSET), NATURAL_LANGUAGE_NAME, Text(NATURAL_LANGUAGE),
               PRINTER_URI_NAME, Text(uri), DOCUMENT_FORMAT_NAME, Text(format), JOB_NAME_NAME, Text(jobName));
    FlattenFive(CHARSET_NAME, Text(CHARSET), NATURAL_LANGUAGE_NAME, Text(NATURAL_LANGUAGE),
                PRINTER_URI_NAME, Text(uri), DOCUMENT_FORMAT_NAME, Text(format), JOB_NAME_NAME, Text(jobName));
  }



  /** Parsing build_ipp_print_job(...) gives version "2.0", status code 2 (the
      operation id), the request id it drew, and the five operation attributes as
      bare values, the job name being 'Cupless job: ' then the timestamp; the
      document bytes after the end tag are not read. */
  lemma PrintJobRoundTrip(uri: seq<Byte>, format: seq<Byte>, document: seq<Byte>,
                          requestId: nat, timestamp: seq<Byte>)
    requires 1 <= requestId <= MAX_PRINT_JOB_REQUEST_ID
    requires |uri| < TWO_16 && IsUtf8(uri) && |format| < TWO_16 && IsUtf8(format)
    requires 13 + |timestamp| < TWO_16 && IsUtf8(timestamp)
    ensures PrintJobRequest(uri, format, document, requestId, timestamp).Success?
    ensures ParseResponse(PrintJobRequest(uri, format, document, requestId, timestamp).value)
         == Success(Response("2.0", 2, requestId, PjAttributesExpected(uri, format, JobName(timestamp))))
  {
    JobConstantsAreUtf8();
    assert |JOB_NAME_PREFIX| == 13;
    ConcatIsUtf8(JOB_NAME_PREFIX, timestamp);
    var jobName := JobName(timestamp);
    PjFraming(uri, format, document, requestId, timestamp);
    ParseHeader(PRINT_JOB, requestId, PjTail(uri, format, jobName, document));
    PjAttributes(uri, format, jobName, document);
    PjFlatten(uri, format, jobName);
    VersionTwoZero();
  }
}
