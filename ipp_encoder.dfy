/** The two request builders: build_ipp_get_printer_attributes and
    build_ipp_print_job (RFC 8010, sections 3.1 and 3.2). Each writes a header,
    the operation-attributes group tag, tag / u16 name length / name / u16 value
    length / value records, and the end-of-attributes tag. */
module IppEncoder {
  import opened Bytes
  import opened Results
  import opened IppValues

  const VERSION_MAJOR: Byte := 0x02
  const VERSION_MINOR: Byte := 0x00
  const GET_PRINTER_ATTRIBUTES: nat := 0x000B
  const PRINT_JOB: nat := 0x0002
  const GET_PRINTER_ATTRIBUTES_REQUEST_ID: nat := 1
  const MAX_PRINT_JOB_REQUEST_ID: nat := 1000000

  const NAME_TAG: Byte := 0x42
  const KEYWORD_TAG: Byte := 0x44
  const URI_TAG: Byte := 0x45
  const CHARSET_TAG: Byte := 0x47
  const NATURAL_LANGUAGE_TAG: Byte := 0x48

  const CHARSET_NAME: seq<Byte> := Ascii("attributes-charset")
  const CHARSET: seq<Byte> := Ascii("utf-8")
  const NATURAL_LANGUAGE_NAME: seq<Byte> := Ascii("attributes-natural-language")
  const NATURAL_LANGUAGE: seq<Byte> := Ascii("en")
  const PRINTER_URI_NAME: seq<Byte> := Ascii("printer-uri")
  const REQUESTED_ATTRIBUTES_NAME: seq<Byte> := Ascii("requested-attributes")
  const DOCUMENT_FORMAT_SUPPORTED: seq<Byte> := Ascii("document-format-supported")
  const PRINTER_RESOLUTION_DEFAULT: seq<Byte> := Ascii("printer-resolution-default")
  const REQUESTED_ATTRIBUTES: seq<seq<Byte>> := [DOCUMENT_FORMAT_SUPPORTED, PRINTER_RESOLUTION_DEFAULT]
  const DOCUMENT_FORMAT_NAME: seq<Byte> := Ascii("document-format")
  const JOB_NAME_NAME: seq<Byte> := Ascii("job-name")
  const JOB_NAME_PREFIX: seq<Byte> := Ascii("Cupless job: ")

  /** A field whose length struct.pack('>H', ...) accepts. */
  predicate Fits(s: seq<Byte>) {
    |s| < TWO_16
  }

  /** write_struct('!BBH', ...) then write_struct('!I', rid). */
  function Header(operation: nat, requestId: nat): (r: seq<Byte>)
    requires operation < TWO_16 && requestId < TWO_32
    ensures |r| == 8
    ensures r[0] == VERSION_MAJOR && r[1] == VERSION_MINOR
    ensures BE16(r[2..4]) == operation && BE32(r[4..8]) == requestId
  {
    var h := [VERSION_MAJOR, VERSION_MINOR] + U16(operation) + U32(requestId);
    assert h[2..4] == U16(operation) && h[4..8] == U32(requestId);
    BE16RoundTrip(operation);
    BE32RoundTrip(requestId);
    h
  }

  /** One attribute record, the shape write_attr writes. */
  function Attr(tag: Byte, name: seq<Byte>, value: seq<Byte>): (r: seq<Byte>)
    requires Fits(name) && Fits(value)
    ensures |r| == 5 + |name| + |value|
  {
    [tag] + U16(|name|) + name + U16(|value|) + value
  }

  /** A multi-valued attribute: the first record carries the name, every
      further record an empty name. */
  function MultiValued(tag: Byte, name: seq<Byte>, values: seq<seq<Byte>>): (r: seq<Byte>)
    requires Fits(name) && forall i | 0 <= i < |values| :: Fits(values[i])
    ensures |values| == 0 <==> r == []
    decreases |values|
  {
    if |values| == 0 then []
    else
      var last := |values| - 1;
      MultiValued(tag, name, values[..last]) + Attr(tag, if last == 0 then name else [], values[last])
  }

  /** A multi-valued encoding opens with the named record of its first value. */
  lemma {:induction false} MultiValuedOpensWithFirst(tag: Byte, name: seq<Byte>, values: seq<seq<Byte>>)
    requires Fits(name) && forall i | 0 <= i < |values| :: Fits(values[i])
    requires |values| > 0
    ensures var first, r := Attr(tag, name, values[0]), MultiValued(tag, name, values);
      |first| <= |r| && r[..|first|] == first
    decreases |values|
  {
    var last := |values| - 1;
    var init := MultiValued(tag, name, values[..last]);
    var record := Attr(tag, if last == 0 then name else [], values[last]);
    assert MultiValued(tag, name, values) == init + record;
    if last == 0 {
      assert init + record == record;
    } else {
      assert values[..last][0] == values[0];
      MultiValuedOpensWithFirst(tag, name, values[..last]);
      PrefixOfAppend(init, record, Attr(tag, name, values[0]));
    }
  }

  lemma PrefixOfAppend(x: seq<Byte>, y: seq<Byte>, p: seq<Byte>)
    requires |p| <= |x| && x[..|p|] == p
    ensures |p| <= |x + y| && (x + y)[..|p|] == p
  {
    assert (x + y)[..|p|] == x[..|p|];
  }

  /** Extending the list of values by one appends one record. */
  lemma MultiValuedPrefix(tag: Byte, name: seq<Byte>, values: seq<seq<Byte>>, i: nat)
    requires Fits(name) && forall j | 0 <= j < |values| :: Fits(values[j])
    requires i < |values|
    ensures MultiValued(tag, name, values[..i + 1])
         == MultiValued(tag, name, values[..i]) + Attr(tag, if i == 0 then name else [], values[i])
  {
    assert values[..i + 1][..i] == values[..i];
  }

  /** The bytes build_ipp_get_printer_attributes(printer_uri) returns, or the
      struct.error it raises when the URI is too long for its u16 length prefix. */
  function GetPrinterAttributesRequest(uri: seq<Byte>): (r: Result<seq<Byte>>)
    ensures r.Success? <==> Fits(uri)
    ensures r.Failure? ==> r.error == StructError
  {
    if !Fits(uri) then Failure(StructError)
    else Success(
      Header(GET_PRINTER_ATTRIBUTES, GET_PRINTER_ATTRIBUTES_REQUEST_ID)
      + [OPERATION_ATTRIBUTES_TAG]
      + Attr(CHARSET_TAG, CHARSET_NAME, CHARSET)
      + Attr(NATURAL_LANGUAGE_TAG, NATURAL_LANGUAGE_NAME, NATURAL_LANGUAGE)
      + Attr(URI_TAG, PRINTER_URI_NAME, uri)
      + MultiValued(KEYWORD_TAG, REQUESTED_ATTRIBUTES_NAME, REQUESTED_ATTRIBUTES)
      + [END_OF_ATTRIBUTES_TAG])
  }

  /** The job-name value: 'Cupless job: ' followed by the timestamp text. */
  function JobName(timestamp: seq<Byte>): seq<Byte> {
    JOB_NAME_PREFIX + timestamp
  }

  /** The bytes build_ipp_print_job returns for the given request id and timestamp. */
  function PrintJobRequest(uri: seq<Byte>, format: seq<Byte>, document: seq<Byte>,
                           requestId: nat, timestamp: seq<Byte>): (r: Result<seq<Byte>>)
    requires 1 <= requestId <= MAX_PRINT_JOB_REQUEST_ID
    ensures r.Success? <==> Fits(uri) && Fits(format) && Fits(JobName(timestamp))
    ensures r.Failure? ==> r.error == StructError
  {
    if !Fits(uri) || !Fits(format) || !Fits(JobName(timestamp)) then Failure(StructError)
    else Success(
      Header(PRINT_JOB, requestId)
      + [OPERATION_ATTRIBUTES_TAG]
      + Attr(CHARSET_TAG, CHARSET_NAME, CHARSET)
      + Attr(NATURAL_LANGUAGE_TAG, NATURAL_LANGUAGE_NAME, NATURAL_LANGUAGE)
      + Attr(URI_TAG, PRINTER_URI_NAME, uri)
      + Attr(KEYWORD_TAG, DOCUMENT_FORMAT_NAME, format)
      + Attr(NAME_TAG, JOB_NAME_NAME, JobName(timestamp))
      + [END_OF_ATTRIBUTES_TAG]
      + document)
  }

  /** write_attr: append one record to the buffer, failing as struct.pack('>H') does
      on a length above 65535. */
  method WriteAttr(buf: seq<Byte>, tag: Byte, name: seq<Byte>, value: seq<Byte>)
    returns (r: Result<seq<Byte>>)
    ensures Fits(name) && Fits(value) ==> r == Success(buf + Attr(tag, name, value))
    ensures !Fits(name) || !Fits(value) ==> r == Failure(StructError)
  {
    var out := buf + [tag];
    if !Fits(name) {
      return Failure(StructError);
    }
    out := out + U16(|name|) + name;
    if !Fits(value) {
      return Failure(StructError);
    }
    out := out + U16(|value|) + value;
    assert out == buf + Attr(tag, name, value);
    r := Success(out);
  }

  /** The `for` loop of build_ipp_get_printer_attributes: one keyword record per
      value, the name on the first record only. */
  method WriteMultiValued(buf0: seq<Byte>, tag: Byte, name: seq<Byte>, values: seq<seq<Byte>>)
    returns (buf: seq<Byte>)
    requires Fits(name) && forall j | 0 <= j < |values| :: Fits(values[j])
    ensures buf == buf0 + MultiValued(tag, name, values)
  {
    buf := buf0;
    for i := 0 to |values|
      invariant buf == buf0 + MultiValued(tag, name, values[..i])
    {
      var n := if i == 0 then name else [];
      var v := values[i];
      ghost var before := buf;
      buf := buf + [tag];
      buf := buf + U16(|n|);
      buf := buf + n;
      buf := buf + U16(|v|);
      buf := buf + v;
      assert buf == before + ([tag] + U16(|n|) + n + U16(|v|) + v);
      MultiValuedPrefix(tag, name, values, i);
    }
    assert values[..|values|] == values;
  }

  method BuildGetPrinterAttributes(uri: seq<Byte>) returns (r: Result<seq<Byte>>)
    ensures r == GetPrinterAttributesRequest(uri)
    ensures r.Success? <==> |uri| < TWO_16
  {
    var buf := Header(GET_PRINTER_ATTRIBUTES, GET_PRINTER_ATTRIBUTES_REQUEST_ID);
    buf := buf + [OPERATION_ATTRIBUTES_TAG];
    // the constant records always fit their length prefixes
    var w := WriteAttr(buf, CHARSET_TAG, CHARSET_NAME, CHARSET);
    buf := w.value;
    w := WriteAttr(buf, NATURAL_LANGUAGE_TAG, NATURAL_LANGUAGE_NAME, NATURAL_LANGUAGE);
    buf := w.value;
    buf :- WriteAttr(buf, URI_TAG, PRINTER_URI_NAME, uri);
    buf := WriteMultiValued(buf, KEYWORD_TAG, REQUESTED_ATTRIBUTES_NAME, REQUESTED_ATTRIBUTES);
    buf := buf + [END_OF_ATTRIBUTES_TAG];
    r := Success(buf);
  }

  /** build_ipp_print_job with the random request id and the current time passed in. */
  method BuildPrintJob(uri: seq<Byte>, format: seq<Byte>, document: seq<Byte>,
                       requestId: nat, timestamp: seq<Byte>) returns (r: Result<seq<Byte>>)
    requires 1 <= requestId <= MAX_PRINT_JOB_REQUEST_ID
    ensures r == PrintJobRequest(uri, format, document, requestId, timestamp)
    ensures r.Success? <==> |uri| < TWO_16 && |format| < TWO_16 && 13 + |timestamp| < TWO_16
  {
    var buf := Header(PRINT_JOB, requestId);
    buf := buf + [OPERATION_ATTRIBUTES_TAG];
    // the constant records always fit their length prefixes
    var w := WriteAttr(buf, CHARSET_TAG, CHARSET_NAME, CHARSET);
    buf := w.value;
    w := WriteAttr(buf, NATURAL_LANGUAGE_TAG, NATURAL_LANGUAGE_NAME, NATURAL_LANGUAGE);
    buf := w.value;
    buf :- WriteAttr(buf, URI_TAG, PRINTER_URI_NAME, uri);
    buf :- WriteAttr(buf, KEYWORD_TAG, DOCUMENT_FORMAT_NAME, format);
    buf :- WriteAttr(buf, NAME_TAG, JOB_NAME_NAME, JOB_NAME_PREFIX + timestamp);
    buf := buf + [END_OF_ATTRIBUTES_TAG];
    buf := buf + document;
    r := Success(buf);
  }

  /** The fixed bytes of a Get-Printer-Attributes request: header 02 00 00 0B 00 00 00 01,
      group tag 01, the first record's tag, and the final 03. */
  lemma GetPrinterAttributesLayout(uri: seq<Byte>)
    requires |uri| < TWO_16
    ensures GetPrinterAttributesRequest(uri).Success?
    ensures var m := GetPrinterAttributesRequest(uri).value;
      && |m| == 9 + 28 + 34 + 16 + |uri| + 81 + 1
      && m[..10] == [0x02, 0x00, 0x00, 0x0B, 0x00, 0x00, 0x00, 0x01, 0x01, 0x47]
      && m[|m| - 1] == 0x03
  {
    var opening := [0x02, 0x00, 0x00, 0x0B, 0x00, 0x00, 0x00, 0x01, 0x01, 0x47];
    var x := Header(GET_PRINTER_ATTRIBUTES, GET_PRINTER_ATTRIBUTES_REQUEST_ID)
      + [OPERATION_ATTRIBUTES_TAG] + Attr(CHARSET_TAG, CHARSET_NAME, CHARSET);
    var language := Attr(NATURAL_LANGUAGE_TAG, NATURAL_LANGUAGE_NAME, NATURAL_LANGUAGE);
    var printer := Attr(URI_TAG, PRINTER_URI_NAME, uri);
    var requested := MultiValued(KEYWORD_TAG, REQUESTED_ATTRIBUTES_NAME, REQUESTED_ATTRIBUTES);
    GetPrinterAttributesOpening();
    GetPrinterAttributesPieces(uri);
    PrefixOfAppend(x, language, opening);
    PrefixOfAppend(x + language, printer, opening);
    PrefixOfAppend(x + language + printer, requested, opening);
    PrefixOfAppend(x + language + printer + requested, [END_OF_ATTRIBUTES_TAG], opening);
  }

  /** The first ten bytes of a Get-Printer-Attributes request: the header, the
      operation-attributes tag and the charset tag. */
  lemma GetPrinterAttributesOpening()
    ensures var x := Header(GET_PRINTER_ATTRIBUTES, GET_PRINTER_ATTRIBUTES_REQUEST_ID)
      + [OPERATION_ATTRIBUTES_TAG] + Attr(CHARSET_TAG, CHARSET_NAME, CHARSET);
      |x| == 9 + 28 && x[..10] == [0x02, 0x00, 0x00, 0x0B, 0x00, 0x00, 0x00, 0x01, 0x01, 0x47]
  {
  }

  /** The sizes of the records after the charset: language, URI and requested attributes. */
  lemma GetPrinterAttributesPieces(uri: seq<Byte>)
    requires Fits(uri)
    ensures |Attr(NATURAL_LANGUAGE_TAG, NATURAL_LANGUAGE_NAME, NATURAL_LANGUAGE)| == 34
    ensures |Attr(URI_TAG, PRINTER_URI_NAME, uri)| == 16 + |uri|
    ensures |MultiValued(KEYWORD_TAG, REQUESTED_ATTRIBUTES_NAME, REQUESTED_ATTRIBUTES)| == 81
  {
    RequestedAttributesLength();
  }

  /** The requested-attributes block of a Get-Printer-Attributes request is 81 bytes. */
  lemma RequestedAttributesLength()
    ensures |MultiValued(KEYWORD_TAG, REQUESTED_ATTRIBUTES_NAME, REQUESTED_ATTRIBUTES)| == 81
  {
    assert REQUESTED_ATTRIBUTES[..1] == [DOCUMENT_FORMAT_SUPPORTED];
    assert REQUESTED_ATTRIBUTES[..1][..0] == [];
    assert |MultiValued(KEYWORD_TAG, REQUESTED_ATTRIBUTES_NAME, REQUESTED_ATTRIBUTES[..1])| == 5 + 20 + 25;
  }

  /** A Print-Job request starts with 02 00 00 02, the big-endian request id and the
      group tag 01, ends its attribute section with 03, and carries the document
      bytes verbatim after it. */
  lemma PrintJobLayout(uri: seq<Byte>, format: seq<Byte>, document: seq<Byte>,
                       requestId: nat, timestamp: seq<Byte>)
    requires 1 <= requestId <= MAX_PRINT_JOB_REQUEST_ID
    requires PrintJobRequest(uri, format, document, requestId, timestamp).Success?
    ensures var m := PrintJobRequest(uri, format, document, requestId, timestamp).value;
      && |m| >= 9 + |document| + 1
      && m[..4] == [0x02, 0x00, 0x00, 0x02]
      && BE32(m[4..8]) == requestId
      && m[8] == 0x01
      && m[|m| - |document| - 1] == 0x03
      && m[|m| - |document|..] == document
  {
    var m := PrintJobRequest(uri, format, document, requestId, timestamp).value;
    var head := Header(PRINT_JOB, requestId);
    assert m[..8] == head;
    assert m[4..8] == U32(requestId);
    BE32RoundTrip(requestId);
  }
}
