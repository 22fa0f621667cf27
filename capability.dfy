/** The printer check `main` makes on the Get-Printer-Attributes response before
    it sends a job: status code 0, image/pwg-raster among the supported document
    formats, and a default resolution of 300 by 300 dpi. Every way the check
    raises is a `Reject` with the reason, Python's own TypeError and KeyError
    included. */
module Capability {
  import opened Bytes
  import opened Results
  import opened IppValues
  import opened IppEncoder
  import opened IppDecoder

  const PWG_RASTER: seq<Byte> := Ascii("image/pwg-raster")

  datatype Rejection =
    | Unparseable(error: Error)     // parse_ipp_response raised; main re-raises it as ValueError
    | StatusNotOk(code: nat)        // "info request failed with status code"
    | FormatsMissing                // KeyError: no document-format-supported
    | FormatsNotIterable            // TypeError: `in` on a bool or an int
    | PwgRasterUnsupported          // "image/pwg-raster not supported"
    | ResolutionMissing             // "printer-resolution-default attribute missing": absent or falsy
    | ResolutionNotSubscriptable    // TypeError: ['x'] on a bool, int, str or list
    | ResolutionNot300              // "Default printer resolution is not 300dpi"

  datatype Verdict = Accept | Reject(reason: Rejection)

  /** Python's `'image/pwg-raster' in value` on a flattened entry: element
      equality for a list, substring for a str, key lookup for the resolution
      dict (whose keys are x, y and units); None where Python raises TypeError. */
  function PwgRasterIn(e: Entry): (r: Option<bool>)
    ensures r.None? <==> e.Single? && (e.value.Bool? || e.value.Enum? || e.value.Integer?)
    ensures e.Multi? ==> (r == Some(true) <==> exists j | 0 <= j < |e.values| :: e.values[j] == Text(PWG_RASTER))
    ensures e.Single? && e.value.Resolution? ==> r == Some(false)
  {
    match e
    case Multi(vs) => Some(Text(PWG_RASTER) in vs)
    case Single(Text(s)) => Some(Contains(s, PWG_RASTER))
    case Single(Resolution(_, _, _)) => Some(false)
    case Single(_) => None
  }

  /** Python truthiness of a flattened entry: the falsy ones are exactly False,
      0, the empty string and the empty list. */
  function Truthy(e: Entry): (b: bool)
    ensures !b <==> e in {Single(Bool(false)), Single(Enum(0)), Single(Integer(0)), Single(Text([])), Multi([])}
  {
    match e
    case Multi(vs) => |vs| > 0
    case Single(Bool(b)) => b
    case Single(Enum(n)) => n != 0
    case Single(Integer(i)) => i != 0
    case Single(Resolution(_, _, _)) => true
    case Single(Text(s)) => |s| > 0
  }

  /** The checks of `main`, in order, on a parsed response. */
  function CheckPrinter(r: Response): (v: Verdict)
    ensures !(v.Reject? && v.reason.Unparseable?)
    ensures v == Reject(StatusNotOk(r.statusCode)) <==> r.statusCode != 0
    ensures v == Reject(FormatsMissing) <==> r.statusCode == 0 && DOCUMENT_FORMAT_SUPPORTED !in r.attributes
    ensures v == Accept ==>
      PRINTER_RESOLUTION_DEFAULT in r.attributes && r.attributes[PRINTER_RESOLUTION_DEFAULT] == Single(Resolution(300, 300, Dpi))
  {
    var attrs := r.attributes;
    if r.statusCode != 0 then Reject(StatusNotOk(r.statusCode))
    else if DOCUMENT_FORMAT_SUPPORTED !in attrs then Reject(FormatsMissing)
    else
      match PwgRasterIn(attrs[DOCUMENT_FORMAT_SUPPORTED])
      case None => Reject(FormatsNotIterable)
      case Some(false) => Reject(PwgRasterUnsupported)
      case Some(true) =>
        if PRINTER_RESOLUTION_DEFAULT !in attrs || !Truthy(attrs[PRINTER_RESOLUTION_DEFAULT]) then
          Reject(ResolutionMissing)
        else
          match attrs[PRINTER_RESOLUTION_DEFAULT]
          case Single(Resolution(x, y, units)) =>
            if x == 300 && y == 300 && units == Dpi then Accept else Reject(ResolutionNot300)
          case _ => Reject(ResolutionNotSubscriptable)
  }

  /** The check on the raw response bytes. */
  function CheckPrinterResponse(data: seq<Byte>): (v: Verdict)
    ensures v.Reject? && v.reason.Unparseable? <==> ParseResponse(data).Failure?
    ensures v == Accept ==> ParseResponse(data).Success? && ParseResponse(data).value.statusCode == 0
  {
    match ParseResponse(data)
    case Failure(e) => Reject(Unparseable(e))
    case Success(r) => CheckPrinter(r)
  }

  /** image/pwg-raster is advertised: an element of the format list, or an
      occurrence, at some index, inside a single format string. */
  ghost predicate AdvertisesPwgRaster(e: Entry) {
    match e
    case Multi(vs) => exists j | 0 <= j < |vs| :: vs[j] == Text(PWG_RASTER)
    case Single(Text(s)) => exists i :: OccursAt(s, PWG_RASTER, i)
    case Single(_) => false
  }

  /** A response is accepted exactly when its status is 0, its supported formats
      advertise image/pwg-raster and its default resolution is 300x300 dpi. */
  lemma AcceptIff(r: Response)
    ensures CheckPrinter(r) == Accept <==>
      && r.statusCode == 0
      && DOCUMENT_FORMAT_SUPPORTED in r.attributes
      && AdvertisesPwgRaster(r.attributes[DOCUMENT_FORMAT_SUPPORTED])
      && PRINTER_RESOLUTION_DEFAULT in r.attributes
      && r.attributes[PRINTER_RESOLUTION_DEFAULT] == Single(Resolution(300, 300, Dpi))
  {
    if DOCUMENT_FORMAT_SUPPORTED in r.attributes {
      var e := r.attributes[DOCUMENT_FORMAT_SUPPORTED];
      if e.Single? && e.value.Text? {
        ContainsIsSubstring(e.value.s, PWG_RASTER);
      }
      assert PwgRasterIn(e) == Some(true) <==> AdvertisesPwgRaster(e);
    }
  }

  /** A format list naming image/pwg-raster among others passes the format check;
      the default resolution then decides. */
  lemma FormatListExample(r: Response, other: seq<Byte>, x: nat, y: nat)
    requires r.statusCode == 0
    requires DOCUMENT_FORMAT_SUPPORTED in r.attributes
    requires r.attributes[DOCUMENT_FORMAT_SUPPORTED] == Multi([Text(PWG_RASTER), Text(other)])
    requires PRINTER_RESOLUTION_DEFAULT in r.attributes
    requires r.attributes[PRINTER_RESOLUTION_DEFAULT] == Single(Resolution(x, y, Dpi))
    ensures CheckPrinter(r) == (if x == 300 && y == 300 then Accept else Reject(ResolutionNot300))
  {
    assert Text(PWG_RASTER) in [Text(PWG_RASTER), Text(other)];
  }

  /** A single format string shorter than image/pwg-raster cannot contain it. */
  lemma ShortFormatUnsupported(r: Response, format: seq<Byte>)
    requires r.statusCode == 0
    requires DOCUMENT_FORMAT_SUPPORTED in r.attributes
    requires r.attributes[DOCUMENT_FORMAT_SUPPORTED] == Single(Text(format))
    requires |format| < |PWG_RASTER|
    ensures CheckPrinter(r) == Reject(PwgRasterUnsupported)
  {
    ContainsIsSubstring(format, PWG_RASTER);
  }

  /** A numeric or boolean format value makes `in` raise TypeError. */
  lemma ScalarFormatsNotIterable(r: Response)
    requires r.statusCode == 0
    requires DOCUMENT_FORMAT_SUPPORTED in r.attributes
    requires r.attributes[DOCUMENT_FORMAT_SUPPORTED].Single?
    requires !r.attributes[DOCUMENT_FORMAT_SUPPORTED].value.Text?
    requires !r.attributes[DOCUMENT_FORMAT_SUPPORTED].value.Resolution?
    ensures CheckPrinter(r) == Reject(FormatsNotIterable)
  {
  }

  /** A default resolution that is present but zero, false or empty counts as missing. */
  lemma FalsyResolutionMissing(r: Response)
    requires r.statusCode == 0
    requires DOCUMENT_FORMAT_SUPPORTED in r.attributes
    requires PwgRasterIn(r.attributes[DOCUMENT_FORMAT_SUPPORTED]) == Some(true)
    requires PRINTER_RESOLUTION_DEFAULT in r.attributes
    requires r.attributes[PRINTER_RESOLUTION_DEFAULT] in
      {Single(Bool(false)), Single(Enum(0)), Single(Integer(0)), Single(Text([])), Multi([])}
    ensures CheckPrinter(r) == Reject(ResolutionMissing)
  {
  }

  /** Without document-format-supported the lookup raises KeyError. */
  lemma MissingFormatsRejected(r: Response)
    requires r.statusCode == 0
    requires DOCUMENT_FORMAT_SUPPORTED !in r.attributes
    ensures CheckPrinter(r) == Reject(FormatsMissing)
  {
  }

  /** A response shorter than its 8-byte header is rejected as unparseable. */
  lemma ShortResponseRejected(data: seq<Byte>)
    requires |data| < 8
    ensures CheckPrinterResponse(data) == Reject(Unparseable(UnexpectedEof))
  {
  }
}
