# cupless IPP core, modelled in Dafny

cupless prints a document on an IPP printer without CUPS. Before it sends a job
it asks the printer for its attributes and checks them. This project models the
code that does that work:

- **Request builders.** They build the Get-Printer-Attributes request and the
  Print-Job request, written in the binary IPP encoding of RFC 8010, section 3.
- **Response parser.** `BufferReader` is a cursor over the response bytes, and
  `parse_ipp_response` turns the response into a dictionary. The dictionary
  holds the version, the status code, the request id and the attributes. An
  attribute maps to a single value, or to a list when it has several values.
- **Capability check.** In `main`, this check rejects a printer unless it speaks
  `image/pwg-raster` and defaults to 300x300 dpi.
- **Default paper size.** `get_paper_size` derives it from the country part of
  the locale.

Files and modules:

| file | module | contents |
|---|---|---|
| `results.dfy` | `Results` | Python exceptions as an `Error` datatype, `Result` and `Option` |
| `bytes.dfy` | `Bytes` | bytes, `struct` big-endian packing and unpacking, the `in` test on strings |
| `utf8.dfy` | `Utf8` | well-formed UTF-8 as RFC 3629 defines it, which strict `decode('utf-8')` accepts |
| `ipp_values.dfy` | `IppValues` | tags, decoded values, the value-decoding chain and its inverse |
| `buffer_reader.dfy` | `BufferReaders` | the `BufferReader` class: immutable data and a read position |
| `ipp_encoder.dfy` | `IppEncoder` | the two request builders, as functions and as methods that write in order |
| `ipp_decoder.dfy` | `IppDecoder` | the parser as functions on the unread bytes, and the parser as methods proved equal to them |
| `ipp_decoder_lemmas.dfy` | `IppDecoderLemmas` | how the attribute loop treats records, groups and truncation |
| `ipp_round_trip.dfy` | `IppRoundTrip` | parsing each built request gives back its attributes |
| `capability.dfy` | `Capability` | the printer check of `main` as a verdict with the reason for a rejection |
| `paper.dfy` | `Paper` | the country table and `get_paper_size` |

How the Python is represented:

- Names and strings are kept as their UTF-8 bytes. A decode succeeds exactly when
  the bytes are well-formed UTF-8.
- A raised exception becomes `Failure(e)`. For example, `struct.pack('>H', n)`
  with `n >= 65536` becomes `Failure(StructError)`.
- The parser and the builders are written twice.
  - Once as functions: `ParseResponse`, `ParseAttributes`, `ParseRecord`,
    `GetPrinterAttributesRequest` and `PrintJobRequest`.
  - Once as the methods that do the source's reads and writes step by step.
  - Each method's postcondition states that its result equals the function's.
- The request-attribute loop of `build_ipp_get_printer_attributes` is
  `WriteMultiValued`, a loop over any list of values.
- `parse_ipp_response` has a branch for 6-byte resolution values
  (cupless/main.py:280-281), evidently meant to hold two 16-bit fields. But
  `'>HHB'` is 5 bytes, so that branch always raises `struct.error`. The model
  follows the code: see `IppValues.ResolutionDecoding`.

## Model

| member | source | states |
|---|---|---|
| Bytes.BE16RoundTrip | cupless/main.py:259 | unpacking `'>H'` from the packed u16 of n gives n |
| Bytes.U16RoundTrip | cupless/main.py:326 | packing the u16 read from two bytes gives those bytes back |
| Bytes.BE32RoundTrip | cupless/main.py:232 | unpacking `'>I'` from the packed u32 of n gives n |
| Bytes.U32RoundTrip | cupless/main.py:333 | packing the u32 read from four bytes gives those bytes back |
| Bytes.ToSigned32 | cupless/main.py:275 | a `'>i'` value lies in [-2^31, 2^31) and equals the unsigned reading modulo 2^32 |
| Bytes.U16 | cupless/main.py:152-154 | `struct.pack('>H', n)` gives two bytes, high byte first: n is 256 times the first plus the second |
| Bytes.U32 | cupless/main.py:158-160 | `struct.pack('>I', n)` gives four bytes, most significant first, whose base-256 value is n |
| Bytes.BE16 | cupless/main.py:213-215 | `struct.unpack('>H', b)` is below 65536, with the first byte as its quotient by 256 and the second as its remainder |
| Bytes.BE32 | cupless/main.py:232 | `struct.unpack('>I', b)` is the base-256 value of the four bytes, most significant first |
| Bytes.ContainsIsSubstring | cupless/main.py:51 | `needle in haystack` on strings holds exactly when the needle occurs at some index |
| Utf8.CharLength | cupless/main.py:221 | a decoded character takes 1 to 4 bytes, and exactly 1 when it is ASCII |
| Utf8.AsciiStringIsUtf8 | cupless/main.py:323-324 | the encoding of an ASCII literal is well-formed UTF-8 |
| Utf8.ConcatIsUtf8 | cupless/main.py:343 | joining well-formed UTF-8 strings, such as the job-name prefix and the timestamp, gives well-formed UTF-8 |
| IppValues.UnitsFromByte | cupless/main.py:284 | the units byte maps to a unit exactly when it is 3 or 4, and to dpi exactly when it is 3; any other byte raises KeyError |
| IppValues.DecodeValue | cupless/main.py:270-288 | tag 0x21 succeeds exactly on a non-empty value and gives the truth of its first byte, an empty value raising IndexError; 0x22 and 0x23 succeed exactly on 4 bytes, giving a u32 and a signed 32-bit int, and raise struct.error otherwise; 0x32 is a resolution from 9 bytes; any other tag gives the value's text exactly when it is well-formed UTF-8, and UnicodeDecodeError otherwise |
| IppValues.DecodeEncodeValue | cupless/main.py:270-288 | decoding the RFC 8010 encoding of any encodable value under its tag gives back that value |
| IppValues.EncodeDecodeValue | cupless/main.py:270-288 | every byte string a non-boolean tag accepts is the encoding of the value decoded from it |
| IppValues.ResolutionDecoding | cupless/main.py:276-285 | 6 bytes always raise struct.error; decoding succeeds exactly for 9 bytes whose units byte is 3 or 4; another units byte raises KeyError; units 3 gives x and y in dpi |
| BufferReaders.BufferReader.constructor | cupless/main.py:204-205 | a new reader is at position 0 and the whole data remains unread |
| BufferReaders.BufferReader.Read | cupless/main.py:207-211 | returns exactly the next `size` bytes and advances by `size`; otherwise raises EOFError with the stream at its end |
| BufferReaders.BufferReader.ReadByte | cupless/main.py:217-218 | returns the next byte and advances by one; raises EOFError at the end |
| BufferReaders.BufferReader.ReadU16 | cupless/main.py:213-215 | returns the big-endian u16 of the next two bytes; raises EOFError when fewer than two remain |
| BufferReaders.BufferReader.ReadUtf8 | cupless/main.py:220-221 | consumes `size` bytes, then returns them if they are well-formed UTF-8 and raises UnicodeDecodeError if not; EOFError when too few remain |
| IppEncoder.Attr | cupless/main.py:148-154 | a record of tag, name and value takes 5 bytes plus the name and the value |
| IppEncoder.Header | cupless/main.py:157-160 | eight bytes: version 2 and 0, then the operation that reads back as the u16 and the request id that reads back as the u32 |
| IppEncoder.MultiValued | cupless/main.py:169-176 | the encoding is empty exactly when there are no values |
| IppEncoder.MultiValuedOpensWithFirst | cupless/main.py:169-176 | a non-empty multi-valued encoding opens with the named record of its first value |
| IppEncoder.GetPrinterAttributesRequest | cupless/main.py:135-181 | the builder returns bytes exactly when the URI fits a u16 length, and raises struct.error otherwise |
| IppEncoder.PrintJobRequest | cupless/main.py:310-352 | the builder returns bytes exactly when the URI, the format and the job name each fit a u16 length, and raises struct.error otherwise |
| IppEncoder.MultiValuedPrefix | cupless/main.py:169-176 | each loop pass appends one keyword record; only the first record carries the name |
| IppEncoder.WriteAttr | cupless/main.py:148-154 | appends the record; raises struct.error when the name or the value is 65536 bytes or longer |
| IppEncoder.WriteMultiValued | cupless/main.py:169-176 | the loop leaves the buffer extended by exactly the multi-valued encoding of the values |
| IppEncoder.BuildGetPrinterAttributes | cupless/main.py:135-181 | returns the request function's bytes; succeeds exactly when the URI is shorter than 65536 bytes |
| IppEncoder.BuildPrintJob | cupless/main.py:310-352 | returns the request function's bytes; succeeds exactly when the URI, the format and the job name each fit a u16 length |
| IppEncoder.GetPrinterAttributesLayout | cupless/main.py:157-178 | the request is 169 bytes plus the URI; it opens with version 2.0, operation 0x000B, request id 1, the operation group and the charset tag; it ends with 0x03 |
| IppEncoder.PrintJobLayout | cupless/main.py:331-350 | the request opens with 02 00 00 02, carries the request id in bytes 4 to 7 and the operation group tag at byte 8; 0x03 comes right before the document, which is its suffix |
| IppDecoder.Append | cupless/main.py:290-293 | the name's list gains the value at its end; every other entry stays |
| IppDecoder.DecimalString | cupless/main.py:230 | `str(n)` is decimal digits that `int()` reads back as n, with no leading zero |
| IppDecoder.VersionStringReadsBack | cupless/main.py:230 | the version text is the major number in decimal, one '.', then the minor number in decimal; each side reads back as its byte |
| IppDecoder.ParseRecord | cupless/main.py:258-264 | a decoded record consumes at least 4 bytes, and at least 5 when there is no current name, since its own name must then be non-empty; the parse stops only when there is no current name |
| IppDecoder.ParseRecordValue | cupless/main.py:266-288 | a decoded value belongs to the given name and consumes at least its 2 length bytes |
| IppDecoder.ParseAttributes | cupless/main.py:238-293 | a successful loop leaves every name holding a non-empty list, keeps every name gathered before, and keeps the values gathered before as the start of each list |
| IppDecoder.Flatten | cupless/main.py:295-298 | flattening keeps the names and their values; a name becomes a single value exactly when its list had one element; every list left has at least two |
| IppDecoder.ParseResponse | cupless/main.py:226-305 | data shorter than 8 bytes raises EOFError; a parsed response carries the version text, the status code and the request id from the header |
| IppDecoder.FlattenSingletons | cupless/main.py:295-298 | the in-place flattening loop yields `Flatten` of the gathered dict |
| IppDecoder.ReadAttribute | cupless/main.py:258-264 | the reads of a record's name part give `ParseRecord` of the unread bytes and leave the reader just past the record |
| IppDecoder.ReadRecordValue | cupless/main.py:266-288 | the reads of the value length and the value give `ParseRecordValue` and leave the reader just past the value |
| IppDecoder.ReadAttributes | cupless/main.py:234-293 | the `while` loop gives `ParseAttributes` of the bytes after the header, starting with no current name |
| IppDecoder.ParseIppResponse | cupless/main.py:226-305 | the parser's reads and loops return `ParseResponse(data)`, errors included |
| IppDecoderLemmas.NormalEnd | cupless/main.py:238-264 | the loop ends normally, with what it has gathered, on EOF at a tag, on the end tag, or on an empty name with no current name |
| IppDecoderLemmas.GroupTagResetsName | cupless/main.py:252-255 | a group tag only clears the current name |
| IppDecoderLemmas.EmptyNameAfterGroupTagStops | cupless/main.py:252-264 | an empty name right after a group tag ends the loop |
| IppDecoderLemmas.MultiValuedLast | cupless/main.py:169-176 | a multi-valued encoding ends with a nameless record for its last value |
| IppDecoderLemmas.AttrSlices | cupless/main.py:259-267 | the reader finds the tag, the name length, the name, the value length, the value and the rest of an encoded record where the writer put them |
| IppDecoderLemmas.AttrIndices | cupless/main.py:148-154 | the byte ranges of an encoded record's fields |
| IppDecoderLemmas.ParseRecordOfAttr | cupless/main.py:258-288 | parsing an encoded record gives its name, or the current name when the name is empty, its decoded value and the rest |
| IppDecoderLemmas.ParseAttributesOfAttr | cupless/main.py:258-293 | one loop pass over an encoded record appends its value under its name, which becomes the current name |
| IppDecoderLemmas.DecodeFailurePropagates | cupless/main.py:266-288 | a record whose value does not decode fails the whole parse with the decoding error |
| IppDecoderLemmas.BadNameFails | cupless/main.py:261-262 | a record whose non-empty name is not well-formed UTF-8 fails the whole parse with UnicodeDecodeError |
| IppDecoderLemmas.TruncatedRecordFails | cupless/main.py:207-211 | EOF inside any proper prefix of a record raises EOFError |
| IppDecoderLemmas.AppendAllValues | cupless/main.py:290-293 | appending several values to a name extends its list by them in order |
| IppDecoderLemmas.AppendAllKeepsLists | cupless/main.py:290-293 | appending keeps every entry a non-empty list |
| IppDecoderLemmas.ParseTextAttr | cupless/main.py:286-293 | a named text record appends its text under its name |
| IppDecoderLemmas.ParseMultiValued | cupless/main.py:261-293 | nameless records continue the named attribute before them; all the values land in its list in encounter order |
| IppRoundTrip.ParseHeader | cupless/main.py:229-232 | the header fields read back as the operation and the request id that were written |
| IppRoundTrip.ConstantsAreUtf8 | cupless/main.py:164-167 | the fixed attribute names and values are well-formed UTF-8 |
| IppRoundTrip.GpaFraming | cupless/main.py:157-178 | a Get-Printer-Attributes request is its header with operation 0x000B and id 1, then the attribute section |
| IppRoundTrip.GpaAttributes | cupless/main.py:238-293 | parsing that section gathers one-element lists for the charset, the language and the URI, and the two requested names in order |
| IppRoundTrip.GpaFlatten | cupless/main.py:295-298 | flattening turns the three one-element lists into single values and keeps the two-element list |
| IppRoundTrip.PjFraming | cupless/main.py:331-350 | a Print-Job request is its header with operation 0x0002 and the request id, then the five attributes, the end tag and the document |
| IppRoundTrip.PjAttributes | cupless/main.py:238-293 | parsing that section gathers the five attributes and stops at the end tag without reading the document |
| IppRoundTrip.PjFlatten | cupless/main.py:295-298 | flattening turns the five one-element lists into single values |
| IppRoundTrip.VersionTwoZero | cupless/main.py:230 | the version bytes 2 and 0 read as the text "2.0" |
| IppRoundTrip.GetPrinterAttributesRoundTrip | cupless/main.py:135-181 | parsing the built request gives version 2.0, code 11, id 1, the three single attributes and the two-element requested-attributes list |
| IppRoundTrip.PrintJobRoundTrip | cupless/main.py:310-352 | parsing the built request gives version 2.0, code 2, the request id and the five attributes with their values |
| Capability.AcceptIff | cupless/main.py:48-63 | the printer is accepted exactly when the status is 0, the formats hold image/pwg-raster and the default resolution is 300x300 dpi |
| Capability.PwgRasterIn | cupless/main.py:51 | `in` raises TypeError exactly for a bool or an integer value; on a list it holds exactly when some element is image/pwg-raster; on the resolution dict it is false |
| Capability.Truthy | cupless/main.py:58 | the falsy entries are exactly False, 0, the empty string and the empty list |
| Capability.CheckPrinter | cupless/main.py:48-63 | the status rejection happens exactly when the status is not 0; the KeyError rejection exactly when the status is 0 and the formats are missing; an accepted printer defaults to 300x300 dpi |
| Capability.CheckPrinterResponse | cupless/main.py:43-63 | a response is rejected as unparseable exactly when parsing raises; an accepted one parsed with status 0 |
| Capability.FormatListExample | cupless/main.py:51-63 | a format list naming image/pwg-raster passes the format check; the resolution then decides |
| Capability.ShortFormatUnsupported | cupless/main.py:51-52 | a single format string shorter than image/pwg-raster is rejected as unsupported |
| Capability.ScalarFormatsNotIterable | cupless/main.py:51 | a bool or int format value raises TypeError |
| Capability.FalsyResolutionMissing | cupless/main.py:57-59 | a default resolution that is false, zero or empty counts as missing |
| Capability.MissingFormatsRejected | cupless/main.py:51 | a response without document-format-supported raises KeyError |
| Capability.ShortResponseRejected | cupless/main.py:43-46 | a response shorter than 8 bytes is rejected as unparseable |
| Paper.SplitAround | cupless/paper.py:80 | splitting at one separator splits the two sides independently |
| Paper.Split | cupless/paper.py:80 | `split` gives at least one piece, none containing the separator and none longer than the string |
| Paper.UpperChar | cupless/paper.py:80 | a lower-case ASCII letter becomes its upper-case letter; every other character is kept |
| Paper.Upper | cupless/paper.py:80 | `upper` keeps the length and upper-cases each character on its own |
| Paper.CountryCode | cupless/paper.py:80 | the country code holds no '_' and is no longer than the locale |
| Paper.PaperSizeIn | cupless/paper.py:77-81 | no locale or no '_' gives a4; otherwise the result is a4 or one of the table's sizes |
| Paper.PaperSize | cupless/paper.py:70-81 | `get_paper_size` always returns a4, letter or JIS B5 |
| Paper.SplitNoSeparator | cupless/paper.py:80 | a string without '_' splits into itself alone |
| Paper.JoinSplit | cupless/paper.py:80 | joining the pieces of `split('_')` with '_' gives the string back |
| Paper.SplitJoin | cupless/paper.py:80 | splitting pieces joined with '_', none containing it, gives the pieces back |
| Paper.CountryCodeOf | cupless/paper.py:80 | the country code is the upper-cased text after the last '_' |
| Paper.AmericasEntry | cupless/paper.py:4-15 | every North and Central American country maps to letter |
| Paper.AsiaTwoEntry | cupless/paper.py:31-41 | in the last Asian block, Japan maps to JIS B5, the Philippines to letter, every other country to a4 |
| Paper.ElsewhereEntry | cupless/paper.py:17-65 | every other listed country maps to a4 |
| Paper.TableSizes | cupless/paper.py:3-68 | every table value is a4, letter or JIS B5 |
| Paper.LookupOfLocale | cupless/paper.py:77-81 | for any table: a locale with a '_' gets its country's entry, or a4 when the country is not listed |
| Paper.PaperSizeOfLocale | cupless/paper.py:77-81 | the same, for the table of the source |
| Paper.NoCountryGivesA4 | cupless/paper.py:77-78 | no locale, an empty one, or one without '_' gives a4 |
| Paper.CaseInsensitive | cupless/paper.py:80-81 | two locales whose last segments upper-case alike get the same size, such as en_us and en_US |
| Paper.PaperSizeRange | cupless/paper.py:70-81 | the result is always a4, letter or JIS B5 |
| Paper.UnitedStatesLetter | cupless/paper.py:5 | en_US and en_us give letter |
| Paper.JapanJisB5 | cupless/paper.py:40 | ja_JP gives JIS B5 |
| Paper.PhilippinesLetter | cupless/paper.py:41 | fil_PH gives letter |
| Paper.FranceA4 | cupless/paper.py:24 | fr_FR gives a4 |

## Left out

- HTTP transport (`get_ipp_attributes`), argument and config parsing, and reading the document are I/O. `main` is modelled only up to its printer check.
- ipptool, the PWG and PDF conversions (`print_with_ipptool`, `convert_to_pwg`, `convert_to_pdf`) run subprocesses and use temporary files.
- `get_paper_dimensions_pixels` is not part of this model: it is float arithmetic outside the IPP and paper-size core.
- The random request id and `datetime.now().isoformat()` are parameters of `BuildPrintJob`. The id's range 1..1000000 is a precondition, and the timestamp is passed as its text.
- `locale.getdefaultlocale()` is not part of this model: its first element is the parameter of `PaperSize`.
- The debug `print` calls in the parser and `print(response)` in `main` are output only.
- The builders take URIs, formats and timestamps as UTF-8 bytes. `str.encode` failing on lone surrogates is not modelled.
- Paper.Upper: only ASCII letters are upper-cased. Python's full Unicode case mapping, for example 'ı' to 'I', is not modelled.
- Capability.PwgRasterIn: for a single string value, `in` compares UTF-8 bytes rather than characters. The two agree for well-formed UTF-8, but the model does not prove this.
- `current_group` is assigned but never read in the source. The model keeps the assignment and states nothing about it.
- Paper.CountryPaperSizes: the dict literal is written as ten disjoint regional maps merged with `+`. The lemmas characterise the whole table region by region. They do not prove each of the 189 entries one by one.
