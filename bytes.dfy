/** Bytes and the fixed-width big-endian integer layouts used by the IPP
    wire format (struct formats '>B', '>H', '>I' and '>i'). */
module Bytes {

  type Byte = b: int | 0 <= b < 256

  const TWO_16: int := 0x1_0000
  const TWO_31: int := 0x8000_0000
  const TWO_32: int := 0x1_0000_0000

  /** struct.pack('>H', n) for an n the format accepts. */
  function U16(n: nat): (r: seq<Byte>)
    requires n < TWO_16
    ensures |r| == 2
    ensures r[0] as int * 256 + r[1] as int == n   // high byte first
  {
    [n / 256, n % 256]
  }

  /** struct.pack('>I', n) for an n the format accepts. */
  function U32(n: nat): (r: seq<Byte>)
    requires n < TWO_32
    ensures |r| == 4
    ensures ((r[0] as int * 256 + r[1] as int) * 256 + r[2] as int) * 256 + r[3] as int == n   // most significant byte first
  {
    U16(n / TWO_16) + U16(n % TWO_16)
  }

  /** struct.unpack('>H', b)[0]. */
  function BE16(b: seq<Byte>): (n: nat)
    requires |b| == 2
    ensures n < TWO_16
    ensures n / 256 == b[0] as int && n % 256 == b[1] as int
  {
    b[0] as int * 256 + b[1] as int
  }

  /** struct.unpack('>I', b)[0]. */
  function BE32(b: seq<Byte>): (n: nat)
    requires |b| == 4
    ensures n < TWO_32
    ensures n == ((b[0] as int * 256 + b[1] as int) * 256 + b[2] as int) * 256 + b[3] as int
  {
    BE16(b[..2]) * TWO_16 + BE16(b[2..])
  }

  /** Two's-complement reading of a 32-bit pattern: struct.unpack('>i', b)[0] is ToSigned32(BE32(b)). */
  function ToSigned32(n: nat): (i: int)
    requires n < TWO_32
    ensures -TWO_31 <= i < TWO_31
    ensures i % TWO_32 == n
  {
    if n < TWO_31 then n else n - TWO_32
  }

  lemma BE16RoundTrip(n: nat)
    requires n < TWO_16
    ensures BE16(U16(n)) == n
  {
  }

  lemma U16RoundTrip(b: seq<Byte>)
    requires |b| == 2
    ensures U16(BE16(b)) == b
  {
  }

  lemma BE32RoundTrip(n: nat)
    requires n < TWO_32
    ensures BE32(U32(n)) == n
  {
    var hi, lo := n / TWO_16, n % TWO_16;
    assert U32(n)[..2] == U16(hi) && U32(n)[2..] == U16(lo);
    BE16RoundTrip(hi);
    BE16RoundTrip(lo);
  }

  lemma U32RoundTrip(b: seq<Byte>)
    requires |b| == 4
    ensures U32(BE32(b)) == b
  {
    var n := BE32(b);
    assert n / TWO_16 == BE16(b[..2]) && n % TWO_16 == BE16(b[2..]);
    U16RoundTrip(b[..2]);
    U16RoundTrip(b[2..]);
    assert b == b[..2] + b[2..];
  }

  /** The bytes of an ASCII string; the model writes the source's string constants with it. */
  predicate IsAscii(s: string) {
    forall i | 0 <= i < |s| :: s[i] as int < 128
  }

  function Ascii(s: string): (r: seq<Byte>)
    requires IsAscii(s)
    ensures |r| == |s|
  {
    seq(|s|, i requires 0 <= i < |s| => s[i] as int)
  }

  /** Python's `needle in haystack` on byte strings and str: contiguous substring. */
  predicate Contains(haystack: seq<Byte>, needle: seq<Byte>)
    decreases |haystack|
  {
    needle <= haystack || (|haystack| > 0 && Contains(haystack[1..], needle))
  }

  /** `needle` occurs in `haystack` starting at index `i`. */
  predicate OccursAt(haystack: seq<Byte>, needle: seq<Byte>, i: int) {
    0 <= i <= |haystack| - |needle| && haystack[i..i + |needle|] == needle
  }

  /** Contains agrees with the index-based definition of a substring. */
  lemma {:induction false} ContainsIsSubstring(haystack: seq<Byte>, needle: seq<Byte>)
    ensures Contains(haystack, needle) <==> exists i :: OccursAt(haystack, needle, i)
    decreases |haystack|
  {
    if needle <= haystack {
      assert OccursAt(haystack, needle, 0);
    } else if |haystack| > 0 {
      ContainsIsSubstring(haystack[1..], needle);
      if exists i :: OccursAt(haystack, needle, i) {
        var i :| OccursAt(haystack, needle, i);
        assert i != 0;
        assert OccursAt(haystack[1..], needle, i - 1);
      }
      if Contains(haystack[1..], needle) {
        var j :| OccursAt(haystack[1..], needle, j);
        assert OccursAt(haystack, needle, j + 1);
      }
    }
  }
}
