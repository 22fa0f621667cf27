/** Well-formed UTF-8 (RFC 3629, section 4). Python's strict `bytes.decode('utf-8')`
    succeeds exactly on these byte strings, so the model keeps every decoded
    string as its UTF-8 bytes and checks this predicate where the source decodes. */
module Utf8 {
  import opened Bytes

  predicate IsContinuation(b: Byte) {
    0x80 <= b <= 0xBF
  }

  /** Length of the well-formed UTF-8 sequence at the start of `s`, or 0 when `s`
      does not start with one (overlong forms, surrogates, code points above U+10FFFF
      and truncated sequences are all rejected). */
  function CharLength(s: seq<Byte>): (n: nat)
    requires |s| > 0
    ensures n <= 4 && n <= |s|
    ensures n == 1 <==> s[0] < 0x80
  {
    var b0 := s[0];
    if b0 < 0x80 then 1
    else if 0xC2 <= b0 <= 0xDF then
      if |s| >= 2 && IsContinuation(s[1]) then 2 else 0
    else if 0xE0 <= b0 <= 0xEF then
      var lo := if b0 == 0xE0 then 0xA0 else 0x80;
      var hi := if b0 == 0xED then 0x9F else 0xBF;
      if |s| >= 3 && lo <= s[1] <= hi && IsContinuation(s[2]) then 3 else 0
    else if 0xF0 <= b0 <= 0xF4 then
      var lo := if b0 == 0xF0 then 0x90 else 0x80;
      var hi := if b0 == 0xF4 then 0x8F else 0xBF;
      if |s| >= 4 && lo <= s[1] <= hi && IsContinuation(s[2]) && IsContinuation(s[3]) then 4 else 0
    else 0
  }

  predicate IsUtf8(s: seq<Byte>)
    decreases |s|
  {
    |s| == 0 || (CharLength(s) > 0 && IsUtf8(s[CharLength(s)..]))
  }

  /** Every ASCII byte string is well-formed UTF-8. */
  lemma {:induction false} AsciiIsUtf8(s: seq<Byte>)
    requires forall i | 0 <= i < |s| :: s[i] < 0x80
    ensures IsUtf8(s)
    decreases |s|
  {
    if |s| > 0 {
      AsciiIsUtf8(s[1..]);
    }
  }

  /** The bytes of an ASCII string constant are well-formed UTF-8. */
  lemma AsciiStringIsUtf8(s: string)
    requires IsAscii(s)
    ensures IsUtf8(Ascii(s))
  {
    var b := Ascii(s);
    assert forall i | 0 <= i < |b| :: b[i] == s[i] as int;
    AsciiIsUtf8(b);
  }

  /** A complete sequence at the start of `a` is still the first character of `a + b`. */
  lemma CharLengthOfConcat(a: seq<Byte>, b: seq<Byte>)
    requires |a| > 0 && CharLength(a) > 0
    ensures CharLength(a + b) == CharLength(a)
  {
    var n := CharLength(a);
    assert forall k | 0 <= k < n :: (a + b)[k] == a[k];
  }

  /** One character of `a` in front of well-formed `a[n..] + b` keeps `a + b` well-formed. */
  lemma ConcatStep(a: seq<Byte>, b: seq<Byte>, n: nat)
    requires |a| > 0 && n == CharLength(a) && n > 0
    requires IsUtf8(a[n..] + b)
    ensures IsUtf8(a + b)
  {
    CharLengthOfConcat(a, b);
    assert (a + b)[n..] == a[n..] + b;
  }

  /** Well-formed UTF-8 is closed under concatenation (no character straddles the seam). */
  lemma {:induction false} ConcatIsUtf8(a: seq<Byte>, b: seq<Byte>)
    requires IsUtf8(a) && IsUtf8(b)
    ensures IsUtf8(a + b)
    decreases |a|
  {
    if |a| > 0 {
      var n := CharLength(a);
      ConcatIsUtf8(a[n..], b);
      ConcatStep(a, b, n);
    } else {
      assert a + b == b;
    }
  }
}
