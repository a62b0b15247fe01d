/** UTF-8 encoding of a JavaScript string (RFC 3629), as done by Node's
    `Buffer.from(string)`: a high surrogate followed by a low surrogate is one
    supplementary code point and takes four bytes; a surrogate without its
    partner is replaced by U+FFFD.  The decoder exists to show what the
    encoding keeps: every string without lone surrogates is recovered. */
module Utf8 {
  import opened JsText

  predicate IsHighSurrogate(u: CodeUnit) { 0xD800 <= u <= 0xDBFF }
  predicate IsLowSurrogate(u: CodeUnit) { 0xDC00 <= u <= 0xDFFF }
  predicate IsSurrogate(u: CodeUnit) { 0xD800 <= u <= 0xDFFF }

  const REPLACEMENT: CodeUnit := 0xFFFD

  /** The code point a surrogate pair stands for. */
  function PairScalar(hi: CodeUnit, lo: CodeUnit): (cp: int)
    requires IsHighSurrogate(hi) && IsLowSurrogate(lo)
    ensures 0x10000 <= cp < 0x110000
  {
    0x10000 + (hi as int - 0xD800) * 0x400 + (lo as int - 0xDC00)
  }

  /** The UTF-8 bytes of one code point (surrogate code points excluded). */
  function ScalarBytes(cp: int): (r: seq<Byte>)
    requires 0 <= cp < 0x110000
    ensures 1 <= |r| <= 4 && (cp < 0x10000 ==> |r| <= 3)
  {
    var q1, r1 := cp / 64, cp % 64;
    var q2, r2 := q1 / 64, q1 % 64;
    var q3, r3 := q2 / 64, q2 % 64;
    if cp < 0x80 then [cp as Byte]
    else if cp < 0x800 then [(0xC0 + q1) as Byte, (0x80 + r1) as Byte]
    else if cp < 0x10000 then [(0xE0 + q2) as Byte, (0x80 + r2) as Byte, (0x80 + r1) as Byte]
    else [(0xF0 + q3) as Byte, (0x80 + r3) as Byte, (0x80 + r2) as Byte, (0x80 + r1) as Byte]
  }

  /** `Buffer.from(s)`: the UTF-8 bytes of a JavaScript string.  Every code
      unit takes between one and three bytes. */
  function Encode(s: JsString): (r: seq<Byte>)
    ensures |s| <= |r| <= 3 * |s|
    decreases |s|
  {
    if s == [] then []
    else if |s| >= 2 && IsHighSurrogate(s[0]) && IsLowSurrogate(s[1]) then
      ScalarBytes(PairScalar(s[0], s[1])) + Encode(s[2..])
    else if IsSurrogate(s[0]) then ScalarBytes(REPLACEMENT as int) + Encode(s[1..])
    else ScalarBytes(s[0] as int) + Encode(s[1..])
  }

  /** Well-formed UTF-16: every surrogate belongs to a pair. */
  predicate WellFormed(s: JsString)
    decreases |s|
  {
    if s == [] then true
    else if |s| >= 2 && IsHighSurrogate(s[0]) && IsLowSurrogate(s[1]) then WellFormed(s[2..])
    else !IsSurrogate(s[0]) && WellFormed(s[1..])
  }

  /** The code units of one code point. */
  function Units(cp: int): (r: JsString)
    requires 0 <= cp < 0x110000
  {
    if cp < 0x10000 then [cp as CodeUnit]
    else [(0xD800 + (cp - 0x10000) / 0x400) as CodeUnit, (0xDC00 + (cp - 0x10000) % 0x400) as CodeUnit]
  }

  /** UTF-8 decoding into code units; a byte that starts no well-formed
      sequence becomes U+FFFD. */
  function Decode(b: seq<Byte>): JsString
    decreases |b|
  {
    if b == [] then []
    else if b[0] < 0x80 then [b[0] as int as CodeUnit] + Decode(b[1..])
    else if 0xC0 <= b[0] < 0xE0 && |b| >= 2 then
      [((b[0] as int - 0xC0) * 64 + b[1] as int % 64) as CodeUnit] + Decode(b[2..])
    else if 0xE0 <= b[0] < 0xF0 && |b| >= 3 then
      [((b[0] as int - 0xE0) * 4096 + b[1] as int % 64 * 64 + b[2] as int % 64) as CodeUnit] + Decode(b[3..])
    else if 0xF0 <= b[0] < 0xF8 && |b| >= 4 then
      var cp := (b[0] as int - 0xF0) * 262144 + b[1] as int % 64 * 4096 + b[2] as int % 64 * 64 + b[3] as int % 64;
      (if 0x10000 <= cp < 0x110000 then Units(cp) else [REPLACEMENT]) + Decode(b[4..])
    else [REPLACEMENT] + Decode(b[1..])
  }

  lemma {:induction false} Split64(hi: int, lo: int)
    requires 0 <= lo < 64
    ensures (hi * 64 + lo) / 64 == hi && (hi * 64 + lo) % 64 == lo
  {
  }

  lemma {:induction false} DecodeScalar(cp: int, rest: seq<Byte>)
    requires 0 <= cp < 0x110000
    ensures Decode(ScalarBytes(cp) + rest) == Units(cp) + Decode(rest)
  {
    if cp < 0x80 {
      var b := ScalarBytes(cp) + rest;
      assert b[0] == cp as Byte && b[1..] == rest;
    } else if cp < 0x800 {
      DecodeTwoBytes(cp, rest);
    } else if cp < 0x10000 {
      DecodeThreeBytes(cp, rest);
    } else {
      DecodeFourBytes(cp, rest);
    }
  }

  lemma {:induction false} DecodeTwoBytes(cp: int, rest: seq<Byte>)
    requires 0x80 <= cp < 0x800
    ensures Decode(ScalarBytes(cp) + rest) == Units(cp) + Decode(rest)
  {
    var b := ScalarBytes(cp) + rest;
    Split64(2, cp % 64);
    assert b[0] as int == 0xC0 + cp / 64 && b[1] as int == 0x80 + cp % 64;
    assert b[2..] == rest;
    assert (b[0] as int - 0xC0) * 64 + b[1] as int % 64 == cp;
  }

  lemma {:induction false} DecodeThreeBytes(cp: int, rest: seq<Byte>)
    requires 0x800 <= cp < 0x10000
    ensures Decode(ScalarBytes(cp) + rest) == Units(cp) + Decode(rest)
  {
    var b := ScalarBytes(cp) + rest;
    var q1, r1 := cp / 64, cp % 64;
    var q2, r2 := q1 / 64, q1 % 64;
    Split64(2, r1); Split64(2, r2);
    assert b[0] as int == 0xE0 + q2 && b[1] as int == 0x80 + r2 && b[2] as int == 0x80 + r1;
    assert b[3..] == rest;
    assert (b[0] as int - 0xE0) * 4096 + b[1] as int % 64 * 64 + b[2] as int % 64 == cp;
  }

  lemma {:induction false} DecodeFourBytes(cp: int, rest: seq<Byte>)
    requires 0x10000 <= cp < 0x110000
    ensures Decode(ScalarBytes(cp) + rest) == Units(cp) + Decode(rest)
  {
    var b := ScalarBytes(cp) + rest;
    var q1, r1 := cp / 64, cp % 64;
    var q2, r2 := q1 / 64, q1 % 64;
    var q3, r3 := q2 / 64, q2 % 64;
    Split64(2, r1); Split64(2, r2); Split64(2, r3);
    assert b[0] as int == 0xF0 + q3 && b[1] as int == 0x80 + r3;
    assert b[2] as int == 0x80 + r2 && b[3] as int == 0x80 + r1;
    assert b[4..] == rest;
    assert (b[0] as int - 0xF0) * 262144 + b[1] as int % 64 * 4096 + b[2] as int % 64 * 64 + b[3] as int % 64 == cp;
  }

  lemma {:induction false} PairUnits(hi: CodeUnit, lo: CodeUnit)
    requires IsHighSurrogate(hi) && IsLowSurrogate(lo)
    ensures Units(PairScalar(hi, lo)) == [hi, lo]
  {
    var d := PairScalar(hi, lo) - 0x10000;
    assert d == (hi as int - 0xD800) * 0x400 + (lo as int - 0xDC00);
    assert d / 0x400 == hi as int - 0xD800 && d % 0x400 == lo as int - 0xDC00;
  }

  /** A surrogate pair at the front is encoded as one code point. */
  lemma {:induction false} EncodePairStep(s: JsString)
    requires |s| >= 2 && IsHighSurrogate(s[0]) && IsLowSurrogate(s[1])
    ensures Encode(s) == ScalarBytes(PairScalar(s[0], s[1])) + Encode(s[2..])
  {
  }

  /** A code unit at the front that is not a surrogate is its own code point. */
  lemma {:induction false} EncodeUnitStep(s: JsString)
    requires s != [] && !IsSurrogate(s[0])
    ensures Encode(s) == ScalarBytes(s[0] as int) + Encode(s[1..])
  {
  }

  /** Decoding undoes encoding on well-formed strings. */
  lemma {:induction false} DecodeEncode(s: JsString)
    requires WellFormed(s)
    ensures Decode(Encode(s)) == s
    decreases |s|
  {
    if s == [] {
    } else if |s| >= 2 && IsHighSurrogate(s[0]) && IsLowSurrogate(s[1]) {
      DecodeEncode(s[2..]);
      EncodePairStep(s);
      DecodeScalar(PairScalar(s[0], s[1]), Encode(s[2..]));
      PairUnits(s[0], s[1]);
      assert s == [s[0], s[1]] + s[2..];
    } else {
      DecodeEncode(s[1..]);
      EncodeUnitStep(s);
      DecodeScalar(s[0] as int, Encode(s[1..]));
      assert s == [s[0]] + s[1..];
    }
  }

  /** Distinct well-formed strings have distinct UTF-8 encodings. */
  lemma {:induction false} EncodeInjective(s: JsString, t: JsString)
    requires WellFormed(s) && WellFormed(t) && Encode(s) == Encode(t)
    ensures s == t
  {
    DecodeEncode(s);
    DecodeEncode(t);
  }

  /** A lone surrogate is encoded exactly as U+FFFD is: the encoding forgets
      the difference. */
  lemma {:induction false} LoneSurrogateIsReplaced(u: CodeUnit)
    requires IsSurrogate(u)
    ensures Encode([u]) == Encode([REPLACEMENT]) == [0xEF, 0xBF, 0xBD]
  {
  }

  predicate IsAscii(s: JsString) {
    forall i :: 0 <= i < |s| ==> s[i] < 0x80
  }

  /** An ASCII code unit at the front is one byte of the same value. */
  lemma {:induction false} EncodeAsciiStep(s: JsString)
    requires s != [] && s[0] < 0x80
    ensures Encode(s) == [s[0] as int as Byte] + Encode(s[1..])
  {
  }

  lemma {:induction false} EncodeAsciiStepAppend(p: JsString, r: JsString)
    requires p != [] && p[0] < 0x80
    ensures Encode(p + r) == [p[0] as int as Byte] + Encode(p[1..] + r)
  {
    var pr := p + r;
    assert pr[0] == p[0] && pr[1..] == p[1..] + r;
    EncodeAsciiStep(pr);
  }

  /** ASCII text is encoded on its own, whatever follows it. */
  lemma {:induction false} EncodeAsciiPrefix(p: JsString, r: JsString)
    requires IsAscii(p)
    ensures Encode(p + r) == Encode(p) + Encode(r)
    decreases |p|
  {
    if p != [] {
      EncodeAsciiPrefix(p[1..], r);
      EncodeAsciiStep(p);
      EncodeAsciiStepAppend(p, r);
      Regroup([p[0] as int as Byte], Encode(p[1..]), Encode(r));
    } else {
      assert p + r == r;
    }
  }

  /** ASCII text is encoded byte for byte. */
  lemma {:induction false} EncodeAscii(p: JsString)
    requires IsAscii(p)
    ensures |Encode(p)| == |p|
    ensures forall i :: 0 <= i < |p| ==> Encode(p)[i] as int == p[i] as int
    decreases |p|
  {
    if p != [] {
      EncodeAscii(p[1..]);
      EncodeAsciiStep(p);
      var e, e' := Encode(p), Encode(p[1..]);
      forall i | 1 <= i < |p| ensures e[i] as int == p[i] as int {
        assert e[i] == e'[i - 1] && p[i] == p[1..][i - 1];
      }
    }
  }
}
