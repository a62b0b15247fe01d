/** Base 64 encoding of RFC 4648, section 4 (standard alphabet, `=` padding),
    as produced by Node's `Buffer.prototype.toString('base64')`, together with
    its decoder, which exists to show that the encoding loses nothing. */
module Base64 {
  import opened Wrappers
  import opened JsText

  const PAD: CodeUnit := 0x3D  // '='

  /** The character for a 6-bit value: A-Z, a-z, 0-9, '+', '/'. */
  function Char(v: int): (c: CodeUnit)
    requires 0 <= v < 64
    ensures IsAlphabet(c) && c != PAD
  {
    if v < 26 then (0x41 + v) as CodeUnit
    else if v < 52 then (0x61 + v - 26) as CodeUnit
    else if v < 62 then (0x30 + v - 52) as CodeUnit
    else if v == 62 then 0x2B
    else 0x2F
  }

  predicate IsAlphabet(c: CodeUnit) {
    (0x41 <= c <= 0x5A) || (0x61 <= c <= 0x7A) || (0x30 <= c <= 0x39) || c == 0x2B || c == 0x2F
  }

  /** Characters that can appear in encoded text: the alphabet and the pad. */
  predicate IsEncodedChar(c: CodeUnit) {
    IsAlphabet(c) || c == PAD
  }

  /** The 6-bit value of an alphabet character. */
  function Value(c: CodeUnit): (r: Option<int>)
    ensures r.Some? <==> IsAlphabet(c)
    ensures r.Some? ==> 0 <= r.value < 64 && Char(r.value) == c
  {
    if 0x41 <= c <= 0x5A then Some(c as int - 0x41)
    else if 0x61 <= c <= 0x7A then Some(c as int - 0x61 + 26)
    else if 0x30 <= c <= 0x39 then Some(c as int - 0x30 + 52)
    else if c == 0x2B then Some(62)
    else if c == 0x2F then Some(63)
    else None
  }

  lemma {:induction false} ValueOfChar(v: int)
    requires 0 <= v < 64
    ensures Value(Char(v)) == Some(v)
  {
  }

  /** Three bytes, the last group of one byte and the last group of two. */
  function EncodeGroup(b0: Byte, b1: Byte, b2: Byte): JsString {
    [Char(b0 as int / 4), Char(b0 as int % 4 * 16 + b1 as int / 16),
     Char(b1 as int % 16 * 4 + b2 as int / 64), Char(b2 as int % 64)]
  }

  function EncodeOne(b0: Byte): JsString {
    [Char(b0 as int / 4), Char(b0 as int % 4 * 16), PAD, PAD]
  }

  function EncodeTwo(b0: Byte, b1: Byte): JsString {
    [Char(b0 as int / 4), Char(b0 as int % 4 * 16 + b1 as int / 16), Char(b1 as int % 16 * 4), PAD]
  }

  /** The base 64 text of a byte string. */
  function Encode(b: seq<Byte>): (r: JsString)
    ensures |r| % 4 == 0
    decreases |b|
  {
    if |b| == 0 then []
    else if |b| == 1 then EncodeOne(b[0])
    else if |b| == 2 then EncodeTwo(b[0], b[1])
    else EncodeGroup(b[0], b[1], b[2]) + Encode(b[3..])
  }

  /** Encoding takes three bytes at a time. */
  lemma {:induction false} EncodeStep(b: seq<Byte>)
    requires |b| >= 3
    ensures Encode(b) == EncodeGroup(b[0], b[1], b[2]) + Encode(b[3..])
  {
  }

  /** Four characters for every started group of three bytes. */
  lemma {:induction false} EncodeLength(b: seq<Byte>)
    ensures |Encode(b)| == 4 * ((|b| + 2) / 3)
    decreases |b|
  {
    if |b| >= 3 {
      EncodeLength(b[3..]);
      EncodeStep(b);
      assert (|b| + 2) / 3 == (|b[3..]| + 2) / 3 + 1;
    }
  }

  /** Every character of base 64 text is in the alphabet or the pad. */
  lemma {:induction false} EncodedChars(b: seq<Byte>)
    ensures forall i :: 0 <= i < |Encode(b)| ==> IsEncodedChar(Encode(b)[i])
    decreases |b|
  {
    if |b| >= 3 {
      EncodedChars(b[3..]);
      var g, rest := EncodeGroup(b[0], b[1], b[2]), Encode(b[3..]);
      assert Encode(b) == g + rest;
      forall i | 4 <= i < |Encode(b)| ensures IsEncodedChar(Encode(b)[i]) {
        assert Encode(b)[i] == rest[i - 4];
      }
    }
  }

  /** Decoding of one group of four characters; `last` tells whether padding
      may appear in it. */
  function DecodeGroup(g: JsString, last: bool): Option<seq<Byte>>
    requires |g| == 4
  {
    var o0, o1, o2, o3 := Value(g[0]), Value(g[1]), Value(g[2]), Value(g[3]);
    if o0.None? || o1.None? then None
    else if last && g[2] == PAD && g[3] == PAD then
      Some([(o0.value * 4 + o1.value / 16) as Byte])
    else if last && g[3] == PAD then
      if o2.None? then None
      else Some([(o0.value * 4 + o1.value / 16) as Byte, (o1.value % 16 * 16 + o2.value / 4) as Byte])
    else if o2.None? || o3.None? then None
    else
      Some([(o0.value * 4 + o1.value / 16) as Byte, (o1.value % 16 * 16 + o2.value / 4) as Byte,
            (o2.value % 4 * 64 + o3.value) as Byte])
  }

  /** The bytes a base 64 text stands for, or None when it is not base 64. */
  function Decode(s: JsString): Option<seq<Byte>>
    decreases |s|
  {
    if |s| == 0 then Some([])
    else if |s| < 4 then None
    else
      var group, rest := DecodeGroup(s[..4], |s| == 4), Decode(s[4..]);
      if group.Some? && rest.Some? then Some(group.value + rest.value) else None
  }

  lemma {:induction false} Split(hi: int, lo: int, n: int)
    requires n == 4 || n == 16 || n == 64
    requires 0 <= lo < n
    ensures (hi * n + lo) / n == hi && (hi * n + lo) % n == lo
  {
  }

  lemma {:induction false} DecodeGroupOfThree(b0: Byte, b1: Byte, b2: Byte, last: bool)
    ensures DecodeGroup(EncodeGroup(b0, b1, b2), last) == Some([b0, b1, b2])
  {
    var x0, x1, x2 := b0 as int, b1 as int, b2 as int;
    var v0, v1, v2, v3 := x0 / 4, x0 % 4 * 16 + x1 / 16, x1 % 16 * 4 + x2 / 64, x2 % 64;
    ValueOfChar(v0); ValueOfChar(v1); ValueOfChar(v2); ValueOfChar(v3);
    Split(x0 % 4, x1 / 16, 16);
    Split(x1 % 16, x2 / 64, 4);
    assert v0 * 4 + v1 / 16 == x0;
    assert v1 % 16 * 16 + v2 / 4 == x1;
    assert v2 % 4 * 64 + v3 == x2;
  }

  lemma {:induction false} DecodeGroupOfOne(b0: Byte)
    ensures DecodeGroup(EncodeOne(b0), true) == Some([b0])
  {
    var x0 := b0 as int;
    ValueOfChar(x0 / 4); ValueOfChar(x0 % 4 * 16);
    Split(x0 % 4, 0, 16);
  }

  lemma {:induction false} DecodeGroupOfTwo(b0: Byte, b1: Byte)
    ensures DecodeGroup(EncodeTwo(b0, b1), true) == Some([b0, b1])
  {
    var x0, x1 := b0 as int, b1 as int;
    var v0, v1, v2 := x0 / 4, x0 % 4 * 16 + x1 / 16, x1 % 16 * 4;
    ValueOfChar(v0); ValueOfChar(v1); ValueOfChar(v2);
    Split(x0 % 4, x1 / 16, 16);
    Split(x1 % 16, 0, 4);
    assert v0 * 4 + v1 / 16 == x0;
    assert v1 % 16 * 16 + v2 / 4 == x1;
  }

  /** A text of a single group decodes as that group. */
  lemma {:induction false} DecodeSingleGroup(e: JsString, g: seq<Byte>)
    requires |e| == 4 && DecodeGroup(e, true) == Some(g)
    ensures Decode(e) == Some(g)
  {
    assert e[..4] == e && e[4..] == [];
    assert g + [] == g;
  }

  /** Decoding undoes encoding: the base 64 text of a byte string determines it. */
  lemma {:induction false} DecodeEncode(b: seq<Byte>)
    ensures Decode(Encode(b)) == Some(b)
    decreases |b|
  {
    if |b| == 1 {
      DecodeGroupOfOne(b[0]);
      assert b == [b[0]];
      DecodeSingleGroup(Encode(b), b);
    } else if |b| == 2 {
      DecodeGroupOfTwo(b[0], b[1]);
      assert b == [b[0], b[1]];
      DecodeSingleGroup(Encode(b), b);
    } else if |b| >= 3 {
      DecodeEncode(b[3..]);
      DecodeFirstGroup(b);
    }
  }

  /** Decoding proceeds group by group. */
  lemma {:induction false} DecodeCons(g: JsString, rest: JsString, x: seq<Byte>, y: seq<Byte>)
    requires |g| == 4 && DecodeGroup(g, rest == []) == Some(x) && Decode(rest) == Some(y)
    ensures Decode(g + rest) == Some(x + y)
  {
    assert (g + rest)[..4] == g && (g + rest)[4..] == rest;
  }

  lemma {:induction false} DecodeFirstGroup(b: seq<Byte>)
    requires |b| >= 3 && Decode(Encode(b[3..])) == Some(b[3..])
    ensures Decode(Encode(b)) == Some(b)
  {
    EncodeStep(b);
    DecodeGroupThenRest(b[0], b[1], b[2], Encode(b[3..]), b[3..]);
    assert [b[0], b[1], b[2]] + b[3..] == b;
  }

  lemma {:induction false} DecodeGroupThenRest(b0: Byte, b1: Byte, b2: Byte, rest: JsString, y: seq<Byte>)
    requires Decode(rest) == Some(y)
    ensures Decode(EncodeGroup(b0, b1, b2) + rest) == Some([b0, b1, b2] + y)
  {
    DecodeGroupOfThree(b0, b1, b2, rest == []);
    DecodeCons(EncodeGroup(b0, b1, b2), rest, [b0, b1, b2], y);
  }

  /** Distinct byte strings have distinct base 64 texts. */
  lemma {:induction false} EncodeInjective(a: seq<Byte>, b: seq<Byte>)
    requires Encode(a) == Encode(b)
    ensures a == b
  {
    DecodeEncode(a);
    DecodeEncode(b);
  }

  lemma {:induction false} WholeGroupsLeft(n: int)
    requires n > 0 && n % 3 == 0
    ensures n >= 3 && (n - 3) % 3 == 0
  {
  }

  lemma {:induction false} EncodeStepAppend(a: seq<Byte>, b: seq<Byte>)
    requires |a| >= 3
    ensures Encode(a + b) == EncodeGroup(a[0], a[1], a[2]) + Encode(a[3..] + b)
  {
    var ab := a + b;
    EncodeStep(ab);
    assert ab[0] == a[0] && ab[1] == a[1] && ab[2] == a[2];
    assert ab[3..] == a[3..] + b;
  }

  /** Encoding works group by group: a prefix made of whole three-byte groups
      is encoded on its own. */
  lemma {:induction false} EncodeAppend(a: seq<Byte>, b: seq<Byte>)
    requires |a| % 3 == 0
    ensures Encode(a + b) == Encode(a) + Encode(b)
    decreases |a|
  {
    if |a| > 0 {
      var a' := a[3..];
      WholeGroupsLeft(|a|);
      EncodeStep(a);
      EncodeStepAppend(a, b);
      EncodeAppend(a', b);
      Regroup(EncodeGroup(a[0], a[1], a[2]), Encode(a'), Encode(b));
    } else {
      assert a + b == b;
    }
  }

  /** The first fifty characters of the base 64 text depend on the first
      thirty-eight bytes only. */
  lemma {:induction false} FirstFiftyChars(b: seq<Byte>)
    requires |b| >= 38
    ensures |Encode(b)| >= 50
    ensures Encode(b)[..50] == Encode(b[..36]) + [Char(b[36] as int / 4), Char(b[36] as int % 4 * 16 + b[37] as int / 16)]
  {
    var head, tail := b[..36], b[36..];
    assert b == head + tail;
    EncodeAppend(head, tail);
    EncodeLength(head);
    OpeningChars(tail);
    var x, t := Encode(head), Encode(tail);
    assert tail[0] == b[36] && tail[1] == b[37];
    assert (x + t)[..50] == x + [t[0], t[1]] by {
      assert forall i :: 48 <= i < 50 ==> (x + t)[i] == t[i - 48];
    }
  }

  /** The first two characters of the base 64 text come from the first two
      bytes alone. */
  lemma {:induction false} OpeningChars(b: seq<Byte>)
    requires |b| >= 2
    ensures |Encode(b)| >= 2
    ensures Encode(b)[0] == Char(b[0] as int / 4)
    ensures Encode(b)[1] == Char(b[0] as int % 4 * 16 + b[1] as int / 16)
  {
    if |b| > 2 {
      EncodeStep(b);
    }
  }

  /** So two byte strings that agree on their first thirty-eight bytes have
      the same first fifty characters. */
  lemma {:induction false} SharedOpening(b1: seq<Byte>, b2: seq<Byte>)
    requires |b1| >= 38 && |b2| >= 38 && b1[..38] == b2[..38]
    ensures |Encode(b1)| >= 50 && |Encode(b2)| >= 50
    ensures Encode(b1)[..50] == Encode(b2)[..50]
  {
    FirstFiftyChars(b1);
    FirstFiftyChars(b2);
    assert b1[..36] == b2[..36] && b1[36] == b2[36] && b1[37] == b2[37] by {
      assert b1[..38][..36] == b1[..36] && b2[..38][..36] == b2[..36];
      assert b1[..38][36] == b1[36] && b2[..38][36] == b2[36];
      assert b1[..38][37] == b1[37] && b2[..38][37] == b2[37];
    }
  }
}
