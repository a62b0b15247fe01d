/** JavaScript string primitives used by the chat backend and the input box.
    A JavaScript string is a sequence of UTF-16 code units; Dafny's `char` is a
    Unicode scalar value and cannot hold a lone surrogate, so user text is kept
    as a sequence of 16-bit code units.  Diagnostic messages (thrown errors,
    JSON `error` fields) are only ever searched for ASCII substrings, so they
    stay plain Dafny strings. */
module JsText {

  newtype CodeUnit = x: int | 0 <= x < 0x1_0000

  /** An element of a Node.js `Buffer`. */
  newtype Byte = x: int | 0 <= x < 0x100

  /** A JavaScript string: UTF-16 code units, `length` counts units. */
  type JsString = seq<CodeUnit>

  /** An ASCII literal written in source text, as a JavaScript string. */
  function Lit(s: string): (r: JsString)
    ensures |r| == |s|
    ensures forall i :: 0 <= i < |s| && s[i] as int < 0x1_0000 ==> r[i] as int == s[i] as int
  {
    seq(|s|, i requires 0 <= i < |s| => if s[i] as int < 0x1_0000 then s[i] as int as CodeUnit else 0xFFFD)
  }

  /** ECMAScript WhiteSpace and LineTerminator code points, the set that
      `String.prototype.trim` strips. */
  predicate IsWhiteSpace(u: CodeUnit) {
    u == 0x09 || u == 0x0A || u == 0x0B || u == 0x0C || u == 0x0D || u == 0x20 ||
    u == 0xA0 || u == 0x1680 || (0x2000 <= u <= 0x200A) || u == 0x2028 ||
    u == 0x2029 || u == 0x202F || u == 0x205F || u == 0x3000 || u == 0xFEFF
  }

  predicate AllWhiteSpace(s: JsString) {
    forall i :: 0 <= i < |s| ==> IsWhiteSpace(s[i])
  }

  /** Leading white space removed. */
  function TrimStart(s: JsString): (r: JsString)
    ensures |r| <= |s|
  {
    if s != [] && IsWhiteSpace(s[0]) then TrimStart(s[1..]) else s
  }

  /** `TrimStart` drops a run of white space from the front, up to the first
      code unit that is not white space. */
  lemma {:induction false} TrimStartDrops(s: JsString)
    ensures var r := TrimStart(s);
      && r == s[|s| - |r|..] && AllWhiteSpace(s[..|s| - |r|])
      && (r == [] || !IsWhiteSpace(r[0]))
  {
    if s != [] && IsWhiteSpace(s[0]) {
      var t := s[1..];
      TrimStartDrops(t);
      var r := TrimStart(t);
      var k := |t| - |r|;
      assert t[k..] == s[k + 1..];
      var dropped := s[..k + 1];
      forall i | 0 <= i < |dropped| ensures IsWhiteSpace(dropped[i]) {
        if i > 0 {
          assert dropped[i] == t[..k][i - 1];
        }
      }
    }
  }

  /** Trailing white space removed. */
  function TrimEnd(s: JsString): (r: JsString)
    ensures |r| <= |s|
  {
    if s != [] && IsWhiteSpace(s[|s| - 1]) then TrimEnd(s[..|s| - 1]) else s
  }

  /** `TrimEnd` drops a run of white space from the back, down to the last
      code unit that is not white space. */
  lemma {:induction false} TrimEndDrops(s: JsString)
    ensures var r := TrimEnd(s);
      && r == s[..|r|] && AllWhiteSpace(s[|r|..])
      && (r == [] || !IsWhiteSpace(r[|r| - 1]))
  {
    if s != [] && IsWhiteSpace(s[|s| - 1]) {
      var t := s[..|s| - 1];
      TrimEndDrops(t);
      var r := TrimEnd(t);
      assert t[..|r|] == s[..|r|];
      var dropped := s[|r|..];
      forall i | 0 <= i < |dropped| ensures IsWhiteSpace(dropped[i]) {
        if i < |t| - |r| {
          assert dropped[i] == t[|r|..][i];
        }
      }
    }
  }

  /** `String.prototype.trim`. */
  function Trim(s: JsString): (r: JsString)
    ensures |r| <= |s|
  {
    TrimEnd(TrimStart(s))
  }

  /** Concatenation is associative. */
  lemma {:induction false} Regroup<T>(x: seq<T>, y: seq<T>, z: seq<T>)
    ensures x + (y + z) == (x + y) + z
  {
  }

  /** What remains after trimming neither starts nor ends with white
      space. */
  lemma {:induction false} TrimEdges(s: JsString)
    ensures Trim(s) == [] || (!IsWhiteSpace(Trim(s)[0]) && !IsWhiteSpace(Trim(s)[|Trim(s)| - 1]))
  {
    var t := TrimStart(s);
    var r := TrimEnd(t);
    TrimStartDrops(s);
    TrimEndDrops(t);
    if r != [] {
      assert r[0] == t[0];
    }
  }

  /** `trim` keeps a contiguous slice of its input and removes only white space
      around it. */
  lemma {:induction false} TrimIsSlice(s: JsString)
    ensures exists i, j :: 0 <= i <= j <= |s| && Trim(s) == s[i..j]
                           && AllWhiteSpace(s[..i]) && AllWhiteSpace(s[j..])
  {
    var t := TrimStart(s);
    var r := TrimEnd(t);
    var i := |s| - |t|;
    var j := i + |r|;
    TrimStartDrops(s);
    TrimEndDrops(t);
    assert t == s[i..] && AllWhiteSpace(s[..i]);
    assert r == t[..|r|] && AllWhiteSpace(t[|r|..]);
    assert t[..|r|] == s[i..j] && t[|r|..] == s[j..];
    assert Trim(s) == s[i..j];
  }

  /** Trimming twice is trimming once. */
  lemma {:induction false} TrimIdempotent(s: JsString)
    ensures Trim(Trim(s)) == Trim(s)
  {
    var r := Trim(s);
    TrimEdges(s);
    assert TrimStart(r) == r;
    assert TrimEnd(r) == r;
  }

  /** A string that neither starts nor ends with white space is its own
      trim. */
  lemma {:induction false} TrimKeeps(s: JsString)
    requires s != [] ==> !IsWhiteSpace(s[0]) && !IsWhiteSpace(s[|s| - 1])
    ensures Trim(s) == s
  {
  }

  /** A string trims to nothing exactly when it is all white space. */
  lemma {:induction false} TrimEmptyIffWhiteSpace(s: JsString)
    ensures Trim(s) == [] <==> AllWhiteSpace(s)
  {
    TrimIsSlice(s);
    TrimEdges(s);
  }

  predicate OccursAt(s: string, sub: string, i: int)
    requires 0 <= i <= |s| - |sub|
  {
    s[i..i + |sub|] == sub
  }

  /** `String.prototype.includes` on a diagnostic message (case-sensitive). */
  predicate Contains(s: string, sub: string) {
    exists i :: 0 <= i <= |s| - |sub| && OccursAt(s, sub, i)
  }

  /** A message contains a text when it holds it at some position. */
  lemma {:induction false} ContainsAt(s: string, sub: string, i: int)
    requires 0 <= i <= |s| - |sub| && s[i..i + |sub|] == sub
    ensures Contains(s, sub)
  {
    assert OccursAt(s, sub, i);
  }

  /** Containment survives adding text on either side. */
  lemma {:induction false} ContainsAppend(x: string, y: string, sub: string)
    ensures Contains(x, sub) ==> Contains(x + y, sub)
    ensures Contains(y, sub) ==> Contains(x + y, sub)
  {
    if Contains(x, sub) {
      var i :| 0 <= i <= |x| - |sub| && OccursAt(x, sub, i);
      assert (x + y)[i..i + |sub|] == x[i..i + |sub|];
      ContainsAt(x + y, sub, i);
    }
    if Contains(y, sub) {
      var i :| 0 <= i <= |y| - |sub| && OccursAt(y, sub, i);
      assert (x + y)[|x| + i..|x| + i + |sub|] == y[i..i + |sub|];
      ContainsAt(x + y, sub, |x| + i);
    }
  }

  /** No two adjacent characters of the message are `a` then `b`. */
  predicate LacksPair(s: string, a: char, b: char) {
    forall i :: 0 <= i < |s| - 1 ==> !(s[i] == a && s[i + 1] == b)
  }

  /** A message cannot contain a text one of whose adjacent pairs of
      characters it never holds. */
  lemma {:induction false} AbsentPair(s: string, sub: string, k: nat)
    requires k + 1 < |sub|
    requires LacksPair(s, sub[k], sub[k + 1])
    ensures !Contains(s, sub)
  {
    forall i | 0 <= i <= |s| - |sub| ensures !OccursAt(s, sub, i) {
      assert s[i..i + |sub|][k] == s[i + k];
      assert s[i..i + |sub|][k + 1] == s[i + k + 1];
    }
  }

  /** A pair is missing from a joined message when it is missing from both
      parts and does not straddle the seam. */
  lemma {:induction false} LacksPairAppend(x: string, y: string, a: char, b: char)
    requires LacksPair(x, a, b) && LacksPair(y, a, b)
    requires x != [] && y != [] ==> !(x[|x| - 1] == a && y[0] == b)
    ensures LacksPair(x + y, a, b)
  {
    var s := x + y;
    forall i | 0 <= i < |s| - 1 ensures !(s[i] == a && s[i + 1] == b) {
      if i + 1 < |x| {
        assert s[i] == x[i] && s[i + 1] == x[i + 1];
      } else if i >= |x| {
        assert s[i] == y[i - |x|] && s[i + 1] == y[i + 1 - |x|];
      }
    }
  }

  /** A message written in two pieces lacks a text when both pieces and the
      seam between them lack one of its adjacent pairs. */
  lemma {:induction false} AbsentFromPieces(x: string, y: string, sub: string, k: nat)
    requires k + 1 < |sub|
    requires LacksPair(x, sub[k], sub[k + 1]) && LacksPair(y, sub[k], sub[k + 1])
    requires x != [] && y != [] ==> !(x[|x| - 1] == sub[k] && y[0] == sub[k + 1])
    ensures !Contains(x + y, sub)
  {
    LacksPairAppend(x, y, sub[k], sub[k + 1]);
    AbsentPair(x + y, sub, k);
  }

  /** Decimal rendering of a non-negative integer (template-literal `${n}`). */
  function Decimal(n: nat): (r: string)
    ensures |r| > 0
    ensures forall i :: 0 <= i < |r| ==> '0' <= r[i] <= '9'
  {
    if n < 10 then [Digit(n)] else Decimal(n / 10) + [Digit(n % 10)]
  }

  function Digit(d: nat): (c: char)
    requires d < 10
    ensures '0' <= c <= '9'
  {
    ['0', '1', '2', '3', '4', '5', '6', '7', '8', '9'][d]
  }
}
