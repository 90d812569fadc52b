/**
 * JavaScript string semantics the app relies on: the relational operators on strings
 * (lexicographic comparison of UTF-16 code units, section 7.2.13 of ECMA-262) and
 * `String.prototype.trim` (section 22.1.3.32), which strips WhiteSpace and LineTerminator.
 *
 * A Dafny `char` is a Unicode scalar value. A JavaScript string is a sequence of UTF-16 code
 * units, so a character above U+FFFF is two units, a surrogate pair. Ordering characters by
 * their first code unit, and then by scalar value, gives exactly code-unit order. The first
 * unit of a BMP character is never a surrogate, so no ties remain.
 */
module JsText {

  /** The first UTF-16 code unit of `c`: itself in the BMP, else its high surrogate. */
  function FirstCodeUnit(c: char): (u: int)
    ensures 0 <= u < 0x1_0000
    ensures c as int < 0x1_0000 ==> u == c as int
    ensures c as int >= 0x1_0000 ==> 0xD800 <= u < 0xDC00
  {
    if c as int < 0x1_0000 then c as int else 0xD800 + (c as int - 0x1_0000) / 0x400
  }

  /** `a` sorts before `b` when compared code unit by code unit. */
  predicate CharBefore(a: char, b: char) {
    if FirstCodeUnit(a) != FirstCodeUnit(b) then FirstCodeUnit(a) < FirstCodeUnit(b) else a < b
  }

  /**
   * `a <= b` on JavaScript strings: `a` is a prefix of `b`, or at the first position where
   * they differ `a` has the smaller code unit.
   */
  predicate LessEq(a: string, b: string): (r: bool)
    ensures a <= b ==> r
    ensures r && b <= a ==> a == b
  {
    if a == [] then true
    else if b == [] then false
    else if a[0] != b[0] then CharBefore(a[0], b[0])
    else LessEq(a[1..], b[1..])
  }

  /** `a < b` on JavaScript strings. */
  predicate Less(a: string, b: string) {
    !LessEq(b, a)
  }

  lemma CharBeforeOrder(a: char, b: char, c: char)
    ensures !CharBefore(a, a)
    ensures a != b ==> CharBefore(a, b) || CharBefore(b, a)
    ensures CharBefore(a, b) ==> !CharBefore(b, a)
    ensures CharBefore(a, b) && CharBefore(b, c) ==> CharBefore(a, c)
  {
  }

  lemma {:induction false} LessEqReflexive(a: string)
    ensures LessEq(a, a)
  {
    if a != [] { LessEqReflexive(a[1..]); }
  }

  lemma {:induction false} LessEqTotal(a: string, b: string)
    ensures LessEq(a, b) || LessEq(b, a)
  {
    if a != [] && b != [] {
      if a[0] == b[0] { LessEqTotal(a[1..], b[1..]); } else { CharBeforeOrder(a[0], b[0], a[0]); }
    }
  }

  lemma {:induction false} LessEqAntisymmetric(a: string, b: string)
    requires LessEq(a, b) && LessEq(b, a)
    ensures a == b
  {
    if a != [] && b != [] {
      if a[0] == b[0] {
        LessEqAntisymmetric(a[1..], b[1..]);
        assert a == [a[0]] + a[1..] && b == [b[0]] + b[1..];
      } else {
        CharBeforeOrder(a[0], b[0], a[0]);
      }
    }
  }

  lemma {:induction false} LessEqTransitive(a: string, b: string, c: string)
    requires LessEq(a, b) && LessEq(b, c)
    ensures LessEq(a, c)
  {
    if a != [] && b != [] && c != [] {
      CharBeforeOrder(a[0], b[0], c[0]);
      if a[0] == b[0] && b[0] == c[0] {
        LessEqTransitive(a[1..], b[1..], c[1..]);
      }
    }
  }

  /** `a < b` holds exactly when `a <= b` and the strings differ. */
  lemma LessIsStrict(a: string, b: string)
    ensures Less(a, b) <==> LessEq(a, b) && a != b
  {
    LessEqTotal(a, b);
    if LessEq(a, b) && LessEq(b, a) { LessEqAntisymmetric(a, b); }
    if a == b { LessEqReflexive(a); }
  }

  /** The characters `trim` removes: ECMAScript WhiteSpace (with every Zs space) and LineTerminator. */
  predicate IsJsWhitespace(c: char) {
    var u := c as int;
    u == 0x09 || u == 0x0B || u == 0x0C || u == 0x20 || u == 0xA0 || u == 0xFEFF
    || u == 0x1680 || (0x2000 <= u <= 0x200A) || u == 0x202F || u == 0x205F || u == 0x3000
    || u == 0x0A || u == 0x0D || u == 0x2028 || u == 0x2029
  }

  ghost predicate AllWhitespace(s: string) {
    forall c :: c in s ==> IsJsWhitespace(c)
  }

  function TrimStart(s: string): (r: string)
    ensures |r| <= |s| && r == s[|s| - |r|..]
    ensures AllWhitespace(s[..|s| - |r|])
    ensures r != [] ==> !IsJsWhitespace(r[0])
  {
    if s != [] && IsJsWhitespace(s[0]) then TrimStart(s[1..]) else s
  }

  function TrimEnd(s: string): (r: string)
    ensures |r| <= |s| && r == s[..|r|]
    ensures AllWhitespace(s[|r|..])
    ensures r != [] ==> !IsJsWhitespace(r[|r| - 1])
  {
    if s != [] && IsJsWhitespace(s[|s| - 1]) then TrimEnd(s[..|s| - 1]) else s
  }

  /** `String.prototype.trim`: the result neither starts nor ends with whitespace. */
  function Trim(s: string): (r: string)
    ensures |r| <= |s|
    ensures r != [] ==> !IsJsWhitespace(r[0]) && !IsJsWhitespace(r[|r| - 1])
  {
    TrimEnd(TrimStart(s))
  }

  /**
   * `s` is its trimmed form with a whitespace prefix and a whitespace suffix put back: the
   * trimmed form sits at offset `|s| - |TrimStart(s)|`, the length of the leading whitespace.
   */
  lemma TrimDecomposes(s: string)
    ensures |s| - |TrimStart(s)| + |Trim(s)| <= |s|
    ensures s[|s| - |TrimStart(s)|..|s| - |TrimStart(s)| + |Trim(s)|] == Trim(s)
    ensures AllWhitespace(s[..|s| - |TrimStart(s)|])
    ensures AllWhitespace(s[|s| - |TrimStart(s)| + |Trim(s)|..])
  {
    var t := TrimStart(s);
    var r := TrimEnd(t);
    PadAround(s, t, r);
  }

  /** A suffix `t` of `s` after whitespace, and a prefix `r` of `t` before whitespace. */
  lemma PadAround(s: string, t: string, r: string)
    requires |t| <= |s| && t == s[|s| - |t|..]
    requires |r| <= |t| && r == t[..|r|] && AllWhitespace(t[|r|..])
    ensures |s| - |t| + |r| <= |s| && s[|s| - |t|..|s| - |t| + |r|] == r
    ensures AllWhitespace(s[|s| - |t| + |r|..])
  {
    var i := |s| - |t|;
    assert s[i + |r|..] == t[|r|..];
  }

  /** The trimmed form is empty exactly when `s` is all whitespace. */
  lemma {:induction false} TrimEmpty(s: string)
    ensures Trim(s) == [] <==> AllWhitespace(s)
  {
    var t := TrimStart(s);
    var pre := s[..|s| - |t|];
    assert s == pre + t;
    if t == [] {
      assert s == pre;
    } else {
      assert TrimEnd(t) != [];
      assert !IsJsWhitespace(s[|pre|]);
    }
  }

  /** Trimming is idempotent. */
  lemma TrimIdempotent(s: string)
    ensures Trim(Trim(s)) == Trim(s)
  {
    var r := Trim(s);
    assert TrimStart(r) == r;
    assert TrimEnd(r) == r;
  }
}
