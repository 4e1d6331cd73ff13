/**
 * The string primitives the forms rely on: `String.prototype.trim`, the
 * "blank" test `!s.trim()`, and the numeric test behind `isNaN(s)` and
 * `Number(s)`, restricted to plain decimal numerals.
 */
module Text {
  import opened Basics

  /** The code points `trim` removes: ECMAScript WhiteSpace and LineTerminator. */
  predicate IsSpace(c: char) {
    || c == ' ' || c == '\t' || c == '\n' || c == '\r' || c == '\U{B}' || c == '\U{C}'
    || c == '\U{A0}' || c == '\U{1680}' || ('\U{2000}' <= c <= '\U{200A}')
    || c == '\U{2028}' || c == '\U{2029}' || c == '\U{202F}' || c == '\U{205F}'
    || c == '\U{3000}' || c == '\U{FEFF}'
  }

  predicate AllSpace(s: string) {
    forall i :: 0 <= i < |s| ==> IsSpace(s[i])
  }

  /** Drops leading white space. */
  function TrimStart(s: string): (r: string)
    ensures |r| <= |s| && r == s[|s| - |r|..]
    ensures AllSpace(s[..|s| - |r|])
    ensures r == [] || !IsSpace(r[0])
  {
    if s == [] || !IsSpace(s[0]) then s else TrimStart(s[1..])
  }

  /** Drops trailing white space. */
  function TrimEnd(s: string): (r: string)
    ensures |r| <= |s| && r == s[..|r|]
    ensures AllSpace(s[|r|..])
    ensures r == [] || !IsSpace(r[|r| - 1])
  {
    if s == [] || !IsSpace(s[|s| - 1]) then s else TrimEnd(s[..|s| - 1])
  }

  /** `s.trim()`: no white space is left at either end. */
  function Trim(s: string): (r: string)
    ensures |r| <= |s|
    ensures r == [] || (!IsSpace(r[0]) && !IsSpace(r[|r| - 1]))
  {
    TrimEnd(TrimStart(s))
  }

  /** `r` sits at offset `i` of `s`, with only white space before and after it. */
  ghost predicate InnerSlice(s: string, r: string, i: int) {
    0 <= i <= |s| - |r| && r == s[i..i + |r|] && AllSpace(s[..i]) && AllSpace(s[i + |r|..])
  }

  /** What `trim` removes is a leading and a trailing run of white space, nothing from the middle. */
  lemma TrimIsInnerSlice(s: string)
    ensures exists i :: InnerSlice(s, Trim(s), i)
  {
    var t := TrimStart(s);
    var r := TrimEnd(t);
    var i := |s| - |t|;
    SliceTail(s, t, r, i);
    assert Trim(s) == r;
    assert InnerSlice(s, Trim(s), i);
  }

  /** A prefix `r` of the suffix `t == s[i..]`, followed in `t` by white space only, sits at `i` in `s` with white space only after it. */
  lemma SliceTail(s: string, t: string, r: string, i: int)
    requires 0 <= i <= |s| && t == s[i..] && |r| <= |t| && r == t[..|r|] && AllSpace(t[|r|..])
    ensures r == s[i..i + |r|] && AllSpace(s[i + |r|..])
  {
    forall k | i + |r| <= k < |s|
      ensures IsSpace(s[k])
    {
      assert s[k] == t[k - i];
      assert t[k - i] == t[|r|..][k - i - |r|];
    }
  }

  /** `!s.trim()`: the trimmed text is the empty (falsy) string, exactly when every character is white space. */
  predicate IsBlank(s: string): (b: bool)
    ensures b <==> AllSpace(s)
  {
    EmptyTrimIffAllSpace(s);
    |Trim(s)| == 0
  }

  lemma EmptyTrimIffAllSpace(s: string)
    ensures |Trim(s)| == 0 <==> AllSpace(s)
  {
    var t := TrimStart(s);
    if |Trim(s)| == 0 {
      assert AllSpace(t[0..]);
      assert t == [];
      assert s == s[..|s| - |t|];
    } else {
      var r := Trim(s);
      assert r == t[..|r|] && |r| > 0;
      assert r[0] == s[|s| - |t|];
    }
  }

  predicate IsDigit(c: char) {
    '0' <= c <= '9'
  }

  /** A character of the regular-expression class `\w`: `[A-Za-z0-9_]`. */
  predicate IsWordChar(c: char) {
    IsDigit(c) || 'a' <= c <= 'z' || 'A' <= c <= 'Z' || c == '_'
  }

  predicate AllDigits(s: string) {
    forall i :: 0 <= i < |s| ==> IsDigit(s[i])
  }

  /** The value of a run of decimal digits, most significant first. */
  function DigitsValue(s: string): nat
    requires AllDigits(s)
  {
    if s == [] then 0
    else 10 * DigitsValue(s[..|s| - 1]) + (s[|s| - 1] as int - '0' as int)
  }

  function Pow10(k: nat): (p: nat)
    ensures p >= 1
  {
    if k == 0 then 1 else 10 * Pow10(k - 1)
  }

  /** The position of the first `c` in `s`, if any. */
  function IndexOf(s: string, c: char): (r: Option<nat>)
    ensures r.Some? ==> r.value < |s| && s[r.value] == c && c !in s[..r.value]
    ensures r.None? ==> c !in s
  {
    if s == [] then None
    else if s[0] == c then Some(0)
    else match IndexOf(s[1..], c)
      case None => None
      case Some(k) => Some(k + 1)
  }

  /** An unsigned decimal numeral: `ddd`, `ddd.ddd`, `ddd.` or `.ddd`, with at least one digit. */
  function ParseUnsigned(s: string): (r: Option<real>)
    ensures AllDigits(s) && s != [] ==> r == Some(DigitsValue(s) as real)
    ensures r.Some? ==> s != [] && r.value >= 0.0
  {
    match IndexOf(s, '.')
    case None =>
      if s != [] && AllDigits(s) then Some(DigitsValue(s) as real) else None
    case Some(k) =>
      var whole, fraction := s[..k], s[k + 1..];
      if |whole| + |fraction| > 0 && AllDigits(whole) && AllDigits(fraction)
      then Some(DigitsValue(whole) as real + DigitsValue(fraction) as real / Pow10(|fraction|) as real)
      else None
  }

  /** A decimal numeral with an optional leading sign. */
  function ParseDecimal(s: string): (r: Option<real>)
    ensures r.Some? ==> s != []
    ensures r.Some? && r.value < 0.0 ==> s[0] == '-'
    ensures s != [] && IsDigit(s[0]) ==> r == ParseUnsigned(s)
  {
    if s != [] && s[0] == '-' then
      match ParseUnsigned(s[1..])
      case None => None
      case Some(v) => Some(-v)
    else if s != [] && s[0] == '+' then ParseUnsigned(s[1..])
    else ParseUnsigned(s)
  }

  /** `s` is `ddd.ddd` with the point at `k`: digits on both sides, at least one digit in all. */
  ghost predicate FractionalAt(s: string, k: int) {
    0 <= k < |s| && s[k] == '.' && |s| > 1 && AllDigits(s[..k]) && AllDigits(s[k + 1..])
  }

  /** The unsigned numerals: a non-empty run of digits, or two runs around one point. */
  ghost predicate IsUnsignedNumeral(s: string) {
    (s != [] && AllDigits(s)) || exists k :: FractionalAt(s, k)
  }

  /** An optional `-` or `+` followed by an unsigned numeral. */
  ghost predicate IsDecimalNumeral(s: string) {
    IsUnsignedNumeral(s) || (s != [] && (s[0] == '-' || s[0] == '+') && IsUnsignedNumeral(s[1..]))
  }

  /** The first `c` is at `k` when `s[k]` is `c` and no `c` comes before it. */
  lemma {:induction false} IndexOfFirst(s: string, c: char, k: int)
    requires 0 <= k < |s| && s[k] == c && c !in s[..k]
    ensures IndexOf(s, c) == Some(k)
  {
    if k > 0 {
      assert s[0] == s[..k][0];
      assert s[1..][..k - 1] == s[..k][1..];
      IndexOfFirst(s[1..], c, k - 1);
    }
  }

  /** A numeral with its point at `k` is worth its whole part plus its fraction digits over a power of ten. */
  lemma ParseUnsignedFractionAt(s: string, k: int)
    requires FractionalAt(s, k)
    ensures ParseUnsigned(s)
         == Some(DigitsValue(s[..k]) as real + DigitsValue(s[k + 1..]) as real / Pow10(|s| - k - 1) as real)
  {
    assert '.' !in s[..k] by {
      forall i | 0 <= i < k ensures s[..k][i] != '.' {
        assert IsDigit(s[..k][i]);
      }
    }
    IndexOfFirst(s, '.', k);
    var whole, fraction := s[..k], s[k + 1..];
    assert |fraction| == |s| - k - 1 && |whole| + |fraction| > 0;
    assert AllDigits(whole) && AllDigits(fraction);
  }

  /** The parser accepts exactly the unsigned numerals. */
  lemma ParseUnsignedGrammar(s: string)
    ensures ParseUnsigned(s).Some? <==> IsUnsignedNumeral(s)
  {
    if ParseUnsigned(s).Some? {
      match IndexOf(s, '.') {
        case None =>
        case Some(k) => assert FractionalAt(s, k);
      }
    }
    if exists k :: FractionalAt(s, k) {
      var k :| FractionalAt(s, k);
      ParseUnsignedFractionAt(s, k);
    }
  }

  /** With its sign, the parser accepts exactly the decimal numerals. */
  lemma ParseDecimalGrammar(s: string)
    ensures ParseDecimal(s).Some? <==> IsDecimalNumeral(s)
  {
    ParseUnsignedGrammar(s);
    if s != [] && (s[0] == '-' || s[0] == '+') {
      ParseUnsignedGrammar(s[1..]);
      assert !IsDigit(s[0]);
      forall k | 0 < k < |s| ensures !AllDigits(s[..k]) {
        assert s[..k][0] == s[0];
      }
      assert !IsUnsignedNumeral(s);
    }
  }

  /**
   * `!isNaN(s)` for a non-blank text: `Number` trims it and reads a numeral.
   * A blank text is not numeric here, while `Number` reads it as 0.
   */
  predicate IsNumeric(s: string): (b: bool)
    ensures b ==> !IsBlank(s)
  {
    EmptyTrimIffAllSpace(s);
    ParseDecimal(Trim(s)).Some?
  }

  /** `Number(s)` for a numeric text: negative only when the trimmed text starts with a minus sign. */
  function ToNumber(s: string): (r: real)
    requires IsNumeric(s)
    ensures r < 0.0 ==> Trim(s)[0] == '-'
  {
    ParseDecimal(Trim(s)).value
  }

  /** The decimal numeral of a natural number, as `String(n)` writes it. */
  function Decimal(n: nat): (r: string)
    ensures r != [] && AllDigits(r)
    ensures DigitsValue(r) == n
  {
    var last := [(n % 10 + '0' as int) as char];
    if n < 10 then last else
      var r := Decimal(n / 10) + last;
      assert r[..|r| - 1] == Decimal(n / 10);
      r
  }

  /** Every natural number's numeral reads back as that number. */
  lemma DecimalRoundTrip(n: nat)
    ensures IsNumeric(Decimal(n)) && ToNumber(Decimal(n)) == n as real
  {
    var r := Decimal(n);
    assert IsDigit(r[0]) && IsDigit(r[|r| - 1]);
    NumericUnpadded(r);
  }

  /** A text with no white space at either end is its own trimming. */
  lemma TrimUnpadded(s: string)
    requires s != [] && !IsSpace(s[0]) && !IsSpace(s[|s| - 1])
    ensures Trim(s) == s
  {
  }

  /** For a text with no surrounding white space, `Number` reads the numeral as it stands. */
  lemma NumericUnpadded(s: string)
    requires s != [] && !IsSpace(s[0]) && !IsSpace(s[|s| - 1])
    ensures IsNumeric(s) <==> ParseDecimal(s).Some?
    ensures IsNumeric(s) ==> ToNumber(s) == ParseDecimal(s).value
  {
    TrimUnpadded(s);
  }

  lemma ParseDigits100()
    ensures ParseDecimal("100") == Some(100.0)
  {
    assert IndexOf("100", '.') == None;
    assert DigitsValue("100") == 100 by {
      assert "100"[..2] == "10" && "10"[..1] == "1" && "1"[..0] == "";
    }
  }

  lemma ParseDigits0()
    ensures ParseDecimal("0") == Some(0.0)
  {
    assert IndexOf("0", '.') == None;
    assert DigitsValue("0") == 0 by {
      assert "0"[..0] == "";
    }
  }

  /** Worked values of the numeric reading used by the forms' range check: both ends of [0, 100]. */
  lemma NumericZero()
    ensures IsNumeric("0") && ToNumber("0") == 0.0
  {
    ParseDigits0();
    NumericUnpadded("0");
  }

  lemma NumericHundred()
    ensures IsNumeric("100") && ToNumber("100") == 100.0
  {
    ParseDigits100();
    NumericUnpadded("100");
  }

  lemma ParseFraction()
    ensures ParseDecimal("12.5") == Some(12.5)
  {
    assert IndexOf("12.5", '.') == Some(2) by {
      assert "12.5"[1..] == "2.5" && "2.5"[1..] == ".5";
    }
    assert "12.5"[..2] == "12" && "12.5"[3..] == "5";
    assert DigitsValue("12") == 12 by {
      assert "12"[..1] == "1" && "1"[..0] == "";
    }
    assert DigitsValue("5") == 5 by {
      assert "5"[..0] == "";
    }
  }

  /** `Number` ignores surrounding white space and reads a fractional part. */
  lemma NumericPaddedFraction()
    ensures IsNumeric(" 12.5 ") && ToNumber(" 12.5 ") == 12.5
  {
    TrimPaddedFraction();
    ParseFraction();
  }

  lemma TrimPaddedFraction()
    ensures Trim(" 12.5 ") == "12.5"
  {
    assert " 12.5 " == [' '] + ("12.5" + [' ']);
    TrimSurroundingSpace(' ', "12.5", ' ');
  }

  /** One white-space character on each side of an unpadded text is all `trim` removes. */
  lemma TrimSurroundingSpace(before: char, t: string, after: char)
    requires IsSpace(before) && IsSpace(after)
    requires t != [] && !IsSpace(t[0]) && !IsSpace(t[|t| - 1])
    ensures Trim([before] + (t + [after])) == t
  {
    TrimStartDropsSpace(before, t + [after]);
    TrimEndDropsSpace(t, after);
  }

  lemma TrimStartDropsSpace(c: char, t: string)
    requires IsSpace(c) && t != [] && !IsSpace(t[0])
    ensures TrimStart([c] + t) == t
  {
    assert ([c] + t)[1..] == t;
  }

  lemma TrimEndDropsSpace(t: string, c: char)
    requires IsSpace(c) && t != [] && !IsSpace(t[|t| - 1])
    ensures TrimEnd(t + [c]) == t
  {
    assert (t + [c])[..|t|] == t;
  }

  lemma NumericNegative()
    ensures IsNumeric("-1") && ToNumber("-1") == -1.0
  {
    assert ParseDecimal("-1") == Some(-1.0) by {
      assert "-1"[1..] == "1";
      assert IndexOf("1", '.') == None;
      assert DigitsValue("1") == 1 by {
        assert "1"[..0] == "";
      }
    }
    NumericUnpadded("-1");
  }

  lemma NotNumericWord()
    ensures !IsNumeric("abc")
  {
    assert ParseDecimal("abc") == None by {
      assert IndexOf("abc", '.') == None;
      assert !IsDigit("abc"[0]);
    }
    NumericUnpadded("abc");
  }

  lemma NotNumericTwoPoints()
    ensures !IsNumeric("1.2.3")
  {
    assert ParseDecimal("1.2.3") == None by {
      assert IndexOf("1.2.3", '.') == Some(1) by {
        assert "1.2.3"[1..] == ".2.3";
      }
      assert "1.2.3"[2..] == "2.3";
      assert !IsDigit("2.3"[1]);
    }
    NumericUnpadded("1.2.3");
  }

  lemma NotNumericLonePoint()
    ensures !IsNumeric(".")
  {
    assert ParseDecimal(".") == None by {
      assert IndexOf(".", '.') == Some(0);
      assert "."[..0] == "" && "."[1..] == "";
    }
    NumericUnpadded(".");
  }
}
