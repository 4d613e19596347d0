/**
 * The string operations the validator and the splitters rely on:
 * whitespace trimming, searching for a character, ASCII lower-casing, and the
 * two number parsers — the decimal library's string parser (plain decimal
 * notation) and the standard integer parser.
 */
module Text {
  import opened Wrappers
  import Decimal

  /** The characters the Unicode White_Space property marks as spaces. */
  predicate IsSpace(c: char)
  {
    || c == ' ' || c == '\t' || c == '\n' || c == '\U{000B}' || c == '\U{000C}' || c == '\r'
    || c == '\U{0085}' || c == '\U{00A0}' || c == '\U{1680}'
    || ('\U{2000}' <= c <= '\U{200A}')
    || c == '\U{2028}' || c == '\U{2029}' || c == '\U{202F}' || c == '\U{205F}' || c == '\U{3000}'
  }

  /** Drops leading white space. */
  function TrimLeft(s: string): (r: string)
    ensures |r| <= |s| && r == s[|s| - |r|..]
    ensures r == [] || !IsSpace(r[0])
    ensures forall i :: 0 <= i < |s| - |r| ==> IsSpace(s[i])
  {
    if |s| > 0 && IsSpace(s[0]) then TrimLeft(s[1..]) else s
  }

  /** Drops trailing white space. */
  function TrimRight(s: string): (r: string)
    ensures |r| <= |s| && r == s[..|r|]
    ensures r == [] || !IsSpace(r[|r| - 1])
    ensures forall i :: |r| <= i < |s| ==> IsSpace(s[i])
  {
    if |s| > 0 && IsSpace(s[|s| - 1]) then TrimRight(s[..|s| - 1]) else s
  }

  /** `r` is the part of `s` at `i`, with only white space before and after it. */
  predicate TrimmedAt(s: string, r: string, i: int)
    requires 0 <= i <= |s| - |r|
  {
    && r == s[i..i + |r|]
    && (forall k :: 0 <= k < i ==> IsSpace(s[k]))
    && (forall k :: i + |r| <= k < |s| ==> IsSpace(s[k]))
  }

  /** A suffix `left` of `s` after white space only, and a prefix `r` of
      `left` before white space only, with no white space at the inner ends,
      is `s` trimmed. */
  lemma TrimmedPiece(s: string, left: string, r: string)
    requires |left| <= |s| && left == s[|s| - |left|..]
    requires forall i :: 0 <= i < |s| - |left| ==> IsSpace(s[i])
    requires left == [] || !IsSpace(left[0])
    requires |r| <= |left| && r == left[..|r|]
    requires forall i :: |r| <= i < |left| ==> IsSpace(left[i])
    requires r == [] || !IsSpace(r[|r| - 1])
    ensures TrimmedAt(s, r, |s| - |left|)
    ensures r == [] || (!IsSpace(r[0]) && !IsSpace(r[|r| - 1]))
    ensures r == [] <==> forall i :: 0 <= i < |s| ==> IsSpace(s[i])
  {
    var d := |s| - |left|;
    assert s[d..d + |r|] == left[..|r|];
    forall k | d + |r| <= k < |s| ensures IsSpace(s[k]) {
      assert s[k] == left[k - d];
    }
    if left != [] {
      assert r != [] && r[0] == left[0];
      assert s[d] == left[0];
    }
  }

  /** Drops white space at both ends. */
  function TrimSpace(s: string): (r: string)
    ensures |r| <= |s|
    ensures r == [] || (!IsSpace(r[0]) && !IsSpace(r[|r| - 1]))
    ensures r == [] <==> forall i :: 0 <= i < |s| ==> IsSpace(s[i])
  {
    var left := TrimLeft(s);
    var r := TrimRight(left);
    TrimmedPiece(s, left, r);
    r
  }

  /** The trimmed string is the part of `s` left between its leading and
      its trailing white space. */
  lemma TrimSpaceIsTrim(s: string)
    ensures var r := TrimSpace(s);
      |s| - |TrimLeft(s)| <= |s| - |r| && TrimmedAt(s, r, |s| - |TrimLeft(s)|)
  {
    TrimmedPiece(s, TrimLeft(s), TrimSpace(s));
  }

  /** A string that starts and ends with non-space characters is its own trim. */
  lemma TrimSpaceNoop(s: string)
    requires s == [] || (!IsSpace(s[0]) && !IsSpace(s[|s| - 1]))
    ensures TrimSpace(s) == s
  {
  }

  /** A leading white-space character does not change the trim. */
  lemma TrimSpaceLeading(c: char, s: string)
    requires IsSpace(c)
    ensures TrimSpace([c] + s) == TrimSpace(s)
  {
    assert ([c] + s)[1..] == s;
    assert TrimLeft([c] + s) == TrimLeft(s);
  }

  /** The parser does not skip white space: a field with a leading space
      never parses. */
  lemma SpacePrefixRejected(c: char, s: string)
    requires IsSpace(c)
    ensures ParseDecimal([c] + s).None?
  {
    var p := [c] + s;
    assert Unsigned(p) == p;
    var k := IndexOf(p, '.');
    assert k != 0;
    assert Whole(p) != [] && Whole(p)[0] == c;
  }

  /** Position of the first `c` in `s`, or -1. */
  function IndexOf(s: string, c: char): (r: int)
    ensures -1 <= r < |s|
    ensures r == -1 <==> c !in s
    ensures r >= 0 ==> s[r] == c && c !in s[..r]
  {
    if |s| == 0 then -1
    else if s[0] == c then 0
    else
      var k := IndexOf(s[1..], c);
      assert s[1..][..k + 1] == s[1..k + 2] || k == -1;
      if k == -1 then -1 else k + 1
  }

  predicate IsAsciiUpper(c: char)
  {
    'A' <= c <= 'Z'
  }

  /** Lower-cases the ASCII letters and keeps every other character. */
  function ToLowerAscii(s: string): (r: string)
    ensures |r| == |s|
    ensures forall i :: 0 <= i < |r| ==> !IsAsciiUpper(r[i])
    ensures forall i :: 0 <= i < |s| ==> r[i] == s[i] || (IsAsciiUpper(s[i]) && r[i] as int == s[i] as int + 32)
  {
    seq(|s|, i requires 0 <= i < |s| => if 'A' <= s[i] <= 'Z' then (s[i] as int + 32) as char else s[i])
  }

  predicate IsDigit(c: char)
  {
    '0' <= c <= '9'
  }

  predicate AllDigits(s: string)
  {
    forall i :: 0 <= i < |s| ==> IsDigit(s[i])
  }

  /** The number a string of decimal digits denotes. */
  function DigitsValue(s: string): nat
    requires AllDigits(s)
  {
    if |s| == 0 then 0 else DigitsValue(s[..|s| - 1]) * 10 + (s[|s| - 1] as int - '0' as int)
  }

  /** The string without a leading '+' or '-'. */
  function Unsigned(s: string): string
  {
    if |s| > 0 && (s[0] == '-' || s[0] == '+') then s[1..] else s
  }

  function Whole(body: string): string
  {
    var k := IndexOf(body, '.');
    if k < 0 then body else body[..k]
  }

  function Fraction(body: string): string
  {
    var k := IndexOf(body, '.');
    if k < 0 then "" else body[k + 1..]
  }

  /**
   * The decimal library's string parser, for plain decimal notation: an
   * optional sign, then digits with at most one '.', with at least one digit.
   * The value is the digit string without its point, scaled down by the
   * number of digits after the point.
   */
  function ParseDecimal(s: string): Option<real>
  {
    var body := Unsigned(s);
    var whole, frac := Whole(body), Fraction(body);
    if |whole| + |frac| > 0 && AllDigits(whole) && AllDigits(frac) then
      var magnitude := DigitsValue(whole + frac) as real / Decimal.Pow10(|frac|) as real;
      Some(if |s| > 0 && s[0] == '-' then -magnitude else magnitude)
    else
      None
  }

  /** A splitter reads a field it cannot parse as zero. */
  function ParseOrZero(s: string): (r: real)
    ensures ParseDecimal(s).Some? ==> r == ParseDecimal(s).value
    ensures ParseDecimal(s).None? ==> r == 0.0
  {
    ParseDecimal(s).GetOr(0.0)
  }

  const MinInt64: int := -0x8000_0000_0000_0000
  const MaxInt64: int := 0x7FFF_FFFF_FFFF_FFFF

  /** The standard integer parser: an optional sign, then at least one digit,
      within the 64-bit range. */
  function ParseInt(s: string): (r: Option<int>)
    ensures r.Some? ==> MinInt64 <= r.value <= MaxInt64
  {
    var body := Unsigned(s);
    if |body| > 0 && AllDigits(body) then
      var n := if s[0] == '-' then -(DigitsValue(body) as int) else DigitsValue(body) as int;
      if MinInt64 <= n <= MaxInt64 then Some(n) else None
    else
      None
  }

  /** An integer the integer parser accepts is read the same by the decimal parser. */
  lemma ParseIntAgrees(s: string)
    requires ParseInt(s).Some?
    ensures ParseDecimal(s) == Some(ParseInt(s).value as real)
  {
    var b := Unsigned(s);
    assert IndexOf(b, '.') < 0 by {
      forall i | 0 <= i < |b| ensures b[i] != '.' {
        assert IsDigit(b[i]);
      }
    }
    assert Whole(b) == b && Fraction(b) == "" && b + "" == b;
    assert Decimal.Pow10(0) == 1;
  }

  /** Plain decimal notation, as the parser accepts it: an optional sign,
      then only digits and points, at most one point, and at least one digit. */
  predicate PlainDecimal(s: string)
  {
    PlainBody(Unsigned(s))
  }

  predicate PlainBody(b: string)
  {
    && (forall i :: 0 <= i < |b| ==> IsDigit(b[i]) || b[i] == '.')
    && (forall i, j :: 0 <= i < j < |b| && b[i] == '.' ==> b[j] != '.')
    && (exists i :: 0 <= i < |b| && IsDigit(b[i]))
  }

  /** Digits on both sides of the first point (or all digits, without one),
      and at least one of them. */
  predicate DigitsAroundPoint(b: string)
  {
    |Whole(b)| + |Fraction(b)| > 0 && AllDigits(Whole(b)) && AllDigits(Fraction(b))
  }

  /** The parser accepts exactly the strings in plain decimal notation. */
  lemma ParseDecimalAccepts(s: string)
    ensures ParseDecimal(s).Some? <==> PlainDecimal(s)
  {
    var b := Unsigned(s);
    assert ParseDecimal(s).Some? <==> DigitsAroundPoint(b);
    PlainBodyDigits(b);
  }

  lemma PlainBodyDigits(b: string)
    ensures DigitsAroundPoint(b) <==> PlainBody(b)
  {
    var k := IndexOf(b, '.');
    var whole, frac := Whole(b), Fraction(b);
    if k < 0 {
      assert whole == b && frac == "";
      if |b| > 0 && AllDigits(b) {
        assert IsDigit(b[0]);
      }
    } else {
      PointSplit(b, k);
    }
  }

  /** Around its first point, a string is digits on both sides exactly when
      all its other characters are digits; then it has no second point, and
      a digit exactly when either side is non-empty. */
  lemma PointSplit(b: string, k: int)
    requires 0 <= k < |b| && b[k] == '.' && '.' !in b[..k]
    ensures AllDigits(b[..k]) && AllDigits(b[k + 1..]) && |b[..k]| + |b[k + 1..]| > 0
      <==> && (forall i :: 0 <= i < |b| ==> IsDigit(b[i]) || b[i] == '.')
           && (forall i, j :: 0 <= i < j < |b| && b[i] == '.' ==> b[j] != '.')
           && (exists i :: 0 <= i < |b| && IsDigit(b[i]))
  {
    var whole, frac := b[..k], b[k + 1..];
    if AllDigits(whole) && AllDigits(frac) && |whole| + |frac| > 0 {
      forall i | 0 <= i < |b| && i != k ensures IsDigit(b[i]) {
        if i < k { assert b[i] == whole[i]; } else { assert b[i] == frac[i - k - 1]; }
      }
      if |whole| > 0 { assert IsDigit(b[0]); } else { assert IsDigit(b[k + 1]); }
    }
    if && (forall i :: 0 <= i < |b| ==> IsDigit(b[i]) || b[i] == '.')
       && (forall i, j :: 0 <= i < j < |b| && b[i] == '.' ==> b[j] != '.')
       && (exists i :: 0 <= i < |b| && IsDigit(b[i]))
    {
      forall i | 0 <= i < |whole| ensures IsDigit(whole[i]) {
        assert whole[i] == b[i] && b[i] in b[..k];
      }
      forall i | 0 <= i < |frac| ensures IsDigit(frac[i]) {
        assert frac[i] == b[k + 1 + i];
      }
      var i :| 0 <= i < |b| && IsDigit(b[i]);
      assert i != k;
    }
  }

  /** Appending digits shifts the number left by their count and adds theirs. */
  lemma {:induction false} DigitsAppend(w: string, f: string)
    requires AllDigits(w) && AllDigits(f)
    ensures AllDigits(w + f)
    ensures DigitsValue(w + f) == DigitsValue(w) * Decimal.Pow10(|f|) + DigitsValue(f)
  {
    if |f| == 0 {
      assert w + f == w;
    } else {
      var f' := f[..|f| - 1];
      var c := f[|f| - 1] as int - '0' as int;
      assert AllDigits(f');
      DigitsAppend(w, f');
      assert (w + f)[..|w + f| - 1] == w + f' && (w + f)[|w + f| - 1] == f[|f| - 1];
      assert DigitsValue(w + f) == DigitsValue(w + f') * 10 + c;
      assert DigitsValue(f) == DigitsValue(f') * 10 + c;
      assert Decimal.Pow10(|f|) == 10 * Decimal.Pow10(|f'|);
      ShiftArith(DigitsValue(w), Decimal.Pow10(|f'|), DigitsValue(f'), c);
    }
  }

  lemma ShiftArith(a: int, p: int, d: int, c: int)
    ensures (a * p + d) * 10 + c == a * (10 * p) + (d * 10 + c)
  {
  }

  /** An accepted string denotes its whole part plus its fraction over 10 to
      the number of fraction digits, negated after a leading '-'. */
  lemma ParsedValue(s: string)
    requires ParseDecimal(s).Some?
    ensures var b := Unsigned(s);
      && AllDigits(Whole(b)) && AllDigits(Fraction(b))
      && var v := DigitsValue(Whole(b)) as real
           + DigitsValue(Fraction(b)) as real / Decimal.Pow10(|Fraction(b)|) as real;
         ParseDecimal(s).value == if |s| > 0 && s[0] == '-' then -v else v
  {
    var b := Unsigned(s);
    var w, f := Whole(b), Fraction(b);
    DigitsAppend(w, f);
    ValueArith(DigitsValue(w + f), DigitsValue(w), Decimal.Pow10(|f|), DigitsValue(f));
  }

  /** A leading '-' before an unsigned string negates what it parses to, and
      is rejected exactly when the string is. */
  lemma ParseNegated(s: string)
    requires |s| > 0 && s[0] != '-' && s[0] != '+'
    ensures ParseDecimal("-" + s).Some? <==> ParseDecimal(s).Some?
    ensures ParseDecimal(s).Some? ==> ParseDecimal("-" + s).value == -ParseDecimal(s).value
  {
    assert ("-" + s)[1..] == s;
    assert Unsigned("-" + s) == Unsigned(s);
  }

  lemma ValueArith(n: int, a: int, p: int, d: int)
    requires n == a * p + d && p >= 1
    ensures n as real / p as real == a as real + d as real / p as real
  {
    CastArith(a, p, d);
    FracArith(a as real, d as real, p as real);
  }

  lemma CastArith(a: int, b: int, c: int)
    ensures (a * b + c) as real == a as real * b as real + c as real
  {
  }

  lemma FracArith(x: real, y: real, p: real)
    requires p >= 1.0
    ensures (x * p + y) / p == x + y / p
  {
    assert x * p / p == x;
  }

  /** The number of characters after the first '.', or 0 when there is none. */
  function DecimalPlaces(s: string): (r: int)
    ensures r >= 0
    ensures '.' !in s ==> r == 0
    ensures '.' in s ==> 0 <= |s| - r - 1 && s[|s| - r - 1] == '.' && '.' !in s[..|s| - r - 1]
  {
    var idx := IndexOf(s, '.');
    if idx != -1 then |s| - idx - 1 else 0
  }

  /** An accepted string starts with a sign, a digit or the point. */
  lemma ParsedFirstNotSpace(s: string)
    requires ParseDecimal(s).Some?
    ensures |s| > 0 && !IsSpace(s[0])
  {
    var body := Unsigned(s);
    var k := IndexOf(body, '.');
    if s[0] != '-' && s[0] != '+' {
      assert body[0] == s[0];
      if k == 0 { assert body[0] == '.'; } else { assert Whole(body)[0] == body[0]; }
    }
  }

  /** An accepted string ends with a digit or the point. */
  lemma ParsedLastNotSpace(s: string)
    requires ParseDecimal(s).Some?
    ensures |s| > 0 && !IsSpace(s[|s| - 1])
  {
    var body := Unsigned(s);
    var k := IndexOf(body, '.');
    assert |body| > 0;
    assert s[|s| - 1] == body[|body| - 1];
    if k < 0 {
      assert Whole(body) == body;
    } else if k + 1 < |body| {
      assert Fraction(body)[|Fraction(body)| - 1] == body[|body| - 1];
    } else {
      assert body[|body| - 1] == '.';
    }
  }

  /** A string the parser accepts is made of sign, digits and point only, so
      trimming leaves it unchanged. */
  lemma ParsedIsTrimmed(s: string)
    requires ParseDecimal(s).Some?
    ensures TrimSpace(s) == s
  {
    ParsedFirstNotSpace(s);
    ParsedLastNotSpace(s);
    TrimSpaceNoop(s);
  }

  /** Untrimmed parsing either agrees with parsing the trimmed string or fails
      (and the splitters then read zero). */
  lemma UntrimmedParse(s: string)
    ensures ParseDecimal(s).None? || ParseDecimal(TrimSpace(s)) == ParseDecimal(s)
  {
    if ParseDecimal(s).Some? {
      ParsedIsTrimmed(s);
    }
  }

  /** The places counted after the first '.' are the digits of the parsed
      fraction: a leading sign does not move the point. */
  lemma DecimalPlacesAfterSign(s: string)
    ensures DecimalPlaces(s) == |Fraction(Unsigned(s))|
  {
    var body := Unsigned(s);
    var k := IndexOf(body, '.');
    if |s| > 0 && (s[0] == '-' || s[0] == '+') {
      assert s[1..] == body;
      assert IndexOf(s, '.') == if k == -1 then -1 else k + 1;
    }
  }

  /** A parsed amount with at most `p` places after the point is a whole
      multiple of 10^-p. */
  lemma ParsedOnGrid(s: string, p: nat)
    requires ParseDecimal(s).Some? && DecimalPlaces(s) <= p
    ensures Decimal.OnGrid(ParseDecimal(s).value, p)
  {
    var body := Unsigned(s);
    var whole, frac := Whole(body), Fraction(body);
    DecimalPlacesAfterSign(s);
    var n := DigitsValue(whole + frac);
    var scale := Decimal.Pow10(|frac|) as real;
    var magnitude := n as real / scale;
    assert ParseDecimal(s).value == if s[0] == '-' then -magnitude else magnitude;
    if s[0] == '-' {
      Decimal.OnGridScaled(-(n as int), |frac|, p);
      Decimal.NegatedQuotient(n as real, scale);
    } else {
      Decimal.OnGridScaled(n, |frac|, p);
    }
  }

  lemma ParseFraction()
    ensures ParseDecimal("0.97") == Some(0.97)
  {
    assert Unsigned("0.97") == "0.97";
    assert IndexOf("0.97", '.') == 1;
    assert Whole("0.97") == "0" && Fraction("0.97") == "97";
    assert AllDigits("0") && AllDigits("97");
    assert "0" + "97" == "097";
    assert Decimal.Pow10(2) == 100 by {
      assert Decimal.Pow10(1) == 10;
    }
    assert DigitsValue("097") == 97 by {
      assert "097"[..2] == "09";
      assert "09"[..1] == "0";
      assert "0"[..0] == "";
    }
    assert 97 as real / 100 as real == 0.97;
  }

  lemma ParseNegativeInteger()
    ensures ParseDecimal("-12") == Some(-12.0)
  {
    assert Unsigned("-12") == "12";
    assert IndexOf("12", '.') == -1;
    assert Whole("12") + Fraction("12") == "12";
    assert Decimal.Pow10(0) == 1;
    assert DigitsValue("12") == 12 by {
      assert "12"[..1] == "1";
      assert "1"[..0] == "";
    }
  }

  lemma ParseRejects()
    ensures ParseDecimal("") == None
    ensures ParseDecimal(" 1") == None
    ensures ParseDecimal("1.2.3") == None
  {
    assert [' '] + "1" == " 1";
    SpacePrefixRejected(' ', "1");
    var p := "1.2.3";
    assert Unsigned(p) == p;
    assert IndexOf(p, '.') == 1 by {
      assert p[0] != '.' && p[1] == '.' && p[1..][0] == '.';
    }
    assert Fraction(p) == p[2..] && p[2..][1] == '.';
  }

  lemma DecimalPlacesExamples()
    ensures DecimalPlaces("12.500") == 3 && DecimalPlaces("7") == 0
  {
    assert "12.500"[2] == '.';
  }
}
