/**
 * The small part of Python's string and bytes behaviour the modelled code relies on:
 * whitespace, stripping, ASCII case mapping, decimal rendering, and the base-10
 * literals `int()` and `float()` accept when written with ASCII digits.
 */
module Text {
  import opened Wrappers

  /** Characters for which Python's `str.isspace()` is true. */
  predicate IsSpace(c: char) {
    var n := c as int;
    n == 0x20 || (0x09 <= n <= 0x0d) || (0x1c <= n <= 0x1f) || n == 0x85 || n == 0xa0
    || n == 0x1680 || (0x2000 <= n <= 0x200a) || n == 0x2028 || n == 0x2029
    || n == 0x202f || n == 0x205f || n == 0x3000
  }

  predicate IsAsciiLower(c: char) { 'a' <= c <= 'z' }
  predicate IsAsciiUpper(c: char) { 'A' <= c <= 'Z' }
  predicate IsDigit(c: char) { '0' <= c <= '9' }
  predicate IsAsciiAlnum(c: char) { IsAsciiLower(c) || IsAsciiUpper(c) || IsDigit(c) }

  /** `str.lstrip()` with no argument. */
  function LStrip(s: string): (r: string)
    ensures |r| <= |s| && r == s[|s| - |r|..]
    ensures |r| > 0 ==> !IsSpace(r[0])
    ensures forall i :: 0 <= i < |s| - |r| ==> IsSpace(s[i])
  {
    if |s| > 0 && IsSpace(s[0]) then LStrip(s[1..]) else s
  }

  /** `str.rstrip()` with no argument. */
  function RStrip(s: string): (r: string)
    ensures |r| <= |s| && r == s[..|r|]
    ensures |r| > 0 ==> !IsSpace(r[|r| - 1])
    ensures forall i :: |r| <= i < |s| ==> IsSpace(s[i])
  {
    if |s| > 0 && IsSpace(s[|s| - 1]) then RStrip(s[..|s| - 1]) else s
  }

  /** `str.strip()` with no argument: the text between the leading and trailing whitespace. */
  function Strip(s: string): string {
    RStrip(LStrip(s))
  }

  /** The stripped text neither starts nor ends with whitespace. */
  lemma StripEnds(s: string)
    ensures |Strip(s)| > 0 ==> !IsSpace(Strip(s)[0]) && !IsSpace(Strip(s)[|Strip(s)| - 1])
  {
    var l := LStrip(s);
    var r := RStrip(l);
    if |r| > 0 {
      assert r[0] == l[0];
    }
  }

  /** The stripped text is the slice of `s` that starts after its leading whitespace. */
  lemma StripSlice(s: string)
    ensures |Strip(s)| <= |s| - LeadingSpace(s)
    ensures Strip(s) == s[LeadingSpace(s)..LeadingSpace(s) + |Strip(s)|]
  {
    var l := LStrip(s);
    SliceOfSlice(s, LeadingSpace(s), l, RStrip(l));
  }

  lemma SliceOfSlice<T>(s: seq<T>, k: nat, l: seq<T>, r: seq<T>)
    requires k <= |s| && l == s[k..] && |r| <= |l| && r == l[..|r|]
    ensures r == s[k..k + |r|]
  {
  }

  /** How many whitespace characters `str.lstrip()` removes. */
  function LeadingSpace(s: string): nat {
    |s| - |LStrip(s)|
  }

  lemma StripAllSpace(s: string)
    requires forall i :: 0 <= i < |s| ==> IsSpace(s[i])
    ensures Strip(s) == ""
  {
  }

  function UpperChar(c: char): char {
    if IsAsciiLower(c) then (c as int - 32) as char else c
  }

  function LowerChar(c: char): char {
    if IsAsciiUpper(c) then (c as int + 32) as char else c
  }

  /** `str.upper()`, restricted to the ASCII letters. */
  function Upper(s: string): (r: string)
    ensures |r| == |s|
    ensures forall i :: 0 <= i < |r| ==> r[i] == UpperChar(s[i]) && !IsAsciiLower(r[i])
  {
    seq(|s|, i requires 0 <= i < |s| => UpperChar(s[i]))
  }

  /** `str.lower()`, restricted to the ASCII letters. */
  function Lower(s: string): (r: string)
    ensures |r| == |s|
    ensures forall i :: 0 <= i < |r| ==> r[i] == LowerChar(s[i]) && !IsAsciiUpper(r[i])
  {
    seq(|s|, i requires 0 <= i < |s| => LowerChar(s[i]))
  }

  function DigitChar(d: nat): char
    requires d < 10
  {
    ('0' as int + d) as char
  }

  function NatToString(n: nat): (r: string)
    ensures |r| > 0
    ensures forall i :: 0 <= i < |r| ==> IsDigit(r[i])
  {
    if n < 10 then [DigitChar(n)] else NatToString(n / 10) + [DigitChar(n % 10)]
  }

  /** `str(i)` for a Python int. */
  function IntToString(i: int): (r: string)
    ensures |r| > 0
  {
    if i < 0 then "-" + NatToString(-i) else NatToString(i)
  }

  predicate AllDigits(s: string) {
    forall i :: 0 <= i < |s| ==> IsDigit(s[i])
  }

  function Pow10(k: nat): (r: nat)
    ensures r >= 1
  {
    if k == 0 then 1 else 10 * Pow10(k - 1)
  }

  /** Splits an optional leading sign off a literal: (sign, rest). */
  function SplitSign(s: string): (r: (int, string))
    ensures |s| == 0 ==> r.1 == ""
  {
    if |s| > 0 && s[0] == '-' then (-1, s[1..])
    else if |s| > 0 && s[0] == '+' then (1, s[1..])
    else (1, s)
  }

  /** The value of a digit character (0 for any other character). */
  function DigitValue(c: char): nat {
    if IsDigit(c) then c as int - '0' as int else 0
  }

  /**
   * A digit group as Python's `int()` and `float()` accept it: ASCII digits, where a
   * single underscore may stand between two digits (PEP 515).
   */
  predicate DigitPart(s: string)
    decreases |s|
  {
    && |s| > 0
    && IsDigit(s[|s| - 1])
    && (|s| == 1
        || (if s[|s| - 2] == '_' then |s| > 2 && DigitPart(s[..|s| - 2]) else DigitPart(s[..|s| - 1])))
  }

  /** The number a digit group spells, underscores ignored (0 for no digits). */
  function GroupValue(s: string): nat
    decreases |s|
  {
    if |s| == 0 then 0
    else if s[|s| - 1] == '_' then GroupValue(s[..|s| - 1])
    else 10 * GroupValue(s[..|s| - 1]) + DigitValue(s[|s| - 1])
  }

  /** How many digits a digit group holds, underscores not counted. */
  function DigitCount(s: string): nat
    decreases |s|
  {
    if |s| == 0 then 0
    else if s[|s| - 1] == '_' then DigitCount(s[..|s| - 1])
    else DigitCount(s[..|s| - 1]) + 1
  }

  /**
   * `int(s)` for a string in base 10: surrounding whitespace, an optional sign and a
   * digit group. None stands for the ValueError Python raises.
   */
  function ParseInt(s: string): (r: Option<int>)
    ensures r.Some? ==> |Strip(s)| > 0
  {
    ReadInt(SplitSign(Strip(s)))
  }

  /** The integer a sign and a digit group spell, if the rest is a digit group. */
  function ReadInt(signed: (int, string)): (r: Option<int>)
    ensures r.Some? ==> |signed.1| > 0
  {
    if DigitPart(signed.1) then Some(signed.0 * GroupValue(signed.1)) else None
  }

  /** The first position of `s` holding `c` or `d`. */
  function FirstOf(s: string, c: char, d: char): (r: Option<nat>)
    ensures r.Some? ==> r.value < |s| && (s[r.value] == c || s[r.value] == d)
    ensures r.Some? ==> forall i :: 0 <= i < r.value ==> s[i] != c && s[i] != d
    ensures r.None? <==> forall i :: 0 <= i < |s| ==> s[i] != c && s[i] != d
  {
    if |s| == 0 then None
    else if s[0] == c || s[0] == d then Some(0)
    else match FirstOf(s[1..], c, d)
      case None =>
        assert forall i :: 1 <= i < |s| ==> s[i] == s[1..][i - 1];
        None
      case Some(k) =>
        assert forall i :: 1 <= i < k + 1 ==> s[i] == s[1..][i - 1];
        Some(k + 1)
  }

  /** A digit group, or nothing at all. */
  predicate OptionalPart(s: string) {
    |s| == 0 || DigitPart(s)
  }

  /**
   * The unsigned significand of a float literal: digit groups around at most one '.',
   * with a digit on at least one side of it.
   */
  function ParseSignificand(m: string): (r: Option<real>)
    ensures r.Some? ==> |m| > 0 && r.value >= 0.0
  {
    match FirstOf(m, '.', '.')
    case None => if DigitPart(m) then Some(GroupValue(m) as real) else None
    case Some(d) => ReadPoint(m[..d], m[d + 1..])
  }

  /** The significand written with a point between `whole` and `frac`, if both sides are well formed. */
  function ReadPoint(whole: string, frac: string): (r: Option<real>)
    ensures r.Some? ==> |whole| + |frac| > 0 && r.value >= 0.0
  {
    if (|whole| > 0 || |frac| > 0) && OptionalPart(whole) && OptionalPart(frac) then
      Some(GroupValue(whole) as real + Fraction(frac))
    else None
  }

  /** A fraction's digits read after the point: their value over ten to their count. */
  function Fraction(frac: string): (r: real)
    ensures r >= 0.0
  {
    GroupValue(frac) as real / Pow10(DigitCount(frac)) as real
  }

  /** `x` times ten to the power `k`, for an exponent of either sign. */
  function Scale(x: real, k: int): real {
    if k >= 0 then x * Pow10(k) as real else x / Pow10(-k) as real
  }

  /** A significand scaled by a signed exponent, if the exponent is a digit group. */
  function ReadExponent(significand: Option<real>, signed: (int, string)): Option<real> {
    match significand
    case None => None
    case Some(v) => if DigitPart(signed.1) then Some(Scale(v, signed.0 * GroupValue(signed.1))) else None
  }

  /** An unsigned float literal: a significand, then optionally 'e' or 'E' and a signed digit group. */
  function ParseUnsigned(body: string): (r: Option<real>)
    ensures r.Some? ==> |body| > 0
  {
    match FirstOf(body, 'e', 'E')
    case None => ParseSignificand(body)
    case Some(e) => ReadExponent(ParseSignificand(body[..e]), SplitSign(body[e + 1..]))
  }

  /**
   * `float(s)` for a string in decimal or scientific notation: surrounding whitespace,
   * an optional sign and an unsigned literal. None stands for the ValueError Python raises.
   */
  function ParseFloat(s: string): (r: Option<real>)
    ensures r.Some? ==> |Strip(s)| > 0
  {
    ReadFloat(SplitSign(Strip(s)))
  }

  /** The float a sign and an unsigned literal spell, if the rest is one. */
  function ReadFloat(signed: (int, string)): (r: Option<real>)
    ensures r.Some? ==> |signed.1| > 0
  {
    match ParseUnsigned(signed.1)
    case Some(m) => Some(signed.0 as real * m)
    case None => None
  }

  /** Text that neither starts nor ends with whitespace is its own strip. */
  lemma StripNoSpace(s: string)
    requires |s| > 0 && !IsSpace(s[0]) && !IsSpace(s[|s| - 1])
    ensures Strip(s) == s
  {
    assert LStrip(s) == s;
  }

  /** A non-empty run of ASCII digits is a digit group, counting every character. */
  lemma {:induction false} PlainDigits(d: string)
    requires AllDigits(d)
    ensures |d| > 0 ==> DigitPart(d)
    ensures DigitCount(d) == |d|
    decreases |d|
  {
    if |d| > 0 {
      var init := d[..|d| - 1];
      assert AllDigits(init) by {
        assert forall i :: 0 <= i < |init| ==> init[i] == d[i];
      }
      PlainDigits(init);
      if |d| > 1 {
        assert d[|d| - 2] == init[|init| - 1];
      }
    }
  }

  /** A digit group holds only digits and underscores. */
  lemma {:induction false} DigitPartChars(s: string)
    requires DigitPart(s)
    ensures forall i :: 0 <= i < |s| ==> IsDigit(s[i]) || s[i] == '_'
    decreases |s|
  {
    if |s| > 1 {
      var k := if s[|s| - 2] == '_' then |s| - 2 else |s| - 1;
      DigitPartChars(s[..k]);
      assert forall i :: 0 <= i < k ==> s[i] == s[..k][i];
    }
  }

  /** Reading back the digits `str()` prints for a natural number gives the number. */
  lemma {:induction false} NatDigitsRoundTrip(n: nat)
    ensures DigitPart(NatToString(n)) && GroupValue(NatToString(n)) == n
  {
    PlainDigits(NatToString(n));
    if n >= 10 {
      NatDigitsRoundTrip(n / 10);
      var t := NatToString(n / 10) + [DigitChar(n % 10)];
      assert t[..|t| - 1] == NatToString(n / 10);
    }
  }

  /** A literal with no surrounding whitespace and no sign is read as it stands. */
  lemma UnsignedLiteral(t: string)
    requires |t| > 0 && !IsSpace(t[0]) && !IsSpace(t[|t| - 1]) && t[0] != '-' && t[0] != '+'
    ensures ParseInt(t) == ReadInt((1, t))
    ensures ParseFloat(t) == ReadFloat((1, t))
  {
    StripNoSpace(t);
  }

  /** With a minus sign in front, a literal without surrounding whitespace is read negatively. */
  lemma NegativeLiteral(t: string)
    requires |t| > 0 && !IsSpace(t[|t| - 1])
    ensures ParseInt("-" + t) == ReadInt((-1, t))
    ensures ParseFloat("-" + t) == ReadFloat((-1, t))
  {
    var s := "-" + t;
    assert s[|s| - 1] == t[|t| - 1];
    StripNoSpace(s);
    assert SplitSign(s) == (-1, t);
  }

  /** A literal splits at its first 'e' or 'E': a significand before it, a signed digit group after it. */
  lemma ExponentForm(m: string, c: char, x: string)
    requires c == 'e' || c == 'E'
    requires forall j :: 0 <= j < |m| ==> m[j] != 'e' && m[j] != 'E'
    ensures ParseUnsigned(m + [c] + x) == ReadExponent(ParseSignificand(m), SplitSign(x))
  {
    var b := m + [c] + x;
    assert forall j :: 0 <= j < |m| ==> b[j] == m[j];
    assert b[|m|] == c;
    assert FirstOf(b, 'e', 'E') == Some(|m|);
    assert b[..|m|] == m && b[|m| + 1..] == x;
  }

  /** A significand splits at its point when the whole part holds none. */
  lemma PointAt(w: string, f: string)
    requires forall j :: 0 <= j < |w| ==> w[j] != '.'
    ensures ParseSignificand(w + "." + f) == ReadPoint(w, f)
  {
    var m := w + "." + f;
    assert forall j :: 0 <= j < |w| ==> m[j] == w[j];
    assert m[|w|] == '.';
    assert FirstOf(m, '.', '.') == Some(|w|);
    assert m[..|w|] == w && m[|w| + 1..] == f;
  }

  /** A significand with a point: the whole digits plus the fraction digits over ten to their count. */
  lemma PointForm(w: string, f: string)
    requires AllDigits(w) && AllDigits(f) && |w| + |f| > 0
    ensures ParseSignificand(w + "." + f) == Some(GroupValue(w) as real + Fraction(f))
    ensures Fraction(f) == GroupValue(f) as real / Pow10(|f|) as real
  {
    PointAt(w, f);
    DigitsAroundPoint(w, f);
  }

  /** Two runs of digits, not both empty, are well formed on either side of a point. */
  lemma DigitsAroundPoint(w: string, f: string)
    requires AllDigits(w) && AllDigits(f) && |w| + |f| > 0
    ensures ReadPoint(w, f) == Some(GroupValue(w) as real + Fraction(f))
    ensures Fraction(f) == GroupValue(f) as real / Pow10(|f|) as real
  {
    PlainDigits(w);
    PlainDigits(f);
  }

  /** `int(str(i)) == i`: the integer parser reads back every integer Python prints. */
  lemma IntRoundTrip(i: int)
    ensures ParseInt(IntToString(i)) == Some(i)
  {
    var n: nat := if i < 0 then -i else i;
    var digits := NatToString(n);
    assert ReadInt((if i < 0 then -1 else 1, digits)) == Some(i) by {
      NatDigitsRoundTrip(n);
    }
    if i < 0 {
      assert IntToString(i) == "-" + digits;
      NegativeLiteral(digits);
    } else {
      assert IntToString(i) == digits;
      UnsignedLiteral(digits);
    }
  }

  /** Two digit runs joined by one underscore form a digit group worth the two runs written together. */
  lemma {:induction false} GroupedDigitPart(a: string, b: string)
    requires |a| > 0 && |b| > 0 && AllDigits(a) && AllDigits(b)
    ensures DigitPart(a + "_" + b)
    ensures GroupValue(a + "_" + b) == GroupValue(a + b)
    decreases |b|
  {
    var s := a + "_" + b;
    var c := b[|b| - 1];
    var b' := b[..|b| - 1];
    assert AllDigits(b') by {
      assert forall i :: 0 <= i < |b'| ==> b'[i] == b[i];
    }
    PlainDigits(a);
    if |b| == 1 {
      assert s[..|s| - 2] == a && s[|s| - 2] == '_' && s[|s| - 1] == c;
      assert s[..|s| - 1] == a + "_";
      assert (a + b)[..|a + b| - 1] == a;
    } else {
      GroupedDigitPart(a, b');
      assert s[..|s| - 1] == a + "_" + b';
      assert s[|s| - 2] == b'[|b'| - 1];
      assert (a + b)[..|a + b| - 1] == a + b';
    }
  }

  /** An underscore between two digit runs changes nothing: `int("1_000") == int("1000")`. */
  lemma GroupingIgnored(a: string, b: string)
    requires |a| > 0 && |b| > 0 && AllDigits(a) && AllDigits(b)
    ensures ParseInt(a + "_" + b) == ParseInt(a + b) == Some(GroupValue(a + b))
  {
    var s := a + "_" + b;
    var t := a + b;
    assert AllDigits(t) by {
      assert forall k :: 0 <= k < |t| ==> t[k] == if k < |a| then a[k] else b[k - |a|];
    }
    PlainDigits(t);
    assert s[0] == a[0] && s[|s| - 1] == b[|b| - 1];
    UnsignedLiteral(t);
    GroupedDigitPart(a, b);
    UnsignedLiteral(s);
  }

  /** `float()` agrees with `int()` on every integer literal. */
  lemma FloatAgreesWithInt(s: string)
    requires ParseInt(s).Some?
    ensures ParseFloat(s) == Some(ParseInt(s).value as real)
  {
    var signed := SplitSign(Strip(s));
    DigitPartChars(signed.1);
    assert FirstOf(signed.1, 'e', 'E').None?;
    assert FirstOf(signed.1, '.', '.').None?;
  }

  /** `float(d + "e" + str(k))` is the digits scaled by ten to the k, for either sign of k. */
  lemma ExponentScales(d: string, k: int)
    requires |d| > 0 && AllDigits(d)
    ensures ParseFloat(d + "e" + IntToString(k)) == Some(Scale(GroupValue(d) as real, k))
  {
    var ks := IntToString(k);
    var s := d + ['e'] + ks;
    assert d + "e" + ks == s;
    DigitsExponent(d, k);
    assert s[0] == d[0] && s[|s| - 1] == ks[|ks| - 1];
    UnsignedLiteral(s);
  }

  /** The unsigned part of `ExponentScales`: digits, 'e', then a printed integer. */
  lemma DigitsExponent(d: string, k: int)
    requires |d| > 0 && AllDigits(d)
    ensures ParseUnsigned(d + ['e'] + IntToString(k)) == Some(Scale(GroupValue(d) as real, k))
  {
    DigitsSignificand(d);
    PrintedExponent(GroupValue(d) as real, k);
    ExponentForm(d, 'e', IntToString(k));
  }

  /** A run of digits read as a significand is its value. */
  lemma DigitsSignificand(d: string)
    requires |d| > 0 && AllDigits(d)
    ensures ParseSignificand(d) == Some(GroupValue(d) as real)
    ensures forall j :: 0 <= j < |d| ==> d[j] != 'e' && d[j] != 'E'
  {
    PlainDigits(d);
    assert FirstOf(d, '.', '.').None?;
  }

  /** The exponent `str(k)` scales a significand by ten to the k. */
  lemma PrintedExponent(v: real, k: int)
    ensures ReadExponent(Some(v), SplitSign(IntToString(k))) == Some(Scale(v, k))
  {
    var n: nat := if k < 0 then -k else k;
    NatDigitsRoundTrip(n);
    assert SplitSign(IntToString(k)) == (if k < 0 then -1 else 1, NatToString(n));
  }

  /** A significand followed by 'e' or 'E' and a printed integer k: the significand scaled by ten to the k. */
  lemma ScientificForm(m: string, c: char, k: int, v: real)
    requires c == 'e' || c == 'E'
    requires forall j :: 0 <= j < |m| ==> m[j] != 'e' && m[j] != 'E'
    requires ParseSignificand(m) == Some(v)
    ensures ParseUnsigned(m + [c] + IntToString(k)) == Some(Scale(v, k))
  {
    PrintedExponent(v, k);
    ExponentForm(m, c, IntToString(k));
  }

  /** Digits around a point hold no exponent mark. */
  lemma NoExponentMark(w: string, f: string)
    requires AllDigits(w) && AllDigits(f)
    ensures forall j :: 0 <= j < |w + "." + f| ==> (w + "." + f)[j] != 'e' && (w + "." + f)[j] != 'E'
  {
    var m := w + "." + f;
    assert forall j :: 0 <= j < |m| ==> m[j] == if j < |w| then w[j] else if j == |w| then '.' else f[j - |w| - 1];
  }

  /** A text that is not a digit group, with no sign or surrounding whitespace, is not an integer. */
  lemma IntRefused(t: string)
    requires |t| > 0 && !IsSpace(t[0]) && !IsSpace(t[|t| - 1]) && t[0] != '-' && t[0] != '+'
    requires !DigitPart(t)
    ensures ParseInt(t) == None
  {
    UnsignedLiteral(t);
  }

  /** `int("1_000") == 1000`: an underscore between digits is accepted and ignored. */
  lemma IntLiteralExamples(s: string)
    requires s == "1_000"
    ensures ParseInt(s) == Some(1000)
  {
    var one, zeros := "1", "000";
    assert one + "_" + zeros == s;
    assert NatToString(1000) == one + zeros;
    NatDigitsRoundTrip(1000);
    GroupingIgnored(one, zeros);
  }

  /** Integer literals Python refuses: doubled, leading or trailing underscores. */
  lemma IntRefusals(a: string, b: string, c: string)
    requires a == "1__0" && b == "_1" && c == "1_"
    ensures ParseInt(a) == None && ParseInt(b) == None && ParseInt(c) == None
  {
    assert a[0] == '1' && a[|a| - 1] == '0' && b[0] == '_' && b[|b| - 1] == '1' && c[0] == '1' && c[|c| - 1] == '_';
    assert !DigitPart(a) by {
      assert a[..2] == "1_";
    }
    assert !DigitPart(b) by {
      assert b[..1] == "_";
    }
    IntRefused(a);
    IntRefused(b);
    IntRefused(c);
  }

  /** Integer literals Python refuses: an exponent, a point, and the empty text. */
  lemma IntFormRefusals(a: string, b: string, c: string)
    requires a == "1e2" && b == "1.0" && c == ""
    ensures ParseInt(a) == None && ParseInt(b) == None && ParseInt(c) == None
  {
    assert a[0] == '1' && a[|a| - 1] == '2' && b[0] == '1' && b[|b| - 1] == '0';
    assert !DigitPart(a) by {
      assert a[..2] == "1e";
    }
    assert !DigitPart(b) by {
      assert b[..2] == "1.";
    }
    IntRefused(a);
    IntRefused(b);
  }

  /** The digit runs "1", "2" and "5" and their values, read through the printer. */
  lemma SmallDigits(one: string, two: string, five: string)
    requires one == "1" && two == "2" && five == "5"
    ensures AllDigits(one) && AllDigits(two) && AllDigits(five)
    ensures GroupValue(one) == 1 && GroupValue(two) == 2 && Fraction(five) == 0.5
  {
    NatDigitsRoundTrip(1);
    NatDigitsRoundTrip(2);
    NatDigitsRoundTrip(5);
    assert NatToString(1) == one && NatToString(2) == two && NatToString(5) == five;
    PlainDigits(five);
  }

  /** `float("1e2") == 100.0`: an exponent without a point. */
  lemma FloatLiteralExamples(s: string)
    requires s == "1e2"
    ensures ParseFloat(s) == Some(100.0)
  {
    var one, two, five := "1", "2", "5";
    assert one + "e" + IntToString(2) == s;
    assert Scale(1.0, 2) == 100.0;
    SmallDigits(one, two, five);
    ExponentScales(one, 2);
  }

  /** `float("1.5E3") == 1500.0`: a point and a capital exponent mark. */
  lemma ScientificExample(s: string)
    requires s == "1.5E3"
    ensures ParseFloat(s) == Some(1500.0)
  {
    var one, two, five := "1", "2", "5";
    var m := one + "." + five;
    assert m + ['E'] + IntToString(3) == s;
    assert s[0] == '1' && s[|s| - 1] == '3';
    assert Scale(1.5, 3) == 1500.0;
    assert ParseUnsigned(s) == Some(1500.0) by {
      SmallDigits(one, two, five);
      PointForm(one, five);
      NoExponentMark(one, five);
      ScientificForm(m, 'E', 3, 1.5);
    }
    UnsignedLiteral(s);
  }

  /** `float("-2.5e-1") == -0.25`: a sign on the literal and on its exponent. */
  lemma SignedFloatExample(s: string)
    requires s == "-2.5e-1"
    ensures ParseFloat(s) == Some(-0.25)
  {
    var one, two, five := "1", "2", "5";
    var m := two + "." + five;
    var t := m + ['e'] + IntToString(-1);
    assert "-" + t == s;
    assert t[|t| - 1] == '1';
    assert Scale(2.5, -1) == 0.25;
    SmallDigits(one, two, five);
    PointForm(two, five);
    NoExponentMark(two, five);
    ScientificForm(m, 'e', -1, 2.5);
    NegativeLiteral(t);
  }

  /** `float(".5") == 0.5`: digits after the point alone suffice. */
  lemma FractionOnlyExample(s: string)
    requires s == ".5"
    ensures ParseFloat(s) == Some(0.5)
  {
    var one, two, five, none := "1", "2", "5", "";
    assert none + "." + five == s;
    assert s[0] == '.' && s[|s| - 1] == '5';
    assert ParseUnsigned(s) == Some(0.5) by {
      SmallDigits(one, two, five);
      PointForm(none, five);
      NoExponentMark(none, five);
    }
    UnsignedLiteral(s);
  }

  /** `float("1.") == 1.0`: digits before the point alone suffice. */
  lemma WholeOnlyExample(t: string)
    requires t == "1."
    ensures ParseFloat(t) == Some(1.0)
  {
    var one, two, five, none := "1", "2", "5", "";
    assert one + "." + none == t;
    assert t[0] == '1' && t[|t| - 1] == '.';
    assert ParseUnsigned(t) == Some(1.0) by {
      SmallDigits(one, two, five);
      assert Fraction(none) == 0.0;
      PointForm(one, none);
      NoExponentMark(one, none);
    }
    UnsignedLiteral(t);
  }

  /** Float literals Python refuses: a bare point and an empty exponent. */
  lemma FloatRefusals(s: string, t: string)
    requires s == "." && t == "1e"
    ensures ParseFloat(s) == None && ParseFloat(t) == None
  {
    var one, none := "1", "";
    assert none + "." + none == s && one + ['e'] + none == t;
    assert s[0] == '.' && t[0] == '1' && t[|t| - 1] == 'e';
    assert ParseFloat(s) == None by {
      UnsignedLiteral(s);
      PointAt(none, none);
    }
    UnsignedLiteral(t);
    ExponentForm(one, 'e', none);
  }

  /** `float("1_.5")` is refused: an underscore must stand between two digits. */
  lemma UnderscorePointRefused(u: string)
    requires u == "1_.5"
    ensures ParseFloat(u) == None
  {
    var five, w := "5", "1_";
    assert w + "." + five == u;
    assert u[0] == '1' && u[|u| - 1] == '5';
    assert forall j :: 0 <= j < |u| ==> u[j] != 'e' && u[j] != 'E';
    assert !DigitPart(w) by {
      assert w[..1] == "1";
    }
    UnsignedLiteral(u);
    PointAt(w, five);
  }

  /** Python's `int()` applied to a float: truncation toward zero. */
  function TruncToInt(x: real): (r: int)
    ensures x >= 0.0 ==> r as real <= x < r as real + 1.0
    ensures x < 0.0 ==> r as real - 1.0 < x <= r as real
  {
    if x >= 0.0 then x.Floor else -((-x).Floor)
  }

  /** Python's `//` on floats: floor division. */
  function FloorDiv(a: real, b: real): (r: real)
    requires b != 0.0
    ensures r == (a / b).Floor as real
  {
    (a / b).Floor as real
  }
}
