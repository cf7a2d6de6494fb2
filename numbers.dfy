/**
 * Decimal text of integers: the digits Python prints with str() and the
 * restricted decimal syntax that float() accepts, truncated toward zero as
 * int(float(...)) does.
 */
module Numbers {
  import opened Results

  predicate IsDigit(c: char) { '0' <= c <= '9' }

  predicate AllDigits(s: string) { forall i :: 0 <= i < |s| ==> IsDigit(s[i]) }

  function DigitValue(c: char): (d: nat)
    requires IsDigit(c)
    ensures d < 10
  {
    c as int - '0' as int
  }

  function DigitChar(d: nat): (c: char)
    requires d < 10
    ensures IsDigit(c) && DigitValue(c) == d
  {
    (d + '0' as int) as char
  }

  /** The number a string of decimal digits denotes, most significant digit first; "" denotes 0. */
  function NatOf(s: string): nat
    requires AllDigits(s)
  {
    if s == [] then 0 else 10 * NatOf(s[..|s| - 1]) + DigitValue(s[|s| - 1])
  }

  /** str(n) for a non-negative int: no sign, no leading zero. */
  function ShowNat(n: nat): (s: string)
    ensures |s| > 0 && AllDigits(s)
    ensures n > 0 ==> s[0] != '0'
  {
    if n < 10 then [DigitChar(n)] else ShowNat(n / 10) + [DigitChar(n % 10)]
  }

  /** str(i) for any int. */
  function ShowInt(i: int): string
  {
    if i < 0 then "-" + ShowNat(-i) else ShowNat(i)
  }

  /** n written with at least `width` digits, padded on the left with zeros (Python's "%0*d"). */
  function Pad(n: nat, width: nat): (s: string)
    ensures AllDigits(s) && |s| >= width && NatOf(s) == n
    ensures |ShowNat(n)| <= width ==> |s| == width
    decreases width
  {
    if |ShowNat(n)| >= width then (NatOfShowNat(n); ShowNat(n))
    else
      var t := Pad(n, width - 1);
      NatOfZeroPrefix(t);
      "0" + t
  }

  lemma {:induction false} NatOfShowNat(n: nat)
    ensures NatOf(ShowNat(n)) == n
  {
    if n >= 10 {
      var s := ShowNat(n / 10);
      NatOfShowNat(n / 10);
      assert (s + [DigitChar(n % 10)])[..|s|] == s;
    }
  }

  lemma {:induction false} NatOfZeroPrefix(s: string)
    requires AllDigits(s)
    ensures AllDigits("0" + s) && NatOf("0" + s) == NatOf(s)
  {
    if s != [] {
      NatOfZeroPrefix(s[..|s| - 1]);
      assert ("0" + s)[..|s|] == "0" + s[..|s| - 1];
    }
  }

  /** str() is injective on ints: two ints print alike only when they are equal. */
  lemma {:induction false} ShowIntInjective(a: int, b: int)
    requires ShowInt(a) == ShowInt(b)
    ensures a == b
  {
    if a < 0 && b < 0 {
      assert ShowNat(-a) == ShowInt(a)[1..] == ShowInt(b)[1..] == ShowNat(-b);
      NatOfShowNat(-a);
      NatOfShowNat(-b);
    } else if a >= 0 && b >= 0 {
      NatOfShowNat(a);
      NatOfShowNat(b);
    }
  }

  // ---------------------------------------------------------------------
  // Stripping and searching

  /**
   * The characters str.isspace() accepts, which str.strip() skips: the
   * ASCII controls 9-13 and 28-31, the space, NEL, the no-break space, and
   * the Unicode spaces and line and paragraph separators.
   */
  predicate IsSpace(c: char)
  {
    var n := c as int;
    9 <= n <= 13 || 28 <= n <= 32 || n == 0x85 || n == 0xA0 || n == 0x1680
    || 0x2000 <= n <= 0x200A || n == 0x2028 || n == 0x2029 || n == 0x202F
    || n == 0x205F || n == 0x3000
  }

  /**
   * The whitespace float() skips around a number: ASCII 9-13 and the space
   * (C's isspace), and the non-ASCII characters str.isspace() accepts.
   * Unlike strip(), it keeps the separators 28-31, which float() rejects.
   */
  predicate IsFloatSpace(c: char)
  {
    IsSpace(c) && !(28 <= c as int <= 31)
  }

  function TrimLeft(s: string, space: char -> bool): (r: string)
    ensures |r| <= |s|
    ensures r == [] || !space(r[0])
  {
    if s != [] && space(s[0]) then TrimLeft(s[1..], space) else s
  }

  function TrimRight(s: string, space: char -> bool): (r: string)
    ensures |r| <= |s|
    ensures r == [] || !space(r[|r| - 1])
  {
    if s != [] && space(s[|s| - 1]) then TrimRight(s[..|s| - 1], space) else s
  }

  /** Drop the leading and trailing characters that `space` accepts. */
  function Trim(s: string, space: char -> bool): string
  {
    TrimRight(TrimLeft(s, space), space)
  }

  /** str.strip(): drop leading and trailing whitespace. */
  function Strip(s: string): string
  {
    Trim(s, IsSpace)
  }

  /** The whitespace float() drops before reading a number. */
  function FloatStrip(s: string): string
  {
    Trim(s, IsFloatSpace)
  }

  /** A string that neither starts nor ends with a `space` character is left alone. */
  lemma TrimNoop(s: string, space: char -> bool)
    requires s == [] || (!space(s[0]) && !space(s[|s| - 1]))
    ensures Trim(s, space) == s
  {
  }

  /** A string that neither starts nor ends with whitespace is left alone by strip() and by float(). */
  lemma StripNoop(s: string)
    requires s == [] || (!IsSpace(s[0]) && !IsSpace(s[|s| - 1]))
    ensures Strip(s) == s && FloatStrip(s) == s
  {
    TrimNoop(s, IsSpace);
    TrimNoop(s, IsFloatSpace);
  }

  /** Position of the first `c` in `s`, or |s| when there is none (str.find with "not found" mapped to the end). */
  function IndexOf(s: string, c: char): (k: nat)
    ensures k <= |s| && (k < |s| ==> s[k] == c)
    ensures forall i :: 0 <= i < k ==> s[i] != c
  {
    if s == [] then 0 else if s[0] == c then 0 else 1 + IndexOf(s[1..], c)
  }

  lemma {:induction false} IndexOfJoin(a: string, c: char, b: string)
    requires forall i :: 0 <= i < |a| ==> a[i] != c
    ensures IndexOf(a + [c] + b, c) == |a|
  {
    assert (a + [c] + b)[|a|] == c;
  }

  // ---------------------------------------------------------------------
  // int(float(text)) for plain decimal text

  /**
   * The integer part of an unsigned decimal: digits with at most one
   * decimal point and at least one digit ("12", "12.9", "12.", ".5").
   */
  function ReadUnsigned(body: string): Option<nat>
  {
    var k := IndexOf(body, '.');
    var whole := body[..k];
    var fraction := if k < |body| then body[k + 1..] else [];
    if AllDigits(whole) && AllDigits(fraction) && |whole| + |fraction| > 0 then Some(NatOf(whole))
    else None
  }

  /**
   * int(float(s)) for the decimal forms the model covers: optional
   * surrounding whitespace (IsFloatSpace), an optional sign, then an
   * unsigned decimal.
   * The fraction is dropped, which truncates toward zero.  None when
   * float() would raise ValueError.
   */
  function ParseDecimal(s: string): Option<int>
  {
    var t := FloatStrip(s);
    if |t| > 0 && t[0] == '-' then
      match ReadUnsigned(t[1..])
      case Some(v) => Some(-(v as int))
      case None => None
    else
      var body := if |t| > 0 && t[0] == '+' then t[1..] else t;
      match ReadUnsigned(body)
      case Some(v) => Some(v)
      case None => None
  }

  /** Reading back what str() printed gives the same int. */
  lemma {:induction false} ParseShowInt(n: int)
    ensures ParseDecimal(ShowInt(n)) == Some(n)
  {
    if n < 0 {
      ReadShowNat(-n);
      NegativeText(ShowNat(-n), -n);
    } else {
      var s := ShowNat(n);
      ReadShowNat(n);
      assert IsDigit(s[0]);
    }
  }

  /** The digits str() prints for a natural number need no stripping and read back as it. */
  lemma {:induction false} ReadShowNat(n: nat)
    ensures var s := ShowNat(n);
      FloatStrip(s) == s && !IsSpace(s[0]) && ReadUnsigned(s) == Some(n)
  {
    var s := ShowNat(n);
    assert IsDigit(s[0]) && IsDigit(s[|s| - 1]);
    StripNoop(s);
    assert IndexOf(s, '.') == |s| by {
      forall i | 0 <= i < |s| ensures s[i] != '.' { assert IsDigit(s[i]); }
    }
    assert s[..|s|] == s;
    NatOfShowNat(n);
  }

  /** Digits, a point and more digits: how such a body splits around its point. */
  lemma {:induction false} DecimalBody(whole: string, fraction: string)
    requires |whole| > 0 && AllDigits(whole) && AllDigits(fraction)
    ensures var body := whole + "." + fraction;
      ReadUnsigned(body) == Some(NatOf(whole)) && FloatStrip(body) == body
      && |body| > 0 && IsDigit(body[0])
  {
    var body := whole + "." + fraction;
    forall i | 0 <= i < |whole| ensures whole[i] != '.' { assert IsDigit(whole[i]); }
    IndexOfJoin(whole, '.', fraction);
    assert body[..|whole|] == whole;
    assert body[|whole| + 1..] == fraction;
    assert IsDigit(body[0]);
    if fraction == [] { assert body[|body| - 1] == '.'; } else { assert body[|body| - 1] == fraction[|fraction| - 1]; }
    StripNoop(body);
  }

  /**
   * A decimal with a fraction keeps only its integer part: "12.9" reads as 12.
   */
  lemma {:induction false} TruncatesPositive(whole: string, fraction: string)
    requires |whole| > 0 && AllDigits(whole) && AllDigits(fraction)
    ensures ParseDecimal(whole + "." + fraction) == Some(NatOf(whole))
  {
    var body := whole + "." + fraction;
    DecimalBody(whole, fraction);
    assert body[0] == whole[0] && IsDigit(whole[0]);
    assert FloatStrip(body) == body;
  }

  /** A minus sign before an unsigned decimal negates its integer part. */
  lemma {:induction false} NegativeText(body: string, v: nat)
    requires FloatStrip(body) == body && |body| > 0 && !IsSpace(body[0]) && ReadUnsigned(body) == Some(v)
    ensures ParseDecimal("-" + body) == Some(-(v as int))
  {
    var t := "-" + body;
    SignedStays(body);
    assert t[0] == '-' && t[1..] == body;
    ReadMinus(t);
  }

  /** Text float() needs not strip and that starts with '-' reads as the negated number after the sign. */
  lemma ReadMinus(t: string)
    requires FloatStrip(t) == t && |t| > 0 && t[0] == '-'
    ensures ParseDecimal(t) == match ReadUnsigned(t[1..]) case Some(v) => Some(-(v as int)) case None => None
  {
  }

  /** A minus sign before text that float() needs not strip needs no stripping either. */
  lemma SignedStays(body: string)
    requires FloatStrip(body) == body && |body| > 0
    ensures FloatStrip("-" + body) == "-" + body
  {
    var t := "-" + body;
    assert !IsFloatSpace(t[|t| - 1]) by {
      var r := TrimRight(TrimLeft(body, IsFloatSpace), IsFloatSpace);
      assert r == body && !IsFloatSpace(r[|r| - 1]);
      assert t[|t| - 1] == body[|body| - 1];
    }
    assert !IsFloatSpace(t[0]);
    TrimNoop(t, IsFloatSpace);
  }

  /**
   * A negative decimal keeps its sign and integer part: "-3.5" reads as -3
   * (truncation toward zero, not floor).
   */
  lemma {:induction false} TruncatesTowardZero(whole: string, fraction: string)
    requires |whole| > 0 && AllDigits(whole) && AllDigits(fraction)
    ensures var r := ParseDecimal("-" + (whole + "." + fraction));
      r.Some? && r.value == -(NatOf(whole) as int)
  {
    DecimalBody(whole, fraction);
    NegativeText(whole + "." + fraction, NatOf(whole));
  }
}
