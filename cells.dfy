/**
 * Spreadsheet cells and the two coercions the report engine applies to
 * them: to_number (Diary_Library.py) and parse_date (Diary_Library.py).
 */
module Cells {
  import opened Results
  import opened Numbers
  import opened Calendar

  /** A cell as the workbook reader returns it: empty (None), an int, text, or a date-time at midnight. */
  datatype Cell = Empty | Int(value: int) | Str(text: string) | DateTime(date: CivilDate)

  /** Python truthiness of a cell value: None, 0 and "" are false, every date-time is true. */
  predicate Truthy(c: Cell)
  {
    match c
    case Empty => false
    case Int(v) => v != 0
    case Str(t) => t != ""
    case DateTime(_) => true
  }

  /** "YYYY-MM-DD", zero-padded, as datetime prints its date part. */
  function DateText(d: CivilDate): string
  {
    Pad(d.year, 4) + "-" + Pad(d.month, 2) + "-" + Pad(d.day, 2)
  }

  /** str() of a cell value. */
  function Text(c: Cell): string
  {
    match c
    case Empty => "None"
    case Int(v) => ShowInt(v)
    case Str(t) => t
    case DateTime(d) => DateText(d) + " 00:00:00"
  }

  /**
   * to_number: 0 for an empty cell; an int cell is itself; any other cell
   * is int(float(str(value))), and 0 when float() rejects the text.
   * ToNumberReadsText shows the int case is int(float(str(value))) too.
   */
  function ToNumber(c: Cell): int
  {
    match c
    case Empty => 0
    case Int(v) => v
    case _ =>
      match ParseDecimal(Text(c))
      case Some(v) => v
      case None => 0
  }

  /** Every cell that is not None reads as int(float(str(value))), 0 when float() rejects it. */
  lemma ToNumberReadsText(c: Cell)
    requires !c.Empty?
    ensures ToNumber(c) == match ParseDecimal(Text(c)) case Some(v) => v case None => 0
  {
    if c.Int? {
      ParseShowInt(c.value);
    }
  }

  /** A decimal text cell reads as its integer part, with its sign. */
  lemma ToNumberFacts(whole: string, fraction: string)
    requires |whole| > 0 && AllDigits(whole) && AllDigits(fraction)
    ensures ToNumber(Str(whole + "." + fraction)) == NatOf(whole)
    ensures ToNumber(Str("-" + (whole + "." + fraction))) == -(NatOf(whole) as int)
  {
    TruncatesPositive(whole, fraction);
    TruncatesTowardZero(whole, fraction);
  }

  /** An empty cell and text that is not a number both read as 0. */
  lemma ToNumberDefaults()
    ensures ToNumber(Empty) == 0
    ensures ToNumber(Str("abc")) == 0
  {
    StripNoop("abc");
    assert IndexOf("abc", '.') == 3;
    assert "abc"[..3] == "abc";
    assert !IsDigit("abc"[0]);
  }

  /** "12.9" reads as 12. */
  lemma ToNumberDropsFraction()
    ensures ToNumber(Str("12.9")) == 12
  {
    assert "12" + "." + "9" == "12.9";
    assert NatOf("12") == 12 by { assert "12"[..1] == "1"; }
    ToNumberFacts("12", "9");
  }

  /** "-3.5" reads as -3: toward zero, not down to -4. */
  lemma ToNumberTowardZero()
    ensures ToNumber(Str("-3.5")) == -3
  {
    assert "-" + ("3" + "." + "5") == "-3.5";
    assert NatOf("3") == 3;
    ToNumberFacts("3", "5");
  }

  /** Unicode spaces count as whitespace too: a no-break space before "12.9" and an ideographic space after it are skipped. */
  lemma ToNumberSkipsUnicodeSpace()
    ensures ToNumber(Str("\U{00A0}12.9\U{3000}")) == 12
  {
    UnicodeSpacesStripped();
    ToNumberDropsFraction();
  }

  /** float() drops a leading no-break space and a trailing ideographic space. */
  lemma UnicodeSpacesStripped()
    ensures FloatStrip("\U{00A0}12.9\U{3000}") == "12.9"
  {
    var s, t := "\U{00A0}12.9\U{3000}", "12.9\U{3000}";
    assert TrimLeft(s, IsFloatSpace) == t by {
      assert IsFloatSpace(s[0]) && s[1..] == t;
      assert !IsFloatSpace(t[0]);
    }
    assert TrimRight(t, IsFloatSpace) == "12.9" by {
      assert IsFloatSpace(t[4]) && t[..4] == "12.9";
      assert !IsFloatSpace("12.9"[3]);
    }
  }

  /**
   * The information separators U+001C to U+001F are whitespace to strip()
   * but not to float(): "\x1c5" strips to "5", yet reads as 0.
   */
  lemma ToNumberKeepsSeparator()
    ensures Strip("\U{001C}5") == "5"
    ensures ToNumber(Str("\U{001C}5")) == 0
  {
    var s := "\U{001C}5";
    assert TrimLeft(s, IsSpace) == "5" by {
      assert IsSpace(s[0]) && s[1..] == "5";
      assert !IsSpace("5"[0]);
    }
    assert FloatStrip(s) == s by {
      assert !IsFloatSpace(s[0]) && !IsFloatSpace(s[1]);
      TrimNoop(s, IsFloatSpace);
    }
    assert IndexOf(s, '.') == 2;
    assert s[..2] == s && !IsDigit(s[0]);
  }

  // ---------------------------------------------------------------------
  // parse_date

  /** The pieces of s between occurrences of sep (str.split(sep)). */
  function Fields(s: string, sep: char): (fs: seq<string>)
    ensures |fs| >= 1
    decreases |s|
  {
    var k := IndexOf(s, sep);
    if k == |s| then [s] else [s[..k]] + Fields(s[k + 1..], sep)
  }

  /** %Y: exactly four digits. */
  function YearField(f: string): Option<int>
  {
    if |f| == 4 && AllDigits(f) then Some(NatOf(f)) else None
  }

  /** %y: two digits; 00-68 are 2000-2068 and 69-99 are 1969-1999. */
  function ShortYearField(f: string): Option<int>
  {
    if |f| == 2 && AllDigits(f) then
      var y := NatOf(f);
      Some(if y <= 68 then 2000 + y else 1900 + y)
    else None
  }

  /** %m: 1-9, 01-09 or 10-12. */
  function MonthField(f: string): Option<int>
  {
    if 1 <= |f| <= 2 && AllDigits(f) && 1 <= NatOf(f) <= 12 then Some(NatOf(f)) else None
  }

  /** %d: 1-9, 01-31, or a space followed by 1-9. */
  function DayField(f: string): Option<int>
  {
    if 1 <= |f| <= 2 && AllDigits(f) && 1 <= NatOf(f) <= 31 then Some(NatOf(f))
    else if |f| == 2 && f[0] == ' ' && '1' <= f[1] <= '9' then Some(DigitValue(f[1]))
    else None
  }

  /** The four layouts parse_date tries, in the order it tries them. */
  datatype DateFormat = IsoDashed | DayFirst | DayFirstShortYear | YearFirstDotted

  const DateFormats: seq<DateFormat> := [IsoDashed, DayFirst, DayFirstShortYear, YearFirstDotted]

  function Separator(f: DateFormat): char
  {
    if f == IsoDashed then '-' else '.'
  }

  /** The date s denotes in format f, if it matches the layout and names a day that exists. */
  function TryFormat(s: string, f: DateFormat): (r: Option<CivilDate>)
  {
    var fs := Fields(s, Separator(f));
    if |fs| != 3 then None
    else
      var year := match f
        case IsoDashed => YearField(fs[0])
        case YearFirstDotted => YearField(fs[0])
        case DayFirst => YearField(fs[2])
        case DayFirstShortYear => ShortYearField(fs[2]);
      var month := MonthField(fs[1]);
      var day := if f == IsoDashed || f == YearFirstDotted then DayField(fs[2]) else DayField(fs[0]);
      if year.Some? && month.Some? && day.Some? && IsValid(Date(year.value, month.value, day.value)) then
        Some(Date(year.value, month.value, day.value))
      else None
  }

  /** The first of two answers that is present. */
  function OrElse(first: Option<CivilDate>, second: Option<CivilDate>): Option<CivilDate>
  {
    if first.Some? then first else second
  }

  /** The first of `formats` that s matches. */
  function FirstMatch(s: string, formats: seq<DateFormat>): Option<CivilDate>
  {
    if formats == [] then None else OrElse(TryFormat(s, formats[0]), FirstMatch(s, formats[1..]))
  }

  /**
   * parse_date: a date-time is returned as it is; anything else is turned
   * into text, stripped, and tried against the four layouts in order.
   */
  function ParseDate(c: Cell): Option<CivilDate>
  {
    match c
    case DateTime(d) => Some(d)
    case _ => FirstMatch(Strip(Text(c)), DateFormats)
  }

  /** Splitting "a<sep>rest" gives a, then the fields of rest, when a holds no separator. */
  lemma FieldsJoin(a: string, rest: string, sep: char)
    requires sep !in a
    ensures Fields(a + [sep] + rest, sep) == [a] + Fields(rest, sep)
  {
    var s := a + [sep] + rest;
    assert forall i :: 0 <= i < |a| ==> a[i] != sep;
    IndexOfJoin(a, sep, rest);
    assert s[..|a|] == a && s[|a| + 1..] == rest;
  }

  lemma FieldsJoin3(a: string, b: string, c: string, sep: char)
    requires sep !in a && sep !in b && sep !in c
    ensures Fields(a + [sep] + b + [sep] + c, sep) == [a, b, c]
  {
    var rest := b + [sep] + c;
    FieldsWithoutSeparator(c, sep);
    FieldsJoin(b, c, sep);
    FieldsJoin(a, rest, sep);
    Regroup(a, b, c, sep);
  }

  lemma Regroup(a: string, b: string, c: string, sep: char)
    ensures a + [sep] + b + [sep] + c == a + [sep] + (b + [sep] + c)
  {
  }

  lemma DigitsHaveNoSeparator(s: string, sep: char)
    requires AllDigits(s) && !IsDigit(sep)
    ensures sep !in s
  {
  }

  /** parse_date on text that strip() leaves alone: the first of the four layouts, in order, that yields a date. */
  lemma ParseText(s: string)
    requires Strip(s) == s
    ensures ParseDate(Str(s))
         == OrElse(TryFormat(s, IsoDashed), OrElse(TryFormat(s, DayFirst),
              OrElse(TryFormat(s, DayFirstShortYear), TryFormat(s, YearFirstDotted))))
  {
    FirstMatchInOrder(s);
  }

  /** The date part that datetime prints is stripped already and matches "YYYY-MM-DD". */
  lemma {:induction false} DateTextLayout(d: CivilDate)
    ensures Strip(DateText(d)) == DateText(d)
    ensures TryFormat(DateText(d), IsoDashed).Some? && TryFormat(DateText(d), IsoDashed).value == d
  {
    var y, m, dd := Pad(d.year, 4), Pad(d.month, 2), Pad(d.day, 2);
    var s := DateText(d);
    PadWidths(d);
    DigitsHaveNoSeparator(y, '-');
    DigitsHaveNoSeparator(m, '-');
    DigitsHaveNoSeparator(dd, '-');
    assert s == y + ['-'] + m + ['-'] + dd;
    FieldsJoin3(y, m, dd, '-');
    DateTextStripped(d);
  }

  /** The date part that datetime prints starts and ends with a digit, so strip() keeps it. */
  lemma DateTextStripped(d: CivilDate)
    ensures Strip(DateText(d)) == DateText(d)
  {
    var s := DateText(d);
    PadWidths(d);
    assert s[0] == Pad(d.year, 4)[0] && s[|s| - 1] == Pad(d.day, 2)[1];
    assert IsDigit(s[0]) && IsDigit(s[|s| - 1]);
    StripNoop(s);
  }

  /** The date part that datetime prints reads back as the same date (first layout). */
  lemma ParseDateTextRoundTrip(d: CivilDate)
    ensures ParseDate(Str(DateText(d))) == Some(d)
  {
    DateTextLayout(d);
    ParseText(DateText(d));
  }

  /** Zero-padded fields of a date have the width their layout asks for. */
  lemma {:induction false} PadWidths(d: CivilDate)
    ensures |Pad(d.year, 4)| == 4 && |Pad(d.month, 2)| == 2 && |Pad(d.day, 2)| == 2
  {
    ShowNatLength(d.year);
    ShowNatLength(d.month);
    ShowNatLength(d.day);
  }

  /** The zero-padded fields of a date read back as its year, month and day. */
  lemma PadFields(d: CivilDate)
    ensures YearField(Pad(d.year, 4)) == Some(d.year)
    ensures MonthField(Pad(d.month, 2)) == Some(d.month)
    ensures DayField(Pad(d.day, 2)) == Some(d.day)
  {
    PadWidths(d);
  }

  lemma {:induction false} ShowNatLength(n: nat)
    ensures n < 10 ==> |ShowNat(n)| == 1
    ensures n < 100 ==> |ShowNat(n)| <= 2
    ensures n < 1000 ==> |ShowNat(n)| <= 3
    ensures n < 10000 ==> |ShowNat(n)| <= 4
  {
    if n >= 10 { ShowNatLength(n / 10); }
  }

  /** Text without the separator is a single field. */
  lemma {:induction false} FieldsWithoutSeparator(s: string, sep: char)
    requires sep !in s
    ensures Fields(s, sep) == [s]
  {
    assert forall i :: 0 <= i < |s| ==> s[i] != sep;
  }

  /** A dotted date "a.b.c" of digit fields: stripped already, split on '.', and not a dashed date. */
  lemma {:induction false} DottedDate(s: string, a: string, b: string, c: string)
    requires AllDigits(a) && AllDigits(b) && AllDigits(c) && |a| > 0 && |c| > 0
    requires s == a + "." + b + "." + c
    ensures Strip(s) == s && Fields(s, '.') == [a, b, c] && TryFormat(s, IsoDashed) == None
  {
    DigitsHaveNoSeparator(a, '.');
    DigitsHaveNoSeparator(b, '.');
    DigitsHaveNoSeparator(c, '.');
    assert s == a + ['.'] + b + ['.'] + c;
    FieldsJoin3(a, b, c, '.');
    forall i | 0 <= i < |s| ensures s[i] != '-' {
      if i < |a| { assert s[i] == a[i]; }
      else if i == |a| { }
      else if i < |a| + 1 + |b| { assert s[i] == b[i - |a| - 1]; }
      else if i == |a| + 1 + |b| { }
      else { assert s[i] == c[i - |a| - 2 - |b|]; }
    }
    FieldsWithoutSeparator(s, '-');
    assert IsDigit(s[0]) && s[|s| - 1] == c[|c| - 1];
    StripNoop(s);
  }

  /** parse_date takes the first layout, in its fixed order, that yields a valid date. */
  lemma FirstMatchInOrder(s: string)
    ensures FirstMatch(s, DateFormats)
         == OrElse(TryFormat(s, IsoDashed), OrElse(TryFormat(s, DayFirst),
              OrElse(TryFormat(s, DayFirstShortYear), TryFormat(s, YearFirstDotted))))
  {
    var f1 := DateFormats[1..];
    var f2 := f1[1..];
    var f3 := f2[1..];
    assert DateFormats[0] == IsoDashed && f1[0] == DayFirst && f2[0] == DayFirstShortYear;
    assert f3 == [YearFirstDotted] && f3[1..] == [];
    assert FirstMatch(s, f3) == TryFormat(s, YearFirstDotted);
    assert FirstMatch(s, f2) == OrElse(TryFormat(s, DayFirstShortYear), FirstMatch(s, f3));
    assert FirstMatch(s, f1) == OrElse(TryFormat(s, DayFirst), FirstMatch(s, f2));
    assert FirstMatch(s, DateFormats) == OrElse(TryFormat(s, IsoDashed), FirstMatch(s, f1));
  }

  lemma {:induction false} DayFirstLayout(s: string, a: string, b: string, c: string, date: CivilDate)
    requires Fields(s, '.') == [a, b, c]
    requires DayField(a) == Some(date.day) && MonthField(b) == Some(date.month) && YearField(c) == Some(date.year)
    ensures TryFormat(s, DayFirst) == Some(date)
  {
  }

  /** "DD.MM.YYYY" reads back as the same date (second layout). */
  lemma ParseDayFirst(d: CivilDate)
    ensures ParseDate(Str(Pad(d.day, 2) + "." + Pad(d.month, 2) + "." + Pad(d.year, 4))) == Some(d)
  {
    var a, b, c := Pad(d.day, 2), Pad(d.month, 2), Pad(d.year, 4);
    var s := a + "." + b + "." + c;
    PadWidths(d);
    DottedDate(s, a, b, c);
    PadFields(d);
    DayFirstLayout(s, a, b, c, d);
    ParseText(s);
  }

  /** A dotted date whose first field is too long to be a day matches neither day-first layout. */
  lemma {:induction false} NotDayFirst(s: string, a: string, b: string, c: string)
    requires Fields(s, '.') == [a, b, c] && |a| > 2
    ensures TryFormat(s, DayFirst) == None && TryFormat(s, DayFirstShortYear) == None
  {
    assert DayField(a) == None;
  }

  /** A dotted date whose last field has two characters is not "DD.MM.YYYY". */
  lemma {:induction false} NotLongYear(s: string, a: string, b: string, c: string)
    requires Fields(s, '.') == [a, b, c] && |c| == 2
    ensures TryFormat(s, DayFirst) == None
  {
    assert YearField(c) == None;
  }

  lemma TwoDigitFields(day: int, month: int, yy: int)
    requires 1 <= day <= 31 && 1 <= month <= 12 && 0 <= yy <= 99
    ensures |Pad(day, 2)| == 2 && |Pad(month, 2)| == 2 && |Pad(yy, 2)| == 2
    ensures DayField(Pad(day, 2)) == Some(day) && MonthField(Pad(month, 2)) == Some(month)
    ensures ShortYearField(Pad(yy, 2)) == Some(if yy <= 68 then 2000 + yy else 1900 + yy)
  {
    ShowNatLength(day);
    ShowNatLength(month);
    ShowNatLength(yy);
  }

  lemma {:induction false} ShortYearLayout(s: string, a: string, b: string, c: string, date: CivilDate)
    requires Fields(s, '.') == [a, b, c]
    requires DayField(a) == Some(date.day) && MonthField(b) == Some(date.month) && ShortYearField(c) == Some(date.year)
    ensures TryFormat(s, DayFirstShortYear) == Some(date)
  {
  }

  lemma {:induction false} YearFirstLayout(s: string, a: string, b: string, c: string, date: CivilDate)
    requires Fields(s, '.') == [a, b, c]
    requires YearField(a) == Some(date.year) && MonthField(b) == Some(date.month) && DayField(c) == Some(date.day)
    ensures TryFormat(s, YearFirstDotted) == Some(date)
  {
  }

  /**
   * "DD.MM.YY" reads with the two-digit year pivot: 00-68 are 2000-2068 and
   * 69-99 are 1969-1999 (third layout; the second rejects a two-digit year).
   */
  lemma ParseShortYear(day: int, month: int, yy: int)
    requires 0 <= yy <= 99 && 1 <= month <= 12
    requires IsValid(Date(if yy <= 68 then 2000 + yy else 1900 + yy, month, day))
    ensures ParseDate(Str(Pad(day, 2) + "." + Pad(month, 2) + "." + Pad(yy, 2)))
         == Some(Date(if yy <= 68 then 2000 + yy else 1900 + yy, month, day))
  {
    var a, b, c := Pad(day, 2), Pad(month, 2), Pad(yy, 2);
    var s := a + "." + b + "." + c;
    var date: CivilDate := Date(if yy <= 68 then 2000 + yy else 1900 + yy, month, day);
    TwoDigitFields(day, month, yy);
    DottedDate(s, a, b, c);
    NotLongYear(s, a, b, c);
    ShortYearLayout(s, a, b, c, date);
    ParseText(s);
  }

  /** "YYYY.MM.DD" reads back as the same date (fourth layout; a four-digit day is no day). */
  lemma ParseYearFirstDotted(d: CivilDate)
    ensures ParseDate(Str(Pad(d.year, 4) + "." + Pad(d.month, 2) + "." + Pad(d.day, 2))) == Some(d)
  {
    var a, b, c := Pad(d.year, 4), Pad(d.month, 2), Pad(d.day, 2);
    var s := a + "." + b + "." + c;
    PadWidths(d);
    DottedDate(s, a, b, c);
    NotDayFirst(s, a, b, c);
    PadFields(d);
    YearFirstLayout(s, a, b, c, d);
    ParseText(s);
  }

  lemma DashedNoThirtieth(s: string)
    requires s == "2024-02-30"
    ensures TryFormat(s, IsoDashed) == None
  {
    assert s == "2024" + ['-'] + "02" + ['-'] + "30";
    FieldsJoin3("2024", "02", "30", '-');
    LeapYearField();
    FebruaryThirtiethFields();
    assert !IsValid(Date(2024, 2, 30));
  }

  lemma LeapYearField()
    ensures YearField("2024") == Some(2024)
  {
    assert "2024"[..3] == "202" && "202"[..2] == "20" && "20"[..1] == "2" && "2"[..0] == "";
    assert NatOf("2") == 2;
    assert NatOf("20") == 20;
    assert NatOf("202") == 202;
    assert NatOf("2024") == 2024;
  }

  lemma FebruaryThirtiethFields()
    ensures MonthField("02") == Some(2) && DayField("30") == Some(30)
  {
    assert "02"[..1] == "0" && "30"[..1] == "3" && "0"[..0] == "" && "3"[..0] == "";
    assert NatOf("0") == 0 && NatOf("3") == 3;
    assert NatOf("02") == 2 && NatOf("30") == 30;
  }

  /** Text without a '.' matches none of the dotted layouts. */
  lemma DottedLayoutsFail(s: string)
    requires Fields(s, '.') == [s]
    ensures TryFormat(s, DayFirst) == None && TryFormat(s, DayFirstShortYear) == None
    ensures TryFormat(s, YearFirstDotted) == None
  {
  }

  lemma NoPointInDashed(s: string)
    requires s == "2024-02-30"
    ensures Fields(s, '.') == [s]
  {
    assert IndexOf(s, '.') == |s|;
  }

  /** A well-formed layout naming a day that does not exist is rejected: there is no 30 February. */
  lemma NoThirtiethOfFebruary()
    ensures ParseDate(Str("2024-02-30")) == None
  {
    var s := "2024-02-30";
    assert ParseDate(Str(s)) == FirstMatch(s, DateFormats) by {
      StripNoop(s);
    }
    FirstMatchInOrder(s);
    DashedNoThirtieth(s);
    NoPointInDashed(s);
    DottedLayoutsFail(s);
  }

  /** Text with neither '-' nor '.' matches none of the four layouts. */
  lemma NoSeparatorNoDate(s: string)
    requires forall i :: 0 <= i < |s| ==> s[i] != '-' && s[i] != '.'
    ensures FirstMatch(s, DateFormats) == None
  {
    assert IndexOf(s, '-') == |s| && IndexOf(s, '.') == |s|;
    DottedLayoutsFail(s);
    FirstMatchInOrder(s);
  }

  /** A falsy cell (None, 0 or "") never parses as a date. */
  lemma FalsyCellsNeverDate(c: Cell)
    requires !Truthy(c)
    ensures ParseDate(c) == None
  {
    var t := Text(c);
    assert t == "None" || t == "0" || t == "";
    StripNoop(t);
    NoSeparatorNoDate(t);
  }
}
