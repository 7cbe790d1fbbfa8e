/**
 * Solar Hijri (Shamsi) date arithmetic of shamsiUtils.js: digit conversion,
 * normalisation and parsing of date text, month lengths under the code's
 * simplified leap rule (`y % 4 == 3`), adding months with day clamping, the
 * day difference through a day ordinal counted from year 1300, and the
 * Persian-digit number formatter.
 *
 * Years, months and days are natural numbers: the parser only accepts digit
 * strings, so nothing negative reaches the arithmetic.
 */
module Shamsi {
  import opened Strings
  import opened Js

  const PERSIAN_DIGITS: string := "۰۱۲۳۴۵۶۷۸۹"
  /** ARABIC THOUSANDS SEPARATOR, U+066C. */
  const THOUSANDS_SEP: char := '٬'

  predicate IsPersianDigit(c: char) {
    '\U{06F0}' <= c <= '\U{06F9}'
  }

  function PersianValue(c: char): (d: nat)
    requires IsPersianDigit(c)
    ensures d < 10 && PERSIAN_DIGITS[d] == c
  {
    c as int - 0x06F0
  }

  function PersianDigit(d: nat): (c: char)
    requires d < 10
    ensures IsPersianDigit(c) && PersianValue(c) == d
  {
    PERSIAN_DIGITS[d]
  }

  predicate NoPersianDigits(s: string) {
    forall i :: 0 <= i < |s| ==> !IsPersianDigit(s[i])
  }

  function EnglishChar(c: char): char {
    if IsPersianDigit(c) then DigitChar(PersianValue(c)) else c
  }

  /** `toEnglishNum`: every Persian digit becomes the ASCII digit of the same value. */
  function ToEnglishNum(s: string): (r: string)
    ensures |r| == |s|
  {
    if s == [] then [] else [EnglishChar(s[0])] + ToEnglishNum(s[1..])
  }

  lemma {:induction false} ToEnglishNumPointwise(s: string)
    ensures forall i :: 0 <= i < |s| ==> ToEnglishNum(s)[i] == EnglishChar(s[i])
  {
    if s != [] {
      ToEnglishNumPointwise(s[1..]);
    }
  }

  /** Position by position: Persian digits become ASCII digits of the same value, all else is kept. */
  lemma ToEnglishNumAt(s: string)
    ensures NoPersianDigits(ToEnglishNum(s))
    ensures forall i :: 0 <= i < |s| && IsPersianDigit(s[i]) ==>
      IsDigit(ToEnglishNum(s)[i]) && DigitValue(ToEnglishNum(s)[i]) == PersianValue(s[i])
    ensures forall i :: 0 <= i < |s| && !IsPersianDigit(s[i]) ==> ToEnglishNum(s)[i] == s[i]
  {
    ToEnglishNumPointwise(s);
  }

  lemma ToEnglishNumIdentity(s: string)
    requires NoPersianDigits(s)
    ensures ToEnglishNum(s) == s
  {
    ToEnglishNumAt(s);
  }

  // ---------------------------------------------------------------------
  // Date text

  datatype Date = Date(y: nat, m: nat, d: nat)

  /**
   * `normalizeShamsi`: Persian digits become ASCII, all whitespace is removed,
   * and a slash-separated date with a year of at least four characters (last
   * or first) is rewritten as `year-MM-DD`. Anything else is returned as it is.
   */
  function NormalizeShamsi(str: string): string {
    if str == "" then ""
    else
      var s := RemoveSpaces(ToEnglishNum(Trim(str)));
      if Has(s, '/') then Reordered(s) else s
  }

  /** The slash branch of `normalizeShamsi`: `D/M/YYYY` or `YYYY/M/D` becomes `YYYY-MM-DD`. */
  function Reordered(s: string): string {
    var raw := Split(s, '/');
    if |raw| == 3 then
      var a, b, c := ToEnglishNum(Trim(raw[0])), ToEnglishNum(Trim(raw[1])), ToEnglishNum(Trim(raw[2]));
      if c != "" && |c| >= 4 then c + "-" + PadStart2(a) + "-" + PadStart2(b)
      else if a != "" && |a| >= 4 then a + "-" + PadStart2(b) + "-" + PadStart2(c)
      else s
    else s
  }

  /** Canonical `YYYY-MM-DD` text passes through normalisation unchanged. */
  lemma NormalizeDashDigits(s: string)
    requires s != "" && DigitsOr(s, '-')
    ensures NormalizeShamsi(s) == s
  {
    assert NoSpace(s);
    TrimNoSpace(s);
    ToEnglishNumIdentity(s);
    RemoveSpacesNoSpace(s);
    HasNone(s, '/');
  }

  /** Digit text `a/b/c` with a year of four or more digits first becomes `a-MM-DD`. */
  lemma NormalizeYearFirst(a: string, b: string, c: string)
    requires AllDigits(a) && AllDigits(b) && AllDigits(c)
    requires |a| >= 4 && |c| < 4
    ensures NormalizeShamsi(a + "/" + b + "/" + c) == a + "-" + PadStart2(b) + "-" + PadStart2(c)
  {
    SlashTextClean(a, b, c);
    ReorderedParts(a, b, c);
  }

  /** Digit text `a/b/c` with a year of four or more digits last becomes `c-AA-BB`. */
  lemma NormalizeYearLast(a: string, b: string, c: string)
    requires AllDigits(a) && AllDigits(b) && AllDigits(c)
    requires |c| >= 4
    ensures NormalizeShamsi(a + "/" + b + "/" + c) == c + "-" + PadStart2(a) + "-" + PadStart2(b)
  {
    SlashTextClean(a, b, c);
    ReorderedParts(a, b, c);
  }

  lemma DigitsClean(a: string)
    requires AllDigits(a)
    ensures Trim(a) == a && ToEnglishNum(a) == a && '/' !in a
  {
    assert NoSpace(a) && NoPersianDigits(a);
    TrimNoSpace(a);
    ToEnglishNumIdentity(a);
  }

  lemma SlashTextClean(a: string, b: string, c: string)
    requires AllDigits(a) && AllDigits(b) && AllDigits(c)
    ensures var s := a + "/" + b + "/" + c;
      NormalizeShamsi(s) == Reordered(s)
  {
    var s := a + "/" + b + "/" + c;
    assert NoSpace(s) && NoPersianDigits(s) by {
      forall i | 0 <= i < |s| ensures !IsSpace(s[i]) && !IsPersianDigit(s[i]) {
        if i < |a| { assert s[i] == a[i]; }
        else if i == |a| { assert s[i] == '/'; }
        else if i < |a| + 1 + |b| { assert s[i] == b[i - |a| - 1]; }
        else if i == |a| + 1 + |b| { assert s[i] == '/'; }
        else { assert s[i] == c[i - |a| - |b| - 2]; }
      }
    }
    TrimNoSpace(s);
    ToEnglishNumIdentity(s);
    RemoveSpacesNoSpace(s);
    assert s[|a|] == '/';
    HasAt(s, '/', |a|);
  }

  lemma ReorderedParts(a: string, b: string, c: string)
    requires AllDigits(a) && AllDigits(b) && AllDigits(c)
    ensures var s := a + "/" + b + "/" + c;
      Reordered(s) ==
        if |c| >= 4 then c + "-" + PadStart2(a) + "-" + PadStart2(b)
        else if |a| >= 4 then a + "-" + PadStart2(b) + "-" + PadStart2(c)
        else s
  {
    var s := a + "/" + b + "/" + c;
    DigitsClean(a);
    DigitsClean(b);
    DigitsClean(c);
    SlashSplit(a, b, c);
    var raw := Split(s, '/');
    assert raw[0] == a && raw[1] == b && raw[2] == c;
  }

  lemma SlashSplit(a: string, b: string, c: string)
    requires '/' !in a && '/' !in b && '/' !in c
    ensures Split(a + "/" + b + "/" + c, '/') == [a, b, c]
  {
    assert a + "/" + b + "/" + c == a + ['/'] + (b + ['/'] + c);
    SplitAfter(a, '/', b + ['/'] + c);
    SplitAfter(b, '/', c);
    SplitNoSep(c, '/');
  }

  /** Persian digits are converted before anything else looks at the text. */
  lemma NormalizeConvertsDigitsFirst(str: string)
    ensures NormalizeShamsi(ToEnglishNum(str)) == NormalizeShamsi(str)
  {
    TrimCommutesToEnglish(str);
    ToEnglishNumIdempotent(Trim(str));
  }

  lemma ToEnglishNumIdempotent(s: string)
    ensures ToEnglishNum(ToEnglishNum(s)) == ToEnglishNum(s)
  {
    ToEnglishNumAt(s);
    ToEnglishNumIdentity(ToEnglishNum(s));
  }

  lemma {:induction false} TrimCommutesToEnglish(s: string)
    ensures Trim(ToEnglishNum(s)) == ToEnglishNum(Trim(s))
  {
    TrimStartCommutes(s);
    TrimEndCommutes(TrimStart(s));
  }

  lemma {:induction false} TrimStartCommutes(s: string)
    ensures TrimStart(ToEnglishNum(s)) == ToEnglishNum(TrimStart(s))
  {
    if s != [] {
      assert IsSpace(ToEnglishNum(s)[0]) == IsSpace(s[0]);
      assert ToEnglishNum(s)[1..] == ToEnglishNum(s[1..]);
      TrimStartCommutes(s[1..]);
    }
  }

  lemma {:induction false} TrimEndCommutes(s: string)
    ensures TrimEnd(ToEnglishNum(s)) == ToEnglishNum(TrimEnd(s))
  {
    if s != [] {
      var t, c := s[..|s| - 1], s[|s| - 1];
      assert s == t + [c];
      ToEnglishNumSnoc(t, c);
      EnglishCharSpace(c);
      TrimEndCommutes(t);
    }
  }

  /** Converting a text with one more character at the end converts that character at the end. */
  lemma {:induction false} ToEnglishNumSnoc(t: string, c: char)
    ensures ToEnglishNum(t + [c]) == ToEnglishNum(t) + [EnglishChar(c)]
  {
    if t == [] {
      assert [c][1..] == [];
    } else {
      assert (t + [c])[1..] == t[1..] + [c];
      ToEnglishNumSnoc(t[1..], c);
    }
  }

  /** A Persian digit and its ASCII digit are both non-space, so conversion keeps spaces as they are. */
  lemma EnglishCharSpace(c: char)
    ensures IsSpace(EnglishChar(c)) == IsSpace(c)
  {
    if IsPersianDigit(c) {
      assert IsDigit(EnglishChar(c));
    }
  }

  /**
   * `parseShamsi`: exactly three dash-separated numeric parts after
   * normalisation; the day is capped at 31, month and day are not range-checked.
   * An empty part reads as 0, as JavaScript's `Number('')` does.
   */
  function ParseShamsi(str: string): (r: Option<Date>)
    ensures r.Some? ==> r.value.d <= 31
  {
    ParseParts(NormalizeShamsi(str))
  }

  function ParseParts(n: string): (r: Option<Date>)
    ensures r.Some? ==> r.value.d <= 31
  {
    if n == "" then None
    else
      var parts := Split(n, '-');
      if |parts| != 3 then None
      else if AllDigits(parts[0]) && AllDigits(parts[1]) && AllDigits(parts[2]) then
        var d := ParseDigits(parts[2]);
        Some(Date(ParseDigits(parts[0]), ParseDigits(parts[1]), if d <= 31 then d else 31))
      else None
  }

  /** The `${y}-${MM}-${DD}` text `addMonthsShamsi` returns. */
  function FormatDate(p: Date): (s: string)
    ensures s != "" && DigitsOr(s, '-')
  {
    var s := NatToStr(p.y) + "-" + PadStart2(NatToStr(p.m)) + "-" + PadStart2(NatToStr(p.d));
    assert DigitsOr(s, '-') by {
      var y, m, d := NatToStr(p.y), PadStart2(NatToStr(p.m)), PadStart2(NatToStr(p.d));
      assert AllDigits(y) && AllDigits(m) && AllDigits(d);
      forall i | 0 <= i < |s| ensures IsDigit(s[i]) || s[i] == '-' {
        if i < |y| { assert s[i] == y[i]; }
        else if i == |y| { assert s[i] == '-'; }
        else if i < |y| + 1 + |m| { assert s[i] == m[i - |y| - 1]; }
        else if i == |y| + 1 + |m| { assert s[i] == '-'; }
        else { assert s[i] == d[i - |y| - |m| - 2]; }
      }
    }
    s
  }

  /** Formatting a date with a day of at most 31 and parsing it back gives the date. */
  lemma ParseFormatDate(p: Date)
    requires p.d <= 31
    ensures ParseShamsi(FormatDate(p)) == Some(p)
  {
    NormalizeDashDigits(FormatDate(p));
    ParsePartsFormat(p);
  }

  /** A formatted date with a day above 31 reads back with day 31 (`Math.min(d, 31)`). */
  lemma ParseFormatDateCapped(p: Date)
    requires p.d > 31
    ensures ParseShamsi(FormatDate(p)) == Some(p.(d := 31))
  {
    NormalizeDashDigits(FormatDate(p));
    ParsePartsFormat(p);
  }

  /**
   * A text parses exactly when its normal form is non-empty, made of
   * digits and dashes only, and holds exactly two dashes: three numeric
   * fields. Every other normal form gives `null`.
   */
  lemma ParseShamsiShape(str: string)
    ensures var n := NormalizeShamsi(str);
      ParseShamsi(str).Some? <==> n != "" && DigitsOr(n, '-') && multiset(n)['-'] == 2
  {
    ParsePartsShape(NormalizeShamsi(str));
  }

  lemma ParsePartsShape(n: string)
    ensures ParseParts(n).Some? <==> n != "" && DigitsOr(n, '-') && multiset(n)['-'] == 2
  {
    if n != "" {
      var parts := Split(n, '-');
      SplitCount(n, '-');
      SplitDigits(n, '-');
      if |parts| == 3 {
        assert PartsDigits(parts) <==> AllDigits(parts[0]) && AllDigits(parts[1]) && AllDigits(parts[2]);
      }
    }
  }

  /** A formatted date reads back with its day capped at 31. */
  lemma ParsePartsFormat(p: Date)
    ensures ParseParts(FormatDate(p)) == Some(p.(d := if p.d <= 31 then p.d else 31))
  {
    var y, m, d := NatToStr(p.y), PadStart2(NatToStr(p.m)), PadStart2(NatToStr(p.d));
    FieldsOfFormat(p);
    DashFree(y);
    DashFree(m);
    DashFree(d);
    SplitThree(y, m, d, '-');
  }

  lemma FieldsOfFormat(p: Date)
    ensures var y, m, d := NatToStr(p.y), PadStart2(NatToStr(p.m)), PadStart2(NatToStr(p.d));
      FormatDate(p) == y + ['-'] + m + ['-'] + d &&
      AllDigits(y) && AllDigits(m) && AllDigits(d) &&
      ParseDigits(y) == p.y && ParseDigits(m) == p.m && ParseDigits(d) == p.d
  {
    ParsePadStart2(NatToStr(p.m));
    ParsePadStart2(NatToStr(p.d));
    ParseNatToStr(p.y);
    ParseNatToStr(p.m);
    ParseNatToStr(p.d);
  }

  lemma DashFree(s: string)
    requires AllDigits(s)
    ensures '-' !in s
  {
    assert forall i :: 0 <= i < |s| ==> IsDigit(s[i]);
  }

  // ---------------------------------------------------------------------
  // Month lengths and adding months

  /** `daysInMonthShamsi`: 31 for months up to 6, 30 up to 11, and 30 or 29 for month 12. */
  function DaysInMonth(y: nat, m: int): (r: nat)
    ensures 29 <= r <= 31
  {
    if m <= 6 then 31 else if m <= 11 then 30 else if y % 4 == 3 then 30 else 29
  }

  /** The twelve month lengths of year `y` add up to 366 in the leap years of the rule and 365 otherwise. */
  lemma YearLength(y: nat)
    ensures DaysBeforeMonth(y, 13) == if y % 4 == 3 then 366 else 365
  {
    DaysBeforeMonthClosed(y, 12);
  }

  /**
   * The landing date of `addMonthsShamsi`: the month moves forward by
   * `months`, the year grows once per wrap past month 12, and the day is
   * clamped to the landing month's length.
   */
  function MonthsLater(p: Date, months: nat): (r: Date)
    ensures 12 * r.y + r.m == 12 * p.y + p.m + months
    ensures 1 <= p.m ==> 1 <= r.m <= 12
    ensures r.d == Min(p.d, DaysInMonth(r.y, r.m)) && r.d <= DaysInMonth(r.y, r.m)
  {
    var t := p.m + months;
    var y: nat := if t > 12 then p.y + (t - 1) / 12 else p.y;
    var m: nat := if t > 12 then (t - 1) % 12 + 1 else t;
    var last := DaysInMonth(y, m);
    Date(y, m, if p.d <= last then p.d else last)
  }

  /** What `addMonthsShamsi(dateStr, months)` returns: '' for unparseable text or negative months. */
  function AddedMonths(dateStr: string, months: int): (r: string)
    ensures r == "" <==> ParseShamsi(dateStr).None? || months < 0
  {
    LandingText(ParseShamsi(dateStr), months)
  }

  function LandingText(p: Option<Date>, months: int): (r: string)
    ensures r == "" <==> p.None? || months < 0
  {
    if p.None? || months < 0 then "" else FormatDate(MonthsLater(p.value, months))
  }

  /** `addMonthsShamsi`, with its month-wrapping loop. */
  method AddMonthsShamsi(dateStr: string, months: int) returns (r: string)
    ensures r == AddedMonths(dateStr, months)
  {
    var p := ParseShamsi(dateStr);
    r := AddMonthsParsed(p, months);
  }

  /** The body of `addMonthsShamsi` once the date text has been parsed. */
  method AddMonthsParsed(p: Option<Date>, months: int) returns (r: string)
    ensures r == LandingText(p, months)
  {
    if p.None? || months < 0 {
      return "";
    }
    var y: nat, m: nat, d: nat := p.value.y, p.value.m, p.value.d;
    m := m + months;
    while m > 12
      invariant 12 * y + m == 12 * p.value.y + p.value.m + months
      invariant p.value.m + months > 12 ==> 1 <= m
      invariant p.value.m + months <= 12 ==> y == p.value.y && m == p.value.m + months
      decreases m
    {
      m := m - 12;
      y := y + 1;
    }
    MonthWrap(p.value.y, p.value.m, months, y, m);
    var lastDay := DaysInMonth(y, m);
    d := if d <= lastDay then d else lastDay;
    r := NatToStr(y) + "-" + PadStart2(NatToStr(m)) + "-" + PadStart2(NatToStr(d));
    assert Date(y, m, d) == MonthsLater(p.value, months);
  }

  /** Subtracting 12 until the month is at most 12 lands where the division by 12 says. */
  lemma MonthWrap(py: nat, pm: nat, months: nat, y: nat, m: nat)
    requires 12 * y + m == 12 * py + pm + months && m <= 12
    requires pm + months > 12 ==> 1 <= m
    requires pm + months <= 12 ==> y == py && m == pm + months
    ensures var t := pm + months;
      y == (if t > 12 then py + (t - 1) / 12 else py) && m == (if t > 12 then (t - 1) % 12 + 1 else t)
  {
    var t := pm + months;
    if t > 12 {
      assert t - 1 == 12 * (y - py) + (m - 1);
    }
  }

  predicate ValidDate(p: Date) {
    1 <= p.m <= 12 && 1 <= p.d <= DaysInMonth(p.y, p.m)
  }

  /** Adding zero months to a valid date gives back its canonical text. */
  lemma AddZeroMonths(p: Date)
    requires ValidDate(p)
    ensures AddedMonths(FormatDate(p), 0) == FormatDate(p)
  {
    ParseFormatDate(p);
  }

  /** Adding months to a formatted date formats the date that many months later. */
  lemma AddedMonthsOfFormatted(p: Date, months: nat)
    requires p.d <= 31
    ensures AddedMonths(FormatDate(p), months) == FormatDate(MonthsLater(p, months))
  {
    ParseFormatDate(p);
  }

  lemma AddedMonthsParses(dateStr: string, months: nat)
    requires ParseShamsi(dateStr).Some?
    ensures ParseShamsi(AddedMonths(dateStr, months)) == Some(MonthsLater(ParseShamsi(dateStr).value, months))
  {
    ParseFormatDate(MonthsLater(ParseShamsi(dateStr).value, months));
  }

  // ---------------------------------------------------------------------
  // Day differences

  /** Days of the months before month `m` in year `y` (the loop inside `toDays`). */
  function DaysBeforeMonth(y: nat, m: int): nat
    decreases m
  {
    if m <= 1 then 0 else DaysBeforeMonth(y, m - 1) + DaysInMonth(y, m - 1)
  }

  lemma {:induction false} DaysBeforeMonthClosed(y: nat, m: int)
    requires 1 <= m <= 12
    ensures DaysBeforeMonth(y, m) == if m <= 7 then 31 * (m - 1) else 186 + 30 * (m - 7)
  {
    if m > 1 {
      DaysBeforeMonthClosed(y, m - 1);
    }
  }

  /** The day ordinal `toDays` computes: `d + months before + (y-1300)*365 + floor((y-1300)/4)`. */
  function DayOrdinal(p: Date): int {
    p.d + DaysBeforeMonth(p.y, p.m) + (p.y - 1300) * 365 + FloorDiv(p.y - 1300, 4)
  }

  /** `toDays`, with its loop over the earlier months. */
  method ToDays(p: Date) returns (days: int)
    ensures days == DayOrdinal(p)
  {
    days := p.d;
    var i := 1;
    while i < p.m
      invariant 1 <= i <= if p.m < 1 then 1 else p.m
      invariant days == p.d + DaysBeforeMonth(p.y, i)
    {
      days := days + DaysInMonth(p.y, i);
      i := i + 1;
    }
    days := days + (p.y - 1300) * 365 + FloorDiv(p.y - 1300, 4);
  }

  /** `diffDaysShamsi(a, b)`: the signed day count from `a` to `b`, or null when either does not parse. */
  function DiffDays(a: string, b: string): (r: Option<int>)
    ensures r.Some? <==> ParseShamsi(a).Some? && ParseShamsi(b).Some?
  {
    OrdinalGap(ParseShamsi(a), ParseShamsi(b))
  }

  function OrdinalGap(p1: Option<Date>, p2: Option<Date>): (r: Option<int>)
    ensures r.Some? <==> p1.Some? && p2.Some?
  {
    if p1.Some? && p2.Some? then Some(DayOrdinal(p2.value) - DayOrdinal(p1.value)) else None
  }

  method DiffDaysShamsi(a: string, b: string) returns (r: Option<int>)
    ensures r == DiffDays(a, b)
  {
    var p1 := ParseShamsi(a);
    var p2 := ParseShamsi(b);
    r := DiffParsed(p1, p2);
  }

  /** The body of `diffDaysShamsi` once both texts have been parsed. */
  method DiffParsed(p1: Option<Date>, p2: Option<Date>) returns (r: Option<int>)
    ensures r == OrdinalGap(p1, p2)
  {
    if p1.None? || p2.None? {
      return None;
    }
    var t2 := ToDays(p2.value);
    var t1 := ToDays(p1.value);
    r := Some(t2 - t1);
  }

  lemma DiffDaysOfParsed(a: string, b: string, p: Date, q: Date)
    requires ParseShamsi(a) == Some(p) && ParseShamsi(b) == Some(q)
    ensures DiffDays(a, b) == Some(DayOrdinal(q) - DayOrdinal(p))
  {
    assert DiffDays(a, b) == OrdinalGap(Some(p), Some(q));
  }

  /** Between two formatted dates the difference is the difference of their day ordinals. */
  lemma DiffDaysOfFormatted(p: Date, q: Date)
    requires p.d <= 31 && q.d <= 31
    ensures DiffDays(FormatDate(p), FormatDate(q)) == Some(DayOrdinal(q) - DayOrdinal(p))
  {
    ParseFormatDate(p);
    ParseFormatDate(q);
    DiffDaysOfParsed(FormatDate(p), FormatDate(q), p, q);
  }

  lemma DiffDaysSelf(a: string)
    requires ParseShamsi(a).Some?
    ensures DiffDays(a, a) == Some(0)
  {
  }

  lemma DiffDaysAntisymmetric(a: string, b: string)
    ensures DiffDays(a, b).Some? == DiffDays(b, a).Some?
    ensures DiffDays(a, b).Some? ==> DiffDays(a, b).value == -DiffDays(b, a).value
  {
  }

  /** The calendar day after a valid date. */
  function NextDay(p: Date): (r: Date)
    requires ValidDate(p)
    ensures ValidDate(r)
  {
    if p.d < DaysInMonth(p.y, p.m) then Date(p.y, p.m, p.d + 1)
    else if p.m < 12 then Date(p.y, p.m + 1, 1)
    else Date(p.y + 1, 1, 1)
  }

  /** `floor((x+1)/4)` exceeds `floor(x/4)` exactly when `x+1` is a multiple of 4. */
  lemma FloorQuarterStep(x: int)
    ensures FloorDiv(x + 1, 4) == FloorDiv(x, 4) + (if (x + 1) % 4 == 0 then 1 else 0)
  {
    var q, r := x / 4, x % 4;
    assert x == 4 * q + r && 0 <= r < 4;
    if r == 3 {
      assert x + 1 == 4 * (q + 1) + 0;
    } else {
      assert x + 1 == 4 * q + (r + 1);
    }
  }

  /**
   * Consecutive days are one day apart in the ordinal, including the step from
   * the last day of month 12 into the next year: the `floor((y-1300)/4)` term
   * adds a day in exactly the years where month 12 has 30 days.
   */
  lemma NextDayOrdinal(p: Date)
    requires ValidDate(p)
    ensures DayOrdinal(NextDay(p)) == DayOrdinal(p) + 1
  {
    if p.d == DaysInMonth(p.y, p.m) && p.m == 12 {
      DaysBeforeMonthClosed(p.y, 12);
      FloorQuarterStep(p.y - 1300);
      assert ((p.y + 1 - 1300) % 4 == 0) == (p.y % 4 == 3);
    }
  }

  /** The same fact on date text: a valid date and the next one differ by exactly 1. */
  lemma ConsecutiveDaysDifferByOne(p: Date)
    requires ValidDate(p)
    ensures DiffDays(FormatDate(p), FormatDate(NextDay(p))) == Some(1)
  {
    NextDayOrdinal(p);
    DiffDaysOfFormatted(p, NextDay(p));
  }

  // ---------------------------------------------------------------------
  // Number formatting

  /** The `\B(?=(\d{3})+(?!\d))` substitution: a separator before every group of three digits from the right. */
  function GroupThousands(digits: string): (r: string)
    ensures |digits| >= 1 ==> |r| == |digits| + (|digits| - 1) / 3
  {
    if |digits| <= 3 then digits
    else GroupThousands(digits[..|digits| - 3]) + [THOUSANDS_SEP] + digits[|digits| - 3..]
  }

  function RemoveChar(s: string, c: char): (r: string)
    ensures |r| <= |s|
  {
    if s == [] then [] else (if s[0] == c then [] else [s[0]]) + RemoveChar(s[1..], c)
  }

  lemma {:induction false} RemoveCharAppend(a: string, b: string, c: char)
    ensures RemoveChar(a + b, c) == RemoveChar(a, c) + RemoveChar(b, c)
  {
    if a != [] {
      var h := if a[0] == c then [] else [a[0]];
      assert (a + b)[0] == a[0];
      assert (a + b)[1..] == a[1..] + b;
      RemoveCharAppend(a[1..], b, c);
      calc {
        RemoveChar(a + b, c);
        h + RemoveChar(a[1..] + b, c);
        h + (RemoveChar(a[1..], c) + RemoveChar(b, c));
        (h + RemoveChar(a[1..], c)) + RemoveChar(b, c);
      }
    } else {
      assert a + b == b;
    }
  }

  lemma {:induction false} RemoveCharAbsent(s: string, c: char)
    requires c !in s
    ensures RemoveChar(s, c) == s
  {
    if s != [] {
      RemoveCharAbsent(s[1..], c);
    }
  }

  /**
   * The grouped text has a separator exactly at the positions that are a
   * multiple of four characters from its end, digits everywhere else, and
   * dropping the separators gives back the digits.
   */
  lemma GroupThousandsShape(digits: string)
    requires AllDigits(digits) && |digits| >= 1
    ensures var r := GroupThousands(digits);
      && (forall i :: 0 <= i < |r| ==> (r[i] == THOUSANDS_SEP <==> (|r| - i) % 4 == 0))
      && (forall i :: 0 <= i < |r| && r[i] != THOUSANDS_SEP ==> IsDigit(r[i]))
      && RemoveChar(r, THOUSANDS_SEP) == digits
  {
    GroupSeparators(digits);
    GroupUngroup(digits);
  }

  /** Separators exactly every four characters from the right, digits everywhere else. */
  predicate Grouped(r: string) {
    forall i :: 0 <= i < |r| ==> (r[i] == THOUSANDS_SEP <==> (|r| - i) % 4 == 0) && (r[i] == THOUSANDS_SEP || IsDigit(r[i]))
  }

  lemma {:induction false} GroupSeparators(digits: string)
    requires AllDigits(digits) && |digits| >= 1
    ensures Grouped(GroupThousands(digits))
  {
    var r := GroupThousands(digits);
    if |digits| <= 3 {
      forall i | 0 <= i < |r| ensures (r[i] == THOUSANDS_SEP <==> (|r| - i) % 4 == 0) && (r[i] == THOUSANDS_SEP || IsDigit(r[i])) {
        assert IsDigit(digits[i]);
      }
    } else {
      var head, tail := digits[..|digits| - 3], digits[|digits| - 3..];
      GroupSeparators(head);
      GroupedStep(GroupThousands(head), tail);
    }
  }

  /** A grouped text, a separator and three more digits is again grouped. */
  lemma GroupedStep(g: string, tail: string)
    requires Grouped(g) && |tail| == 3 && AllDigits(tail)
    ensures Grouped(g + [THOUSANDS_SEP] + tail)
  {
    var r := g + [THOUSANDS_SEP] + tail;
    forall i | 0 <= i < |r| ensures (r[i] == THOUSANDS_SEP <==> (|r| - i) % 4 == 0) && (r[i] == THOUSANDS_SEP || IsDigit(r[i])) {
      if i < |g| {
        assert r[i] == g[i];
        assert (|r| - i) % 4 == (|g| - i) % 4;
      } else if i > |g| {
        assert r[i] == tail[i - |g| - 1];
        assert IsDigit(r[i]);
        assert 1 <= |r| - i <= 3;
      }
    }
  }

  lemma {:induction false} GroupUngroup(digits: string)
    requires AllDigits(digits)
    ensures RemoveChar(GroupThousands(digits), THOUSANDS_SEP) == digits
  {
    SepNotDigit(digits);
    if |digits| <= 3 {
      RemoveCharAbsent(digits, THOUSANDS_SEP);
    } else {
      var head, tail := digits[..|digits| - 3], digits[|digits| - 3..];
      GroupUngroup(head);
      SepNotDigit(tail);
      RemoveCharAbsent(tail, THOUSANDS_SEP);
      UngroupStep(GroupThousands(head), tail);
      assert head + tail == digits;
    }
  }

  /** Dropping separators from `g`, a separator and a separator-free `tail` drops them from `g` alone. */
  lemma UngroupStep(g: string, tail: string)
    requires RemoveChar(tail, THOUSANDS_SEP) == tail
    ensures RemoveChar(g + [THOUSANDS_SEP] + tail, THOUSANDS_SEP) == RemoveChar(g, THOUSANDS_SEP) + tail
  {
    RemoveCharAppend(g + [THOUSANDS_SEP], tail, THOUSANDS_SEP);
    RemoveCharAppend(g, [THOUSANDS_SEP], THOUSANDS_SEP);
    RemoveCharSeparator();
  }

  lemma RemoveCharSeparator()
    ensures RemoveChar([THOUSANDS_SEP], THOUSANDS_SEP) == []
  {
    assert [THOUSANDS_SEP][1..] == [];
  }

  lemma SepNotDigit(s: string)
    requires AllDigits(s)
    ensures THOUSANDS_SEP !in s
  {
    assert forall i :: 0 <= i < |s| ==> IsDigit(s[i]);
  }

  function PersianChar(c: char): char {
    if IsDigit(c) then PersianDigit(DigitValue(c)) else c
  }

  /** `replace(/\d/g, d => PERSIAN_DIGITS[d])`. */
  function ToPersianDigits(s: string): (r: string)
    ensures |r| == |s|
    ensures forall i :: 0 <= i < |s| ==> !IsDigit(r[i])
  {
    seq(|s|, i requires 0 <= i < |s| => PersianChar(s[i]))
  }

  /** `formatNumTelegram` (and `formatNum` in telegramBot.js) on an integer, or on null/NaN as `None`. */
  function FormatNumTelegram(n: Option<int>): (r: string)
    ensures n.None? ==> r == "۰"
    ensures n.Some? && n.value < 0 ==> r != "" && r[0] == '-'
  {
    match n
    case None => "۰"
    case Some(v) =>
      if v < 0 then ToPersianDigits("-" + GroupThousands(NatToStr(-v)))
      else ToPersianDigits(GroupThousands(NatToStr(v)))
  }

  /**
   * Reading a formatted non-negative number back (Persian digits to ASCII,
   * separators dropped) gives its decimal text and hence its value; no ASCII
   * digit is left in the formatted text, and separators sit every four
   * characters from the right.
   */
  lemma FormatNumRoundTrip(n: nat)
    ensures var r := FormatNumTelegram(Some(n));
      && (forall i :: 0 <= i < |r| ==> !IsDigit(r[i]))
      && (forall i :: 0 <= i < |r| ==> (r[i] == THOUSANDS_SEP <==> (|r| - i) % 4 == 0))
      && RemoveChar(ToEnglishNum(r), THOUSANDS_SEP) == NatToStr(n)
      && ParseDigits(RemoveChar(ToEnglishNum(r), THOUSANDS_SEP)) == n
  {
    var g := GroupThousands(NatToStr(n));
    var r := FormatNumTelegram(Some(n));
    assert r == ToPersianDigits(g);
    GroupThousandsShape(NatToStr(n));
    PersianKeepsSeparators(g);
    PersianBack(g);
    assert RemoveChar(ToEnglishNum(r), THOUSANDS_SEP) == NatToStr(n);
    ParseNatToStr(n);
  }

  /**
   * A negative number is its magnitude's formatted text behind a minus sign:
   * the `\B` of the grouping pattern never matches right after the sign.
   */
  lemma FormatNumNegative(n: int)
    requires n < 0
    ensures FormatNumTelegram(Some(n)) == "-" + FormatNumTelegram(Some(-n))
  {
    MinusPersian(GroupThousands(NatToStr(-n)));
  }

  lemma MinusPersian(g: string)
    ensures ToPersianDigits("-" + g) == "-" + ToPersianDigits(g)
  {
    var a, b := ToPersianDigits("-" + g), "-" + ToPersianDigits(g);
    assert forall i :: 1 <= i < |a| ==> ("-" + g)[i] == g[i - 1];
    assert forall i :: 0 <= i < |a| ==> a[i] == b[i];
  }

  /** A negative number's formatted text reads back to its decimal text, sign included. */
  lemma FormatNumNegativeReads(n: int)
    requires n < 0
    ensures RemoveChar(ToEnglishNum(FormatNumTelegram(Some(n))), THOUSANDS_SEP) == IntToStr(n)
  {
    var r := FormatNumTelegram(Some(-n));
    FormatNumNegative(n);
    MinusEnglish(r);
    MinusRemoved(ToEnglishNum(r));
    FormatNumReads(-n);
  }

  /** A non-negative number's formatted text reads back to its decimal text. */
  lemma FormatNumReads(n: nat)
    ensures RemoveChar(ToEnglishNum(FormatNumTelegram(Some(n))), THOUSANDS_SEP) == NatToStr(n)
  {
    var g := GroupThousands(NatToStr(n));
    GroupThousandsShape(NatToStr(n));
    PersianBack(g);
  }

  lemma MinusEnglish(r: string)
    ensures ToEnglishNum("-" + r) == "-" + ToEnglishNum(r)
  {
    assert ("-" + r)[1..] == r;
  }

  lemma MinusRemoved(x: string)
    ensures RemoveChar("-" + x, THOUSANDS_SEP) == "-" + RemoveChar(x, THOUSANDS_SEP)
  {
    assert ("-" + x)[1..] == x;
  }

  /** Persian digits are not separators: the separators stay where they were. */
  lemma PersianKeepsSeparators(g: string)
    ensures forall i :: 0 <= i < |g| ==> (ToPersianDigits(g)[i] == THOUSANDS_SEP <==> g[i] == THOUSANDS_SEP)
  {
    forall i | 0 <= i < |g| ensures ToPersianDigits(g)[i] == THOUSANDS_SEP <==> g[i] == THOUSANDS_SEP {
      if IsDigit(g[i]) {
        assert IsPersianDigit(PersianDigit(DigitValue(g[i])));
      }
    }
  }

  /** Digits and separators come back unchanged from Persian digits to ASCII. */
  lemma PersianBack(g: string)
    requires forall i :: 0 <= i < |g| && g[i] != THOUSANDS_SEP ==> IsDigit(g[i])
    ensures ToEnglishNum(ToPersianDigits(g)) == g
  {
    var r := ToPersianDigits(g);
    ToEnglishNumPointwise(r);
    forall i | 0 <= i < |g| ensures ToEnglishNum(r)[i] == g[i] {
      if IsDigit(g[i]) {
        assert r[i] == PersianDigit(DigitValue(g[i]));
      } else {
        assert r[i] == g[i];
      }
    }
  }
}
