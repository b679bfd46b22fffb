/**
  Calendar dates and their `YYYY-MM-DD` keys, as the work list's date helpers use them.
  A date is a (year, month, day) record of the proleptic Gregorian calendar, which is what a
  JavaScript `Date` built from local calendar fields denotes. `DayNumber` counts days from
  0001-01-01 (a Monday), so day offsets are integer differences and the weekday is a residue.
 */
module Dates {
  import opened Options
  import opened Text

  datatype Date = Date(year: int, month: int, day: int)

  predicate IsLeapYear(y: int) {
    y % 4 == 0 && (y % 100 != 0 || y % 400 == 0)
  }

  function DaysInYear(y: int): int {
    if IsLeapYear(y) then 366 else 365
  }

  function DaysInMonth(y: int, m: int): int {
    if m == 2 then (if IsLeapYear(y) then 29 else 28)
    else if m == 4 || m == 6 || m == 9 || m == 11 then 30
    else 31
  }

  /** A real calendar date: month 1..12 and a day that exists in that month. */
  predicate ValidDate(d: Date) {
    1 <= d.month <= 12 && 1 <= d.day <= DaysInMonth(d.year, d.month)
  }

  /** Days of year `y` that lie before the first of month `m` (`m == 13`: the whole year). */
  function DaysBeforeMonth(y: int, m: int): int
    requires 1 <= m <= 13
  {
    if m == 1 then 0 else DaysBeforeMonth(y, m - 1) + DaysInMonth(y, m - 1)
  }

  /** Days from 0001-01-01 to January 1 of year `y` (negative before year 1). */
  function DaysBeforeYear(y: int): int {
    var p := y - 1;
    365 * p + p / 4 - p / 100 + p / 400
  }

  /** Days since 0001-01-01. */
  function DayNumber(d: Date): int
    requires 1 <= d.month <= 12
  {
    DaysBeforeYear(d.year) + DaysBeforeMonth(d.year, d.month) + d.day - 1
  }

  /** `getDay()`: Sunday is 0. Day 0 (0001-01-01) was a Monday. */
  function Weekday(d: Date): int
    requires 1 <= d.month <= 12
  {
    (DayNumber(d) + 1) % 7
  }

  lemma WeekdayAnchors()
    ensures Weekday(Date(1970, 1, 1)) == 4
    ensures Weekday(Date(2026, 10, 18)) == 0
  {
    assert DaysBeforeMonth(2026, 10) == 273;
  }

  lemma {:induction false} DaysBeforeMonthGrows(y: int, m: int, n: int)
    requires 1 <= m <= n <= 13
    ensures DaysBeforeMonth(y, m) <= DaysBeforeMonth(y, n)
    ensures m < n ==> DaysBeforeMonth(y, m) + DaysInMonth(y, m) <= DaysBeforeMonth(y, n)
    decreases n - m
  {
    if m < n {
      DaysBeforeMonthGrows(y, m + 1, n);
    }
  }

  lemma WholeYear(y: int)
    ensures DaysBeforeMonth(y, 13) == DaysInYear(y)
  {
    var f := DaysInMonth(y, 2);
    assert DaysBeforeMonth(y, 2) == 31;
    assert DaysBeforeMonth(y, 3) == 31 + f;
    assert DaysBeforeMonth(y, 4) == 31 + f + 31;
    assert DaysBeforeMonth(y, 5) == 31 + f + 31 + 30;
    assert DaysBeforeMonth(y, 6) == 31 + f + 31 + 30 + 31;
    assert DaysBeforeMonth(y, 7) == 31 + f + 31 + 30 + 31 + 30;
    assert DaysBeforeMonth(y, 8) == 31 + f + 31 + 30 + 31 + 30 + 31;
    assert DaysBeforeMonth(y, 9) == 31 + f + 31 + 30 + 31 + 30 + 31 + 31;
    assert DaysBeforeMonth(y, 10) == 31 + f + 31 + 30 + 31 + 30 + 31 + 31 + 30;
    assert DaysBeforeMonth(y, 11) == 31 + f + 31 + 30 + 31 + 30 + 31 + 31 + 30 + 31;
    assert DaysBeforeMonth(y, 12) == 31 + f + 31 + 30 + 31 + 30 + 31 + 31 + 30 + 31 + 30;
    assert DaysBeforeMonth(y, 13) == 31 + f + 31 + 30 + 31 + 30 + 31 + 31 + 30 + 31 + 30 + 31;
  }

  lemma NextYear(y: int)
    ensures DaysBeforeYear(y + 1) == DaysBeforeYear(y) + DaysInYear(y)
  {
    DivStep4(y);
    DivStep100(y);
    DivStep400(y);
  }

  /** Stepping back one year crosses a multiple of 4 (100, 400) exactly when `y` is one. */
  lemma DivStep4(y: int)
    ensures y / 4 - (y - 1) / 4 == (if y % 4 == 0 then 1 else 0)
  {
    var q, r := y / 4, y % 4;
    assert y == 4 * q + r && 0 <= r < 4;
    if r == 0 {
      assert y - 1 == 4 * (q - 1) + 3;
    } else {
      assert y - 1 == 4 * q + (r - 1);
    }
  }

  lemma DivStep100(y: int)
    ensures y / 100 - (y - 1) / 100 == (if y % 100 == 0 then 1 else 0)
  {
    var q, r := y / 100, y % 100;
    assert y == 100 * q + r && 0 <= r < 100;
    if r == 0 {
      assert y - 1 == 100 * (q - 1) + 99;
    } else {
      assert y - 1 == 100 * q + (r - 1);
    }
  }

  lemma DivStep400(y: int)
    ensures y / 400 - (y - 1) / 400 == (if y % 400 == 0 then 1 else 0)
  {
    var q, r := y / 400, y % 400;
    assert y == 400 * q + r && 0 <= r < 400;
    if r == 0 {
      assert y - 1 == 400 * (q - 1) + 399;
    } else {
      assert y - 1 == 400 * q + (r - 1);
    }
  }

  lemma {:induction false} YearsGrow(y: int, z: int)
    requires y < z
    ensures DaysBeforeYear(y) + DaysInYear(y) <= DaysBeforeYear(z)
    decreases z - y
  {
    NextYear(y);
    if y + 1 < z {
      YearsGrow(y + 1, z);
    }
  }

  /** Every date of year `y` has a day number in `[DaysBeforeYear(y), DaysBeforeYear(y + 1))`. */
  lemma WithinYear(d: Date)
    requires ValidDate(d)
    ensures DaysBeforeYear(d.year) <= DayNumber(d) < DaysBeforeYear(d.year) + DaysInYear(d.year)
  {
    DaysBeforeMonthGrows(d.year, 1, d.month);
    DaysBeforeMonthGrows(d.year, d.month, 13);
    WholeYear(d.year);
  }

  /** Calendar order: by year, then month, then day. */
  predicate Before(a: Date, b: Date) {
    a.year < b.year || (a.year == b.year && (a.month < b.month || (a.month == b.month && a.day < b.day)))
  }

  /** Day numbers follow calendar order, both ways; so a valid date is determined by its day number. */
  lemma DayNumberOrder(a: Date, b: Date)
    requires ValidDate(a) && ValidDate(b)
    ensures DayNumber(a) < DayNumber(b) <==> Before(a, b)
    ensures DayNumber(a) == DayNumber(b) <==> a == b
  {
    if Before(a, b) {
      BeforeSmaller(a, b);
    } else if Before(b, a) {
      BeforeSmaller(b, a);
    }
  }

  lemma BeforeSmaller(a: Date, b: Date)
    requires ValidDate(a) && ValidDate(b) && Before(a, b)
    ensures DayNumber(a) < DayNumber(b)
  {
    if a.year < b.year {
      WithinYear(a);
      WithinYear(b);
      YearsGrow(a.year, b.year);
    } else if a.month < b.month {
      DaysBeforeMonthGrows(a.year, a.month, b.month);
    }
  }

  /** The day after `d`: next day of the month, or the first of the next month or year. */
  function NextDay(d: Date): (r: Date)
    requires ValidDate(d)
    ensures ValidDate(r) && DayNumber(r) == DayNumber(d) + 1
  {
    if d.day < DaysInMonth(d.year, d.month) then Date(d.year, d.month, d.day + 1)
    else if d.month < 12 then Date(d.year, d.month + 1, 1)
    else
      WholeYear(d.year);
      NextYear(d.year);
      Date(d.year + 1, 1, 1)
  }

  /** The day before `d`. */
  function PrevDay(d: Date): (r: Date)
    requires ValidDate(d)
    ensures ValidDate(r) && DayNumber(r) == DayNumber(d) - 1
  {
    if d.day > 1 then Date(d.year, d.month, d.day - 1)
    else if d.month > 1 then Date(d.year, d.month - 1, DaysInMonth(d.year, d.month - 1))
    else
      WholeYear(d.year - 1);
      NextYear(d.year - 1);
      Date(d.year - 1, 12, 31)
  }

  /** `addDays(date, n)`: the date `n` days later (earlier for negative `n`). */
  function AddDays(d: Date, n: int): (r: Date)
    requires ValidDate(d)
    ensures ValidDate(r) && DayNumber(r) == DayNumber(d) + n
    decreases if n >= 0 then n else -n
  {
    if n == 0 then d
    else if n > 0 then AddDays(NextDay(d), n - 1)
    else AddDays(PrevDay(d), n + 1)
  }

  /** Adding `m` days and then `n` days is adding `m + n` days. */
  lemma AddDaysAdd(d: Date, m: int, n: int)
    requires ValidDate(d)
    ensures AddDays(AddDays(d, m), n) == AddDays(d, m + n)
  {
    DayNumberOrder(AddDays(AddDays(d, m), n), AddDays(d, m + n));
  }

  /** `startOfWeekISO` on dates: the Sunday on or before `d`. */
  function StartOfWeek(d: Date): (r: Date)
    requires ValidDate(d)
    ensures ValidDate(r) && Weekday(r) == 0
    ensures 0 <= DayNumber(d) - DayNumber(r) <= 6
  {
    var n := DayNumber(d) + 1;
    assert n == 7 * (n / 7) + Weekday(d);
    SevenfoldMod(n / 7, 0);
    AddDays(d, -Weekday(d))
  }

  /** The week start is a Sunday at most six days before `d`, and taking it again changes nothing. */
  lemma StartOfWeekIsSunday(d: Date)
    requires ValidDate(d)
    ensures ValidDate(StartOfWeek(d)) && Weekday(StartOfWeek(d)) == 0
    ensures 0 <= DayNumber(d) - DayNumber(StartOfWeek(d)) <= 6
    ensures StartOfWeek(StartOfWeek(d)) == StartOfWeek(d)
  {
    var s := StartOfWeek(d);
    assert AddDays(s, 0) == s;
  }

  /** Adding whole weeks keeps the residue modulo 7. */
  lemma SevenfoldMod(q: int, r: int)
    requires 0 <= r < 7
    ensures (7 * q + r) % 7 == r
  {
  }

  /** Every date of a week has the same week start. */
  lemma StartOfWeekOfDay(s: Date, i: int)
    requires ValidDate(s) && Weekday(s) == 0 && 0 <= i < 7
    ensures Weekday(AddDays(s, i)) == i
    ensures StartOfWeek(AddDays(s, i)) == s
  {
    var d := AddDays(s, i);
    ResidueShift(DayNumber(s) + 1, i);
    assert Weekday(d) == i;
    DayNumberOrder(StartOfWeek(d), s);
  }

  lemma ResidueShift(k: int, i: int)
    requires k % 7 == 0 && 0 <= i < 7
    ensures (k + i) % 7 == i
  {
    assert k == 7 * (k / 7);
    SevenfoldMod(k / 7, i);
  }

  /** Day offsets `diffFromToday(iso)`: positive in the future. */
  function DaysFromToday(due: Date, today: Date): (r: int)
    requires ValidDate(due) && ValidDate(today)
    ensures r == 0 <==> due == today
    ensures r == 1 <==> due == NextDay(today)
    ensures r < 0 <==> Before(due, today)
  {
    DayNumberOrder(due, today);
    DayNumberOrder(due, NextDay(today));
    DayNumber(due) - DayNumber(today)
  }

  /** `formatISODate`: the year as `String` gives it, month and day zero-padded to two digits; for
      a four-digit year that is three fixed-width digit fields. */
  function FormatKey(d: Date): (r: string)
    ensures ValidDate(d) && FourDigitYear(d) ==>
              r == Digits(d.year, 4) + ("-" + (Digits(d.month, 2) + ("-" + Digits(d.day, 2))))
  {
    PaddedFields(d);
    IntToString(d.year) + "-" + PadStart(IntToString(d.month), 2, '0')
      + "-" + PadStart(IntToString(d.day), 2, '0')
  }

  predicate FourDigitYear(d: Date) {
    1000 <= d.year <= 9999
  }

  lemma PaddedFields(d: Date)
    ensures ValidDate(d) && FourDigitYear(d) ==>
              IntToString(d.year) + "-" + PadStart(IntToString(d.month), 2, '0')
                + "-" + PadStart(IntToString(d.day), 2, '0')
              == Digits(d.year, 4) + ("-" + (Digits(d.month, 2) + ("-" + Digits(d.day, 2))))
  {
    if ValidDate(d) && FourDigitYear(d) {
      assert Pow10(3) == 1000 && Pow10(4) == 10000;
      NatToStringWidth(d.year, 4);
      PadTwo(d.month);
      PadTwo(d.day);
    }
  }

  /** For four-digit years, comparing keys as strings (the `<` of app.js) is comparing day numbers,
      and keys are equal exactly when the dates are. */
  lemma KeyOrder(a: Date, b: Date)
    requires ValidDate(a) && FourDigitYear(a) && ValidDate(b) && FourDigitYear(b)
    ensures StrLess(FormatKey(a), FormatKey(b)) <==> DayNumber(a) < DayNumber(b)
    ensures FormatKey(a) == FormatKey(b) <==> a == b
  {
    KeyLess(a, b);
    ParseFormatKey(a);
    ParseFormatKey(b);
  }

  lemma KeyLess(a: Date, b: Date)
    requires ValidDate(a) && FourDigitYear(a) && ValidDate(b) && FourDigitYear(b)
    ensures StrLess(FormatKey(a), FormatKey(b)) <==> DayNumber(a) < DayNumber(b)
  {
    assert Pow10(2) == 100 && Pow10(4) == 10000;
    DigitsOrder(a.year, b.year, 4);
    DigitsOrder(a.month, b.month, 2);
    DigitsOrder(a.day, b.day, 2);
    var ma, mb := Digits(a.month, 2), Digits(b.month, 2);
    var da, db := Digits(a.day, 2), Digits(b.day, 2);
    DashLess(Digits(a.year, 4), ma + ("-" + da), Digits(b.year, 4), mb + ("-" + db));
    DashLess(ma, da, mb, db);
    DayNumberOrder(a, b);
  }

  /** Dash-joined fields of equal widths compare field by field. */
  lemma DashLess(p: string, x: string, q: string, y: string)
    requires |p| == |q|
    ensures StrLess(p + ("-" + x), q + ("-" + y)) <==> StrLess(p, q) || (p == q && StrLess(x, y))
  {
    StrLessConcat(p, "-" + x, q, "-" + y);
    StrLessConcat("-", x, "-", y);
    StrLessIrreflexive("-");
  }



  predicate AllDigits(s: string) {
    forall i :: 0 <= i < |s| ==> IsDigit(s[i])
  }

  /** Reads a canonical `YYYY-MM-DD` key, taking the four digits as the year; `None` for anything
      else or an impossible date. A key read back with a four-digit year formats to itself. */
  function ParseKey(s: string): (r: Option<Date>)
    ensures r.Some? ==> |s| == 10 && ValidDate(r.value) && 0 <= r.value.year < 10000
    ensures r.Some? && FourDigitYear(r.value) ==> FormatKey(r.value) == s
  {
    if |s| == 10 && s[4] == '-' && s[7] == '-' && AllDigits(s[..4]) && AllDigits(s[5..7]) && AllDigits(s[8..]) then
      var y, m, dd := s[..4], s[5..7], s[8..];
      var d := Date(ParseNat(y), ParseNat(m), ParseNat(dd));
      DigitsOfParse(y);
      DigitsOfParse(m);
      DigitsOfParse(dd);
      KeySplit(s);
      assert Pow10(4) == 10000;
      if ValidDate(d) then Some(d) else None
    else None
  }

  /** `new Date(y, m, d)` reads the years 0 to 99 as 1900 to 1999. */
  function JsYear(y: int): int {
    if 0 <= y <= 99 then 1900 + y else y
  }

  /** `parseISODate` on a canonical key: the key's fields given to `new Date`, so a year below 100
      lands in the 1900s; `None` where that is not a calendar date. */
  function ParseISODate(s: string): (r: Option<Date>)
    ensures r.Some? ==> ValidDate(r.value) && 100 <= r.value.year < 10000
    ensures r.Some? ==> ParseKey(s).Some? && r.value.month == ParseKey(s).value.month
                        && r.value.day == ParseKey(s).value.day
    ensures ParseKey(s).Some? && ParseKey(s).value.year >= 100 ==> r == ParseKey(s)
    ensures ParseKey(s).Some? && ParseKey(s).value.year < 100 && r.Some? ==>
              r.value.year == 1900 + ParseKey(s).value.year
  {
    match ParseKey(s)
    case None => None
    case Some(d) =>
      var e := d.(year := JsYear(d.year));
      if ValidDate(e) then Some(e) else None
  }

  /** A two-digit-year key names a day of the 1900s. */
  lemma ParseISODateCentury()
    ensures ParseISODate("0050-03-01") == Some(Date(1950, 3, 1))
    ensures ParseKey("0050-03-01") == Some(Date(50, 3, 1))
  {
    assert "0050-03-01" == "0050" + ("-" + ("03" + ("-" + "01")));
    FieldSlices("0050", "03", "01");
    assert ParseNat("0050") == 50 by {
      assert "0050"[..3] == "005" && "005"[..2] == "00" && "00"[..1] == "0";
    }
    assert ParseNat("03") == 3 by { assert "03"[..1] == "0"; }
    assert ParseNat("01") == 1 by { assert "01"[..1] == "0"; }
  }

  lemma {:induction false} DigitsOfParse(s: string)
    requires AllDigits(s)
    ensures ParseNat(s) < Pow10(|s|)
    ensures Digits(ParseNat(s), |s|) == s
  {
    if s != [] {
      var p := s[..|s| - 1];
      DigitsOfParse(p);
      var n := ParseNat(s);
      assert n / 10 == ParseNat(p) && n % 10 == DigitValue(s[|s| - 1]);
      assert s == p + [s[|s| - 1]];
    }
  }

  /** Parsing a key gives back the date. */
  lemma ParseFormatKey(d: Date)
    requires ValidDate(d) && FourDigitYear(d)
    ensures ParseKey(FormatKey(d)) == Some(d)
  {
    assert Pow10(2) == 100 && Pow10(4) == 10000;
    FieldSlices(Digits(d.year, 4), Digits(d.month, 2), Digits(d.day, 2));
    ParseDigits(d.year, 4);
    ParseDigits(d.month, 2);
    ParseDigits(d.day, 2);
  }

  /** The three fields of a key sit at positions 0..4, 5..7 and 8..10. */
  lemma FieldSlices(y: string, m: string, dd: string)
    requires |y| == 4 && |m| == 2 && |dd| == 2
    ensures var k := y + ("-" + (m + ("-" + dd)));
            |k| == 10 && k[4] == '-' && k[7] == '-' && k[..4] == y && k[5..7] == m && k[8..] == dd
  {
    var k := y + ("-" + (m + ("-" + dd)));
    assert k[..4] == y;
    assert k[5..7] == m;
    assert k[8..] == dd;
  }

  /** A ten-character string with dashes at 4 and 7 is its three fields joined by dashes. */
  lemma KeySplit(s: string)
    requires |s| == 10 && s[4] == '-' && s[7] == '-'
    ensures s == s[..4] + ("-" + (s[5..7] + ("-" + s[8..])))
  {
    assert s[7..] == "-" + s[8..];
    assert s[5..] == s[5..7] + s[7..];
    assert s[4..] == "-" + s[5..];
    assert s == s[..4] + s[4..];
  }

  /** The due label of a task card, by day offset from today (its locale text is not modelled). */
  datatype DueLabel = NoLabel | DueToday | DueTomorrow | OverdueOn(date: Date) | DueOn(date: Date) | Unreadable

  /** `formatDueLabel(iso)`: nothing for no date; today, tomorrow, overdue, or a later date. */
  function DueLabelFor(iso: string, today: Date): (r: DueLabel)
    requires ValidDate(today)
    ensures r == NoLabel <==> iso == ""
    ensures r == Unreadable <==> iso != "" && ParseISODate(iso).None?
    ensures r == DueToday <==> iso != "" && ParseISODate(iso) == Some(today)
    ensures r == DueTomorrow <==> iso != "" && ParseISODate(iso) == Some(NextDay(today))
    ensures r.OverdueOn? <==> iso != "" && ParseISODate(iso).Some? && Before(ParseISODate(iso).value, today)
    ensures r.OverdueOn? || r.DueOn? ==>
              ParseISODate(iso) == Some(r.date) && (r.OverdueOn? <==> DayNumber(r.date) < DayNumber(today))
    ensures r.DueOn? ==> DayNumber(r.date) > DayNumber(today) + 1
  {
    if iso == "" then NoLabel
    else match ParseISODate(iso)
      case None => Unreadable
      case Some(due) =>
        var diff := DaysFromToday(due, today);
        if diff == 0 then DueToday
        else if diff == 1 then DueTomorrow
        else if diff < 0 then OverdueOn(due)
        else DueOn(due)
  }

  /** The label cases split the day line: the due date is today, tomorrow, in the past or later, and
      for four-digit keys "overdue" is exactly "key sorts before today's key". */
  lemma DueLabelCases(d: Date, today: Date)
    requires ValidDate(d) && FourDigitYear(d) && ValidDate(today) && FourDigitYear(today)
    ensures DueLabelFor(FormatKey(d), today) == DueToday <==> d == today
    ensures DueLabelFor(FormatKey(d), today) == DueTomorrow <==> d == NextDay(today)
    ensures DueLabelFor(FormatKey(d), today).OverdueOn? <==> StrLess(FormatKey(d), FormatKey(today))
    ensures DueLabelFor(FormatKey(d), today).DueOn? <==> DayNumber(d) > DayNumber(today) + 1
  {
    ParseFormatKey(d);
    KeyOrder(d, today);
    DayNumberOrder(d, today);
    DayNumberOrder(d, NextDay(today));
  }
}
