/// Indian fiscal years (April to March) over UTC instants. The calendar is that of section 21.4.1
/// of ECMA-262: an instant is a number of milliseconds from the start of 1970.
module FiscalCalendar {
  import opened Common
  import opened Decimal

  const MS_PER_DAY := 86_400_000

  // ----- Days, years and months --------------------------------------------------------------

  function Day(t: int): int {
    t / MS_PER_DAY
  }

  /// The number of the first day of year `y`.
  function DayFromYear(y: int): int {
    365 * (y - 1970) + (y - 1969) / 4 - (y - 1901) / 100 + (y - 1601) / 400
  }

  predicate Leap(y: int) {
    (y % 4 == 0 && y % 100 != 0) || y % 400 == 0
  }

  lemma YearLength(y: int)
    ensures DayFromYear(y + 1) - DayFromYear(y) == if Leap(y) then 366 else 365
  {
    FloorSteps(y);
    LeapCenturies(y);
  }

  lemma LeapCenturies(y: int)
    ensures y % 400 == 0 ==> y % 100 == 0
    ensures y % 100 == 0 ==> y % 4 == 0
  {
    if y % 100 == 0 {
      Quotient4(y, 25 * (y / 100));
    }
    if y % 400 == 0 {
      Quotient100(y, 4 * (y / 400));
    }
  }

  lemma FloorSteps(y: int)
    ensures (y - 1968) / 4 - (y - 1969) / 4 == if y % 4 == 0 then 1 else 0
    ensures (y - 1900) / 100 - (y - 1901) / 100 == if y % 100 == 0 then 1 else 0
    ensures (y - 1600) / 400 - (y - 1601) / 400 == if y % 400 == 0 then 1 else 0
  {
    FloorStep4(y);
    FloorStep100(y);
    FloorStep400(y);
  }

  lemma FloorStep4(y: int)
    ensures (y - 1968) / 4 - (y - 1969) / 4 == if y % 4 == 0 then 1 else 0
  {
    var q := y / 4;
    Quotient4(y - 1968, q - 492);
    Quotient4(y - 1969, if y % 4 == 0 then q - 493 else q - 492);
  }

  lemma Quotient4(x: int, q: int)
    requires 4 * q <= x < 4 * q + 4
    ensures x / 4 == q
  {
  }

  lemma FloorStep100(y: int)
    ensures (y - 1900) / 100 - (y - 1901) / 100 == if y % 100 == 0 then 1 else 0
  {
    var q := y / 100;
    Quotient100(y - 1900, q - 19);
    Quotient100(y - 1901, if y % 100 == 0 then q - 20 else q - 19);
  }

  lemma Quotient100(x: int, q: int)
    requires 100 * q <= x < 100 * q + 100
    ensures x / 100 == q
  {
  }

  lemma FloorStep400(y: int)
    ensures (y - 1600) / 400 - (y - 1601) / 400 == if y % 400 == 0 then 1 else 0
  {
    var q := y / 400;
    Quotient400(y - 1600, q - 4);
    Quotient400(y - 1601, if y % 400 == 0 then q - 5 else q - 4);
  }

  lemma Quotient400(x: int, q: int)
    requires 400 * q <= x < 400 * q + 400
    ensures x / 400 == q
  {
  }

  lemma YearsAdvance(y: int)
    ensures DayFromYear(y) < DayFromYear(y + 1)
  {
    hide *;
    YearLength(y);
  }

  function YearFromDay(d: int): (y: int)
    ensures DayFromYear(y) <= d < DayFromYear(y + 1)
  {
    SearchYear(d, 1970 + d / 366)
  }

  function SearchYear(d: int, guess: int): (y: int)
    ensures DayFromYear(y) <= d < DayFromYear(y + 1)
    decreases if d < DayFromYear(guess) then DayFromYear(guess) - d
              else if d >= DayFromYear(guess + 1) then d - DayFromYear(guess + 1) + 1 else 0
  {
    hide DayFromYear;
    YearsAdvance(guess - 1); YearsAdvance(guess + 1);
    if d < DayFromYear(guess) then SearchYear(d, guess - 1)
    else if d >= DayFromYear(guess + 1) then SearchYear(d, guess + 1)
    else guess
  }

  lemma {:induction false} YearsIncrease(a: int, b: int)
    requires a <= b
    ensures DayFromYear(a) <= DayFromYear(b)
    decreases b - a
  {
    if a < b {
      YearLength(a);
      YearsIncrease(a + 1, b);
    }
  }

  lemma YearIsUnique(d: int, y: int)
    requires DayFromYear(y) <= d < DayFromYear(y + 1)
    ensures YearFromDay(d) == y
  {
    hide DayFromYear;
    var x := YearFromDay(d);
    if x < y {
      YearsIncrease(x + 1, y);
    } else if y < x {
      YearsIncrease(y + 1, x);
    }
  }

  /// Days of the year before month `m`, months being counted from 0.
  function DaysBefore(m: nat, leap: bool): (days: nat)
    requires m <= 12
    ensures m == 12 ==> days == if leap then 366 else 365
  {
    var leapDay := if leap then 1 else 0;
    match m
    case 0 => 0
    case 1 => 31
    case 2 => 59 + leapDay
    case 3 => 90 + leapDay
    case 4 => 120 + leapDay
    case 5 => 151 + leapDay
    case 6 => 181 + leapDay
    case 7 => 212 + leapDay
    case 8 => 243 + leapDay
    case 9 => 273 + leapDay
    case 10 => 304 + leapDay
    case 11 => 334 + leapDay
    case 12 => 365 + leapDay
  }

  /// The number of the first day of month `m`; month 12 is January of the next year.
  function MonthStart(y: int, m: nat): int
    requires m <= 12
  {
    DayFromYear(y) + DaysBefore(m, Leap(y))
  }

  function MonthOfYearDay(day: nat, leap: bool): (m: nat)
    requires day < if leap then 366 else 365
    ensures m < 12 && DaysBefore(m, leap) <= day < DaysBefore(m + 1, leap)
  {
    if day < 31 then 0
    else if day < DaysBefore(2, leap) then 1
    else if day < DaysBefore(3, leap) then 2
    else if day < DaysBefore(4, leap) then 3
    else if day < DaysBefore(5, leap) then 4
    else if day < DaysBefore(6, leap) then 5
    else if day < DaysBefore(7, leap) then 6
    else if day < DaysBefore(8, leap) then 7
    else if day < DaysBefore(9, leap) then 8
    else if day < DaysBefore(10, leap) then 9
    else if day < DaysBefore(11, leap) then 10
    else 11
  }

  function MonthFromDay(d: int): (m: nat)
    ensures m < 12
  {
    var y := YearFromDay(d);
    YearLength(y);
    MonthOfYearDay(d - DayFromYear(y), Leap(y))
  }

  /// The day of the month, from 1.
  function DateFromDay(d: int): (date: nat)
  {
    var y := YearFromDay(d);
    YearLength(y);
    d - DayFromYear(y) - DaysBefore(MonthFromDay(d), Leap(y)) + 1
  }

  function MakeDay(year: int, month: int, date: int): int {
    DayFromYear(year + month / 12) + DaysBefore(month % 12, Leap(year + month / 12)) + date - 1
  }

  /// `Date.UTC`, which reads the years 0 to 99 as 1900 to 1999.
  function UTC(year: int, month: int, date: int, msOfDay: int): int {
    MakeDay(if 0 <= year <= 99 then 1900 + year else year, month, date) * MS_PER_DAY + msOfDay
  }

  lemma DaysBeforeIncreases(a: nat, b: nat, leap: bool)
    requires a <= b <= 12
    ensures DaysBefore(a, leap) <= DaysBefore(b, leap)
  {
  }

  /// Months of a year's days, against the days before them.
  lemma MonthBounds(day: nat, leap: bool, a: nat)
    requires day < (if leap then 366 else 365) && a <= 12
    ensures a <= MonthOfYearDay(day, leap) <==> DaysBefore(a, leap) <= day
  {
    var m := MonthOfYearDay(day, leap);
    if a <= m {
      DaysBeforeIncreases(a, m, leap);
    } else {
      DaysBeforeIncreases(m + 1, a, leap);
    }
  }

  lemma MonthRun(day: nat, leap: bool, a: nat, b: nat)
    requires day < (if leap then 366 else 365) && a < b <= 12
    ensures DaysBefore(a, leap) <= day < DaysBefore(b, leap) <==> a <= MonthOfYearDay(day, leap) < b
  {
    MonthBounds(day, leap, a);
    MonthBounds(day, leap, b);
  }

  lemma YearSpan(d: int, y: int)
    ensures 0 <= d - DayFromYear(y) < (if Leap(y) then 366 else 365) <==> YearFromDay(d) == y
    ensures YearFromDay(d) == y ==> MonthFromDay(d) == MonthOfYearDay(d - DayFromYear(y), Leap(y))
  {
    hide DayFromYear, YearFromDay, MonthOfYearDay, Leap;
    YearLength(y);
    if DayFromYear(y) <= d < DayFromYear(y + 1) {
      YearIsUnique(d, y);
    }
  }

  /// A run of whole months of one year is an interval of days.
  lemma MonthSpan(d: int, y: int, a: nat, b: nat)
    requires a < b <= 12
    ensures MonthStart(y, a) <= d < MonthStart(y, b) <==> YearFromDay(d) == y && a <= MonthFromDay(d) < b
  {
    YearSpan(d, y);
    DaysBeforeIncreases(b, 12, Leap(y));
    if YearFromDay(d) == y {
      MonthRun(d - DayFromYear(y), Leap(y), a, b);
    }
  }

  /// Dates count from the first day of their month; month 12 runs on into the next year.
  lemma MakeDayInYear(y: int, m: nat, date: int)
    requires m <= 12
    ensures MakeDay(y, m, date) == MonthStart(y, m) + date - 1
  {
    hide DayFromYear, Leap;
    if m == 12 {
      YearLength(y);
    }
  }

  lemma DateInMonth(d: int, y: int, m: nat)
    requires m < 12 && MonthStart(y, m) <= d < MonthStart(y, m + 1)
    ensures DateFromDay(d) == d - MonthStart(y, m) + 1
  {
    hide DayFromYear, Leap, DaysBefore;
    MonthSpan(d, y, m, m + 1);
  }

  /// Day 0 of a month is the last day of the month before.
  lemma LastDayOfMonth(y: int, m: nat)
    requires m < 12
    ensures DateFromDay(MakeDay(y, m + 1, 0)) == MonthStart(y, m + 1) - MonthStart(y, m)
  {
    MakeDayInYear(y, m + 1, 0);
    MonthGrows(m, Leap(y));
    DateInMonth(MakeDay(y, m + 1, 0), y, m);
  }

  lemma MonthGrows(m: nat, leap: bool)
    requires m < 12
    ensures DaysBefore(m, leap) < DaysBefore(m + 1, leap)
  {
  }

  // ----- Fiscal labels ---------------------------------------------------------------------------

  function ShowInt(n: int): (s: string)
    ensures |s| >= 1
  {
    if n < 0 then "-" + Show(-n) else Show(n)
  }

  function LastTwo(s: string): string {
    if |s| <= 2 then s else s[|s| - 2..]
  }

  function Label(startYear: int): string {
    ShowInt(startYear) + "-" + LastTwo(ShowInt(startYear + 1))
  }

  function FiscalStart(t: int): int {
    if MonthFromDay(Day(t)) >= 3 then YearFromDay(Day(t)) else YearFromDay(Day(t)) - 1
  }

  function IndianFiscalYear(t: int): string {
    var y, m := YearFromDay(Day(t)), MonthFromDay(Day(t));
    if m >= 3 then ShowInt(y) + "-" + LastTwo(ShowInt(y + 1))
    else ShowInt(y - 1) + "-" + LastTwo(ShowInt(y))
  }

  function IndianFiscalQuarter(t: int): string {
    var m := MonthFromDay(Day(t));
    if 3 <= m <= 5 then "Q1"
    else if 6 <= m <= 8 then "Q2"
    else if 9 <= m <= 11 then "Q3"
    else "Q4"
  }

  lemma LabelInjective(x: int, y: int)
    requires y >= 0
    ensures Label(x) == Label(y) ==> x == y
  {
    if Label(x) == Label(y) {
      assert Label(x)[0] == ShowInt(x)[0] && Label(y)[0] == ShowInt(y)[0];
      CutUnique(ShowInt(x), LastTwo(ShowInt(x + 1)), ShowInt(y), LastTwo(ShowInt(y + 1)), '-');
      ShowInjective(x, y);
    }
  }

  lemma LabelOfInstant(t: int, y: int)
    requires y >= 0
    ensures IndianFiscalYear(t) == Label(y) <==> FiscalStart(t) == y
  {
    assert IndianFiscalYear(t) == Label(FiscalStart(t));
    LabelInjective(FiscalStart(t), y);
  }

  // ----- The range of a quarter --------------------------------------------------------------------

  datatype Range = Range(from: int, to: int) {
    predicate Contains(t: int) {
      from <= t <= to
    }
  }

  /// The part of `s` before its first hyphen.
  function BeforeHyphen(s: string): string {
    if s == "" || s[0] == '-' then "" else [s[0]] + BeforeHyphen(s[1..])
  }

  /// `Number(s)` for numerals made of digits; 0 stands for every other string, which is refused alike.
  function YearNumber(s: string): nat {
    if AllDigits(s) then Read(s) else 0
  }

  function QuarterName(q: nat): string
    requires 1 <= q <= 4
  {
    if q == 1 then "Q1" else if q == 2 then "Q2" else if q == 3 then "Q3" else "Q4"
  }

  /// The quarters that match Q1, Q2, Q3 or Q4; 0 for every other string.
  function QuarterNumber(quarter: string): (q: nat)
    ensures q <= 4
  {
    if |quarter| == 2 && quarter[0] == 'Q' && '1' <= quarter[1] <= '4' then DigitValue(quarter[1]) else 0
  }

  function QuarterRange(startY: nat, q: nat): Range
    requires 1 <= q <= 4
  {
    var startMonth := 3 + (q - 1) * 3;
    if q == 4 then
      Range(UTC(startY + 1, 0, 1, 0), UTC(startY + 1, 2, 31, MS_PER_DAY - 1))
    else
      var toMonth := startMonth + 2;
      var lastDay := DateFromDay(Day(UTC(startY, toMonth + 1, 0, 0)));
      Range(UTC(startY, startMonth, 1, 0), UTC(startY, toMonth, lastDay, MS_PER_DAY - 1))
  }

  function QuarterDateRange(fiscalYear: string, quarter: string): Option<Range> {
    var startY, q := YearNumber(BeforeHyphen(fiscalYear)), QuarterNumber(quarter);
    if startY == 0 || q == 0 then None else Some(QuarterRange(startY, q))
  }

  lemma {:induction false} BeforeHyphenOf(a: string, b: string)
    requires '-' !in a
    ensures BeforeHyphen(a + "-" + b) == a
  {
    if a == "" {
      assert a + "-" + b == "-" + b;
    } else {
      BeforeHyphenOf(a[1..], b);
      assert (a + "-" + b)[1..] == a[1..] + "-" + b;
    }
  }

  lemma StartYearOfLabel(y: nat)
    ensures YearNumber(BeforeHyphen(Label(y))) == y
  {
    BeforeHyphenOf(Show(y), LastTwo(ShowInt(y + 1)));
    ReadShow(y);
  }

  /// The year in which `Date.UTC` places quarter `q` of the fiscal year that starts in `startYear`.
  function CalendarYear(startYear: int, q: nat): int {
    var y := if q == 4 then startYear + 1 else startYear;
    if 0 <= y <= 99 then 1900 + y else y
  }

  function FirstMonth(q: nat): (m: nat)
    requires 1 <= q <= 4
    ensures m <= 9
  {
    if q == 4 then 0 else 3 * q
  }

  lemma UtcInYear(y: nat, q: nat, m: nat, date: int, ms: int)
    requires 1 <= q <= 4 && m <= 12
    ensures UTC(if q == 4 then y + 1 else y, m, date, ms)
            == (MonthStart(CalendarYear(y, q), m) + date - 1) * MS_PER_DAY + ms
  {
    MakeDayInYear(CalendarYear(y, q), m, date);
  }

  lemma MarchHas31Days(y: int)
    ensures MonthStart(y, 3) == MonthStart(y, 2) + 31
  {
  }

  /// The range is three whole months.
  lemma RangeIsThreeMonths(y: nat, q: nat)
    requires 1 <= q <= 4
    ensures QuarterRange(y, q) == Range(MonthStart(CalendarYear(y, q), FirstMonth(q)) * MS_PER_DAY,
                                        MonthStart(CalendarYear(y, q), FirstMonth(q) + 3) * MS_PER_DAY - 1)
  {
    hide UTC, MakeDay, MonthStart, DateFromDay;
    var (c, m) := (CalendarYear(y, q), FirstMonth(q));
    UtcInYear(y, q, m, 1, 0);
    if q == 4 {
      UtcInYear(y, q, 2, 31, MS_PER_DAY - 1);
      assert MonthStart(c, 3) == MonthStart(c, 2) + 31 by { MarchHas31Days(c); }
    } else {
      UtcInYear(y, q, m + 3, 0, 0);
      MakeDayInYear(c, m + 3, 0);
      LastDayOfMonth(c, m + 2);
      UtcInYear(y, q, m + 2, DateFromDay(MakeDay(c, m + 3, 0)), MS_PER_DAY - 1);
    }
  }

  lemma RangeOfLabel(y: nat, q: nat)
    requires y >= 1 && 1 <= q <= 4
    ensures QuarterDateRange(Label(y), QuarterName(q)) == Some(QuarterRange(y, q))
  {
    StartYearOfLabel(y);
    assert QuarterNumber(QuarterName(q)) == q;
  }

  lemma DaysAndInstants(t: int, from: int, to: int)
    ensures from * MS_PER_DAY <= t <= to * MS_PER_DAY - 1 <==> from <= Day(t) < to
  {
  }

  lemma InRangeIff(t: int, y: nat, q: nat)
    requires 1 <= q <= 4
    ensures QuarterRange(y, q).Contains(t)
            <==> YearFromDay(Day(t)) == CalendarYear(y, q) && IndianFiscalQuarter(t) == QuarterName(q)
  {
    hide QuarterRange, DayFromYear, Leap;
    var (c, m) := (CalendarYear(y, q), FirstMonth(q));
    RangeIsThreeMonths(y, q);
    DaysAndInstants(t, MonthStart(c, m), MonthStart(c, m + 3));
    MonthSpan(Day(t), c, m, m + 3);
  }

  /// The range of a quarter holds exactly the instants whose own labels name it, to the millisecond
  /// and in leap years too. (For years before 100 see `RangesAgreeFrom99`.)
  lemma RangeHoldsItsQuarter(t: int, y: nat, q: nat)
    requires y >= 100 && 1 <= q <= 4
    ensures
      var range := QuarterDateRange(Label(y), QuarterName(q));
      && range.Some?
      && (range.value.Contains(t) <==> IndianFiscalYear(t) == Label(y) && IndianFiscalQuarter(t) == QuarterName(q))
  {
    hide QuarterDateRange, QuarterRange, DayFromYear;
    RangeOfLabel(y, q);
    InRangeIff(t, y, q);
    LabelOfInstant(t, y);
  }

  ghost predicate Agrees(y: nat, q: nat)
    requires 1 <= q <= 4
  {
    forall t: int :: QuarterRange(y, q).Contains(t)
      <==> IndianFiscalYear(t) == Label(y) && IndianFiscalQuarter(t) == QuarterName(q)
  }

  lemma FirstInstantIsInRange(y: nat, q: nat)
    requires 1 <= q <= 4
    ensures QuarterRange(y, q).Contains(QuarterRange(y, q).from)
  {
    RangeIsThreeMonths(y, q);
    MonthGrows(FirstMonth(q), Leap(CalendarYear(y, q)));
    MonthGrows(FirstMonth(q) + 1, Leap(CalendarYear(y, q)));
    MonthGrows(FirstMonth(q) + 2, Leap(CalendarYear(y, q)));
  }

  /// `Date.UTC` reads the years 0 to 99 as 1900 to 1999: exactly which labels have a range that
  /// agrees with them.
  lemma RangesAgreeFrom99(y: nat, q: nat)
    requires y >= 1 && 1 <= q <= 4
    ensures QuarterDateRange(Label(y), QuarterName(q)) == Some(QuarterRange(y, q))
    ensures Agrees(y, q) <==> y >= 100 || (y == 99 && q == 4)
  {
    hide QuarterRange, DayFromYear, QuarterDateRange, Label, YearFromDay;
    RangeOfLabel(y, q);
    forall t: int
      ensures QuarterRange(y, q).Contains(t)
              <==> YearFromDay(Day(t)) == CalendarYear(y, q) && IndianFiscalQuarter(t) == QuarterName(q)
      ensures IndianFiscalYear(t) == Label(y) <==> FiscalStart(t) == y
    {
      InRangeIff(t, y, q);
      LabelOfInstant(t, y);
    }
    FirstInstantIsInRange(y, q);
  }

  /// The four ranges of a fiscal year follow each other without gap or overlap, and so do the years.
  lemma QuartersTile(y: nat, q: nat)
    requires y >= 100 && 1 <= q <= 4
    ensures
      var range := QuarterDateRange(Label(y), QuarterName(q));
      var next := if q < 4 then QuarterDateRange(Label(y), QuarterName(q + 1)) else QuarterDateRange(Label(y + 1), "Q1");
      range.Some? && next.Some? && next.value.from == range.value.to + 1
  {
    hide QuarterDateRange, QuarterRange, DayFromYear;
    var (z, r) := if q < 4 then (y, q + 1) else (y + 1, 1);
    RangeOfLabel(y, q);
    RangeOfLabel(z, r);
    RangeIsThreeMonths(y, q);
    RangeIsThreeMonths(z, r);
    YearLength(y);
  }

  lemma OwnLabels(t: int) returns (q: nat)
    ensures 1 <= q <= 4 && IndianFiscalYear(t) == Label(FiscalStart(t)) && IndianFiscalQuarter(t) == QuarterName(q)
  {
    var m := MonthFromDay(Day(t));
    q := if m < 3 then 4 else m / 3;
  }

  /// Every instant from April of year 100 on lies in the range of its own labels and in no other.
  lemma OneQuarterPerInstant(t: int, y: nat, q: nat)
    requires FiscalStart(t) >= 100 && y >= 100 && 1 <= q <= 4
    ensures
      var own := QuarterDateRange(IndianFiscalYear(t), IndianFiscalQuarter(t));
      own.Some? && own.value.Contains(t)
    ensures
      var range := QuarterDateRange(Label(y), QuarterName(q));
      range.Some? && (range.value.Contains(t) ==> Label(y) == IndianFiscalYear(t) && QuarterName(q) == IndianFiscalQuarter(t))
  {
    hide *;
    var own := OwnLabels(t);
    RangeHoldsItsQuarter(t, FiscalStart(t), own);
    RangeHoldsItsQuarter(t, y, q);
  }

  /// The first millisecond of April 2025 and the one before it, counted from 1970.
  lemma AprilOf2025()
    ensures IndianFiscalYear(1_743_465_600_000) == "2025-26" && IndianFiscalQuarter(1_743_465_600_000) == "Q1"
    ensures IndianFiscalYear(1_743_465_599_999) == "2024-25" && IndianFiscalQuarter(1_743_465_599_999) == "Q4"
  {
    assert Day(1_743_465_600_000) == 20179 && Day(1_743_465_599_999) == 20178;
    assert DayFromYear(2025) == 20089 && DayFromYear(2026) == 20454;
    YearIsUnique(20179, 2025);
    YearIsUnique(20178, 2025);
    assert MonthFromDay(20179) == 3 && MonthFromDay(20178) == 2;
    NumeralsOf2025();
    hide MonthFromDay, YearFromDay, ShowInt, LastTwo;
  }

  lemma NumeralsOf2025()
    ensures ShowInt(2024) == "2024" && ShowInt(2025) == "2025" && ShowInt(2026) == "2026"
    ensures LastTwo("2025") == "25" && LastTwo("2026") == "26"
  {
    assert Show(2) == "2" && Show(20) == "20" && Show(202) == "202";
    assert Show(2024) == Show(202) + ['4'] && Show(2025) == Show(202) + ['5'] && Show(2026) == Show(202) + ['6'];
  }
}
