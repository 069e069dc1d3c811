/**
  The calendar arithmetic behind dated log files: `day_number`
  (crates/agend-daemon/src/housekeeping.rs) and `civil_from_days` / `utc_date`
  (crates/agend-daemon/src/store/snapshot.rs), against the proleptic Gregorian calendar
  counted year by year and month by month.
*/
module Calendar {
  import opened Common

  datatype Date = Date(y: int, m: int, d: int)

  const DAY_MS: nat := 24 * 60 * 60 * 1000

  // ---- the calendar, counted ----------------------------------------------------

  predicate IsLeap(y: int) { y % 4 == 0 && (y % 100 != 0 || y % 400 == 0) }

  function DaysInYear(y: int): int { if IsLeap(y) then 366 else 365 }

  function DaysInMonth(y: int, m: int): int
  {
    if m == 2 then (if IsLeap(y) then 29 else 28)
    else if m == 4 || m == 6 || m == 9 || m == 11 then 30 else 31
  }

  predicate Valid(t: Date) { 1 <= t.m <= 12 && 1 <= t.d <= DaysInMonth(t.y, t.m) }

  /** Days from 1970-01-01 to the first day of year `y`, one year at a time. */
  function YearStart(y: int): int
    decreases if y < 1970 then 1970 - y else y - 1970
  {
    if y == 1970 then 0
    else if y > 1970 then YearStart(y - 1) + DaysInYear(y - 1)
    else YearStart(y + 1) - DaysInYear(y)
  }

  /** Days of year `y` before month `m`, one month at a time. */
  function MonthStart(y: int, m: int): int
    requires 1 <= m <= 13
    decreases m
  {
    if m == 1 then 0 else MonthStart(y, m - 1) + DaysInMonth(y, m - 1)
  }

  /** Days since 1970-01-01, counted. */
  function Count(t: Date): int
    requires 1 <= t.m <= 12
  {
    YearStart(t.y) + MonthStart(t.y, t.m) + t.d - 1
  }

  function NextDay(t: Date): Date
  {
    if t.d < DaysInMonth(t.y, t.m) then Date(t.y, t.m, t.d + 1)
    else if t.m < 12 then Date(t.y, t.m + 1, 1)
    else Date(t.y + 1, 1, 1)
  }

  // ---- the code -----------------------------------------------------------------

  /** `day_number` after parsing; `/` is Euclidean as `div_euclid` is. */
  function DayNumber(t: Date): int
  {
    var y := if t.m <= 2 then t.y - 1 else t.y;
    var era := y / 400;
    var yoe := y - era * 400;
    var mp := (t.m + 9) % 12;
    var doy := (153 * mp + 2) / 5 + t.d - 1;
    var doe := yoe * 365 + yoe / 4 - yoe / 100 + doy;
    era * 146097 + doe - 719468
  }

  /** `civil_from_days` */
  function CivilFromDays(days: int): Date
  {
    var z := days + 719468;
    var era := z / 146097;
    var doe := z % 146097;
    var yoe := (doe - doe / 1460 + doe / 36524 - doe / 146096) / 365;
    var doy := doe - (365 * yoe + yoe / 4 - yoe / 100);
    var mp := (5 * doy + 2) / 153;
    var d := doy - (153 * mp + 2) / 5 + 1;
    var m := if mp < 10 then mp + 3 else mp - 9;
    Date(yoe + era * 400 + (if m <= 2 then 1 else 0), m, d)
  }

  // ---- the formula is the count -------------------------------------------------

  /** Leap years in 1..n, extended below zero. */
  function Leaps(n: int): int { n / 4 - n / 100 + n / 400 }

  lemma QuotientSteps(y: int)
    ensures y / 4 - (y - 1) / 4 == if y % 4 == 0 then 1 else 0
    ensures y / 100 - (y - 1) / 100 == if y % 100 == 0 then 1 else 0
    ensures y / 400 - (y - 1) / 400 == if y % 400 == 0 then 1 else 0
  {
  }

  lemma RemainderBy4(k: int, r: int)
    requires 0 <= r < 4
    ensures (4 * k + r) % 4 == r
  {
  }

  lemma RemainderBy100(k: int, r: int)
    requires 0 <= r < 100
    ensures (100 * k + r) % 100 == r
  {
  }

  lemma RemainderBy400(k: int, r: int)
    requires 0 <= r < 400
    ensures (400 * k + r) % 400 == r
  {
  }

  lemma MultiplesNest(y: int)
    ensures y % 100 == 0 ==> y % 4 == 0
    ensures y % 400 == 0 ==> y % 100 == 0
  {
    var a, b := y / 100, y / 400;
    if y % 100 == 0 {
      assert y == 4 * (25 * a) + 0;
      RemainderBy4(25 * a, 0);
    }
    if y % 400 == 0 {
      assert y == 100 * (4 * b) + 0;
      RemainderBy100(4 * b, 0);
    }
  }

  lemma LeapsNext(y: int)
    ensures Leaps(y) == Leaps(y - 1) + (if IsLeap(y) then 1 else 0)
  {
    QuotientSteps(y);
    MultiplesNest(y);
  }

  lemma {:induction false} YearStartClosed(y: int)
    ensures YearStart(y) == 365 * (y - 1970) + Leaps(y - 1) - 477
    decreases if y < 1970 then 1970 - y else y - 1970
  {
    if y > 1970 {
      YearStartClosed(y - 1);
      LeapsNext(y - 1);
    } else if y < 1970 {
      YearStartClosed(y + 1);
      LeapsNext(y);
    }
  }

  lemma EraClosed(y: int)
    ensures var era := y / 400;
            var yoe := y - era * 400;
            0 <= yoe < 400 && era * 146097 + yoe * 365 + yoe / 4 - yoe / 100 == 365 * y + Leaps(y)
  {
    var era := y / 400;
    var yoe := y - era * 400;
    assert y / 4 == era * 100 + yoe / 4;
    assert y / 100 == era * 4 + yoe / 100;
  }

  /** Days of a March-based year before month `m`, against the months counted. */
  lemma MonthClosed(y: int, m: int)
    requires 1 <= m <= 12
    ensures (153 * ((m + 9) % 12) + 2) / 5
            == if m <= 2 then MonthStart(y, m) + 306 else MonthStart(y, m) - 59 - (if IsLeap(y) then 1 else 0)
  {
    assert MonthStart(y, 2) == 31;
    assert MonthStart(y, 3) == 59 + (if IsLeap(y) then 1 else 0);
    if m > 3 { assert MonthStart(y, 4) == MonthStart(y, 3) + 31; }
    if m > 4 { assert MonthStart(y, 5) == MonthStart(y, 3) + 61; }
    if m > 5 { assert MonthStart(y, 6) == MonthStart(y, 3) + 92; }
    if m > 6 { assert MonthStart(y, 7) == MonthStart(y, 3) + 122; }
    if m > 7 { assert MonthStart(y, 8) == MonthStart(y, 3) + 153; }
    if m > 8 { assert MonthStart(y, 9) == MonthStart(y, 3) + 184; }
    if m > 9 { assert MonthStart(y, 10) == MonthStart(y, 3) + 214; }
    if m > 10 { assert MonthStart(y, 11) == MonthStart(y, 3) + 245; }
    if m > 11 { assert MonthStart(y, 12) == MonthStart(y, 3) + 275; }
  }

  /** `day_number` counts the days from 1970-01-01, for every date of every year. */
  lemma DayNumberCounts(t: Date)
    requires 1 <= t.m <= 12
    ensures DayNumber(t) == Count(t)
  {
    var y := if t.m <= 2 then t.y - 1 else t.y;
    EraClosed(y);
    YearStartClosed(t.y);
    MonthClosed(t.y, t.m);
    LeapsNext(t.y);
  }

  lemma MonthStartEnds(y: int)
    ensures MonthStart(y, 13) == DaysInYear(y)
  {
    MonthClosed(y, 12);
  }

  lemma YearStep(y: int)
    ensures YearStart(y + 1) == YearStart(y) + DaysInYear(y)
  {
    YearStartClosed(y);
    YearStartClosed(y + 1);
    LeapsNext(y);
  }

  lemma NextDayCounts(t: Date)
    requires Valid(t)
    ensures Valid(NextDay(t)) && Count(NextDay(t)) == Count(t) + 1
  {
    if t.d == DaysInMonth(t.y, t.m) {
      if t.m < 12 {
        assert MonthStart(t.y, t.m + 1) == MonthStart(t.y, t.m) + DaysInMonth(t.y, t.m);
      } else {
        YearStep(t.y);
        MonthStartEnds(t.y);
        assert MonthStart(t.y, 13) == MonthStart(t.y, 12) + DaysInMonth(t.y, 12);
        assert MonthStart(t.y + 1, 1) == 0;
      }
    }
  }

  /** The next calendar day is the next number. */
  lemma NextDayIsNextNumber(t: Date)
    requires Valid(t)
    ensures Valid(NextDay(t)) && DayNumber(NextDay(t)) == DayNumber(t) + 1
  {
    NextDayCounts(t);
    DayNumberCounts(t);
    DayNumberCounts(NextDay(t));
  }

  predicate Before(a: Date, b: Date)
  {
    a.y < b.y || (a.y == b.y && (a.m < b.m || (a.m == b.m && a.d < b.d)))
  }

  lemma {:induction false} MonthsAreOrdered(y: int, m: int, n: int)
    requires 1 <= m < n <= 13
    ensures MonthStart(y, m) + DaysInMonth(y, m) <= MonthStart(y, n)
    decreases n
  {
    if m < n - 1 {
      MonthsAreOrdered(y, m, n - 1);
    }
  }

  lemma {:induction false} YearsAreOrdered(x: int, y: int)
    requires x < y
    ensures YearStart(x) + DaysInYear(x) <= YearStart(y)
    decreases y - x
  {
    YearStartClosed(x);
    YearStartClosed(y);
    LeapsNext(x);
    if x < y - 1 {
      YearsAreOrdered(x + 1, y);
      YearStartClosed(x + 1);
    }
  }

  /** Earlier dates have smaller numbers, so the numbers are injective. */
  lemma DayNumberIsStrictlyIncreasing(a: Date, b: Date)
    requires Valid(a) && Valid(b)
    ensures Before(a, b) <==> DayNumber(a) < DayNumber(b)
    ensures a == b <==> DayNumber(a) == DayNumber(b)
  {
    BeforeIsSmaller(a, b);
    BeforeIsSmaller(b, a);
  }

  lemma BeforeIsSmaller(a: Date, b: Date)
    requires Valid(a) && Valid(b)
    ensures Before(a, b) ==> DayNumber(a) < DayNumber(b)
  {
    DayNumberCounts(a);
    DayNumberCounts(b);
    if a.y < b.y {
      YearsAreOrdered(a.y, b.y);
      MonthStartEnds(a.y);
      MonthsAreOrdered(a.y, a.m, 13);
      if b.m > 1 { MonthsAreOrdered(b.y, 1, b.m); }
    } else if a.y == b.y && a.m < b.m {
      MonthsAreOrdered(a.y, a.m, b.m);
    }
  }

  // ---- and its inverse ----------------------------------------------------------

  /** A day of a 400-year era: century, four-year cycle, year and day of its March-based
      year. Only the last day of a leap year has number 365. */
  predicate InEra(c: int, q: int, s: int, doy: int)
  {
    && 0 <= c < 4 && 0 <= q < 25 && 0 <= s < 4 && 0 <= doy <= 365
    && (doy == 365 ==> s == 3 && (q < 24 || c == 3))
  }

  lemma YearOfEra(c: int, q: int, s: int, doy: int)
    requires InEra(c, q, s, doy)
    ensures var doe := 36524 * c + 1461 * q + 365 * s + doy;
            0 <= doe < 146097
            && (doe - doe / 1460 + doe / 36524 - doe / 146096) / 365 == 100 * c + 4 * q + s
  {
    var doe := 36524 * c + 1461 * q + 365 * s + doy;
    var last := doe == 146096;
    assert doe / 36524 == if last then c + 1 else c;
    assert doe / 146096 == if last then 1 else 0;
    var rest := 24 * c + q + 365 * s + doy;
    assert doe == 1460 * (25 * c + q) + rest && 0 <= rest < 2920;
    var e := if rest >= 1460 then 1 else 0;
    assert doe / 1460 == 25 * c + q + e;
    assert doe - doe / 1460 + doe / 36524 - doe / 146096 == 365 * (100 * c + 4 * q + s) + (doy - e);
    assert 0 <= doy - e < 365;
  }

  lemma YearParts(yoe: int) returns (c: int, q: int, s: int)
    requires 0 <= yoe < 400
    ensures yoe == 100 * c + 4 * q + s && 0 <= c < 4 && 0 <= q < 25 && 0 <= s < 4
    ensures yoe * 365 + yoe / 4 - yoe / 100 == 36524 * c + 1461 * q + 365 * s
    ensures c == yoe / 100
  {
    c := yoe / 100;
    q := (yoe % 100) / 4;
    s := (yoe % 100) % 4;
    assert yoe / 4 == 25 * c + q;
  }

  lemma MonthOfYear(m: int, d: int)
    requires 1 <= m <= 12 && 1 <= d <= 31 && (m == 2 ==> d <= 29)
    requires (m == 4 || m == 6 || m == 9 || m == 11) ==> d <= 30
    ensures var mp := (m + 9) % 12;
            var doy := (153 * mp + 2) / 5 + d - 1;
            && 0 <= doy <= 365 && (doy == 365 ==> m == 2 && d == 29)
            && (5 * doy + 2) / 153 == mp
            && (if mp < 10 then mp + 3 else mp - 9) == m
  {
  }

  lemma EraOfDay(z: int, era: int, doe: int)
    requires z == era * 146097 + doe && 0 <= doe < 146097
    ensures z / 146097 == era && z % 146097 == doe
  {
  }

  /** `civil_from_days` on a day whose era, year and month are known. */
  lemma CivilFromParts(days: int, era: int, doe: int, yoe: int, doy: int, mp: int)
    requires (days + 719468) / 146097 == era && (days + 719468) % 146097 == doe
    requires (doe - doe / 1460 + doe / 36524 - doe / 146096) / 365 == yoe
    requires doe - (365 * yoe + yoe / 4 - yoe / 100) == doy
    requires (5 * doy + 2) / 153 == mp
    ensures var m := if mp < 10 then mp + 3 else mp - 9;
            CivilFromDays(days) == Date(yoe + era * 400 + (if m <= 2 then 1 else 0), m, doy - (153 * mp + 2) / 5 + 1)
  {
  }

  /** Where a date lies: its era, its year in the era by parts, its day in the March year. */
  lemma PartsOfDate(t: Date) returns (era: int, c: int, q: int, s: int, doy: int)
    requires Valid(t)
    ensures InEra(c, q, s, doy) && doy == (153 * ((t.m + 9) % 12) + 2) / 5 + t.d - 1
    ensures 400 * era + 100 * c + 4 * q + s == if t.m <= 2 then t.y - 1 else t.y
    ensures DayNumber(t) + 719468 == era * 146097 + (36524 * c + 1461 * q + 365 * s + doy)
  {
    var y := if t.m <= 2 then t.y - 1 else t.y;
    era := y / 400;
    var yoe := y - era * 400;
    doy := (153 * ((t.m + 9) % 12) + 2) / 5 + t.d - 1;
    c, q, s := YearParts(yoe);
    MonthOfYear(t.m, t.d);
    if doy == 365 {
      LeapInEra(era, yoe, c, q, s);
    }
  }

  lemma DaysOfYears(c: int, q: int, s: int)
    requires 0 <= c < 4 && 0 <= q < 25 && 0 <= s < 4
    ensures var yoe := 100 * c + 4 * q + s; 365 * yoe + yoe / 4 - yoe / 100 == 36524 * c + 1461 * q + 365 * s
  {
    assert (100 * c + 4 * q + s) / 4 == 25 * c + q;
    assert (100 * c + 4 * q + s) / 100 == c;
  }

  lemma CivilOfParts(days: int, t: Date, era: int, c: int, q: int, s: int, doy: int)
    requires Valid(t) && InEra(c, q, s, doy) && doy == (153 * ((t.m + 9) % 12) + 2) / 5 + t.d - 1
    requires 400 * era + 100 * c + 4 * q + s == if t.m <= 2 then t.y - 1 else t.y
    requires days + 719468 == era * 146097 + (36524 * c + 1461 * q + 365 * s + doy)
    ensures CivilFromDays(days) == t
  {
    var yoe, doe := 100 * c + 4 * q + s, 36524 * c + 1461 * q + 365 * s + doy;
    YearOfEra(c, q, s, doy);
    EraOfDay(days + 719468, era, doe);
    DaysOfYears(c, q, s);
    var mp := (t.m + 9) % 12;
    assert (5 * doy + 2) / 153 == mp && (if mp < 10 then mp + 3 else mp - 9) == t.m by { MonthOfYear(t.m, t.d); }
    CivilFromParts(days, era, doe, yoe, doy, mp);
  }

  /** `civil_from_days` undoes `day_number` on every date. */
  lemma CivilUndoesDayNumber(t: Date)
    requires Valid(t)
    ensures CivilFromDays(DayNumber(t)) == t
  {
    var era, c, q, s, doy := PartsOfDate(t);
    CivilOfParts(DayNumber(t), t, era, c, q, s, doy);
  }

  lemma LeapInEra(era: int, yoe: int, c: int, q: int, s: int)
    requires IsLeap(400 * era + yoe + 1) && yoe == 100 * c + 4 * q + s
    requires 0 <= c < 4 && 0 <= q < 25 && 0 <= s < 4
    ensures s == 3 && (q < 24 || c == 3)
  {
    var n := 400 * era + yoe + 1;
    if s < 3 {
      assert n == 4 * (100 * era + 25 * c + q) + (s + 1);
      RemainderBy4(100 * era + 25 * c + q, s + 1);
    } else if q == 24 && c < 3 {
      assert n == 100 * (4 * era + c + 1) + 0;
      RemainderBy100(4 * era + c + 1, 0);
      assert n == 400 * era + 100 * (c + 1);
      RemainderBy400(era, 100 * (c + 1));
    }
  }

  lemma {:induction false} EveryDayHasADate(days: nat) returns (t: Date)
    ensures Valid(t) && DayNumber(t) == days && t.y >= 1970
  {
    if days == 0 {
      t := Date(1970, 1, 1);
    } else {
      var before := EveryDayHasADate(days - 1);
      NextDayIsNextNumber(before);
      t := NextDay(before);
    }
  }

  /** `day_number` undoes `civil_from_days`, which always gives a calendar date. */
  lemma DayNumberUndoesCivil(days: nat)
    ensures Valid(CivilFromDays(days)) && DayNumber(CivilFromDays(days)) == days
    ensures CivilFromDays(days).y >= 1970
  {
    var t := EveryDayHasADate(days);
    CivilUndoesDayNumber(t);
  }

  // ---- names --------------------------------------------------------------------

  function Two(n: nat): string
    requires n < 100
  {
    [Digit(n / 10), Digit(n % 10)]
  }

  /** `{y:04}-{m:02}-{d:02}` */
  function FormatDate(t: Date): string
    requires t.y >= 0 && 0 <= t.m < 100 && 0 <= t.d < 100
  {
    (if t.y < 10000 then Two(t.y / 100) + Two(t.y % 100) else Decimal(t.y)) + "-" + Two(t.m) + "-" + Two(t.d)
  }

  /** `day_number` of a text: `YYYY-MM-DD` with month 1 to 12 and day 1 to 31. */
  function ParseDay(s: string): Option<int>
  {
    if |s| != 10 || s[4] != '-' || s[7] != '-' then None
    else if !Digits(s[0..4]) || !Digits(s[5..7]) || !Digits(s[8..10]) then None
    else
      var t := Date(Number(s[0..4]), Number(s[5..7]), Number(s[8..10]));
      if 1 <= t.m <= 12 && 1 <= t.d <= 31 then Some(DayNumber(t)) else None
  }

  /** `utc_date` */
  function UtcDate(ms: nat): string
  {
    DayNumberUndoesCivil(ms / DAY_MS);
    FormatDate(CivilFromDays(ms / DAY_MS))
  }

  lemma TwoIsNumber(n: nat)
    requires n < 100
    ensures Digits(Two(n)) && Number(Two(n)) == n
  {
    var s := Two(n);
    assert s[..1] == [s[0]] && s[..1][..0] == [];
    assert Number(s[..1]) == n / 10;
  }

  lemma FourIsNumber(n: nat)
    requires n < 10000
    ensures var s := Two(n / 100) + Two(n % 100); Digits(s) && Number(s) == n
  {
    var a, b := Two(n / 100), Two(n % 100);
    var s := a + b;
    TwoIsNumber(n / 100);
    TwoIsNumber(n % 100);
    assert s[..3][..2] == a && s[..3] == a + [b[0]];
    assert s[..|s| - 1] == s[..3];
    assert b[..1] == [b[0]] && b[..1][..0] == [];
    assert Number(s[..3]) == 10 * Number(a) + (b[0] as int - '0' as int);
  }

  lemma {:induction false} LongYears(n: nat)
    requires n >= 10000
    ensures |Decimal(n)| >= 5
  {
    assert |Decimal(n / 10)| >= 4 by {
      assert |Decimal(n / 10)| == |Decimal(n / 100)| + 1;
      assert |Decimal(n / 100)| == |Decimal(n / 1000)| + 1 by { assert n / 100 / 10 == n / 1000; }
      assert |Decimal(n / 1000)| == |Decimal(n / 10000)| + 1 by { assert n / 1000 / 10 == n / 10000; }
    }
  }

  /** A date written by `utc_date` reads back as its own day, exactly while the year has
      four digits. */
  lemma NamesReadBack(ms: nat)
    ensures ParseDay(UtcDate(ms)) == if CivilFromDays(ms / DAY_MS).y <= 9999 then Some(ms / DAY_MS) else None
  {
    var day := ms / DAY_MS;
    DayNumberUndoesCivil(day);
    var t := CivilFromDays(day);
    var s := UtcDate(ms);
    if t.y <= 9999 {
      FourIsNumber(t.y);
      TwoIsNumber(t.m);
      TwoIsNumber(t.d);
      assert s[0..4] == Two(t.y / 100) + Two(t.y % 100) && s[5..7] == Two(t.m) && s[8..10] == Two(t.d);
    } else {
      LongYears(t.y);
      assert |s| >= 11;
    }
  }

  lemma FormatEnds(t: Date)
    requires t.y >= 0 && 0 <= t.m < 100 && 0 <= t.d < 100
    ensures var s := FormatDate(t);
            var n := |s| - 6;
            n >= 1 && s[n + 1..n + 3] == Two(t.m) && s[n + 4..] == Two(t.d)
            && (t.y >= 10000 ==> s[..n] == Decimal(t.y))
  {
  }

  /** Different days are written differently, whatever their years. */
  lemma DifferentDaysDifferentNames(a: nat, b: nat)
    requires UtcDate(a) == UtcDate(b)
    ensures a / DAY_MS == b / DAY_MS
  {
    hide CivilFromDays, FormatDate, ParseDay, DayNumber;
    NamesReadBack(a);
    NamesReadBack(b);
    DayNumberUndoesCivil(a / DAY_MS);
    DayNumberUndoesCivil(b / DAY_MS);
    var t, u := CivilFromDays(a / DAY_MS), CivilFromDays(b / DAY_MS);
    if t.y > 9999 && u.y > 9999 {
      SameTextSameDate(t, u);
    }
  }

  lemma SameTextSameDate(t: Date, u: Date)
    requires t.y > 9999 && u.y > 9999 && Valid(t) && Valid(u) && FormatDate(t) == FormatDate(u)
    ensures t == u
  {
    FormatEnds(t);
    FormatEnds(u);
    hide FormatDate;
    DecimalReadsBack(t.y);
    DecimalReadsBack(u.y);
    TwoIsNumber(t.m);
    TwoIsNumber(u.m);
    TwoIsNumber(t.d);
    TwoIsNumber(u.d);
  }

  /** Every calendar date of a four-digit year, written out, reads back as its day number. */
  lemma TextsReadBack(t: Date)
    requires Valid(t) && 0 <= t.y <= 9999
    ensures ParseDay(FormatDate(t)) == Some(DayNumber(t))
  {
    hide DayNumber;
    var s := FormatDate(t);
    FourIsNumber(t.y);
    TwoIsNumber(t.m);
    TwoIsNumber(t.d);
    assert s[0..4] == Two(t.y / 100) + Two(t.y % 100) && s[5..7] == Two(t.m) && s[8..10] == Two(t.d);
  }
}
