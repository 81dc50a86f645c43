/** Day numbers since 1970-01-01 and Gregorian dates. */
module Calendar {

  datatype Date = Date(y: int, m: int, d: int)

  /**
   The closed form: the day is first placed in a year that starts on 1 March, and then turned into a
   date. `/` and `%` are unsigned; `ClosedFormNeverUnderflows` shows that every operand fits.
   */
  function DaysToYmd(days: nat): Date {
    var z := days + 719468;
    OfEra(z / 146097, z % 146097)
  }

  /** Day `doe` of a 400-year era. */
  function OfEra(era: int, doe: int): Date {
    var yoe := YearOfEra(doe);
    FromMarch(yoe + era * 400, DayOfYear(doe, yoe))
  }

  /** The date of day `doy` of the year that starts on 1 March of calendar year `y`. */
  function FromMarch(y: int, doy: int): Date {
    var mp := (5 * doy + 2) / 153;
    var d := doy - (153 * mp + 2) / 5 + 1;
    var m := if mp < 10 then mp + 3 else mp - 9;
    Date(if m <= 2 then y + 1 else y, m, d)
  }

  function YearOfEra(doe: int): int {
    (doe - doe / 1460 + doe / 36524 - doe / 146096) / 365
  }

  function DayOfYear(doe: int, yoe: int): int {
    doe - (365 * yoe + yoe / 4 - yoe / 100)
  }

  // ----- The calendar by counting -----

  predicate IsLeap(y: int) {
    y % 4 == 0 && (y % 100 != 0 || y % 400 == 0)
  }

  function DaysInMonth(y: int, m: int): int {
    if m == 2 then (if IsLeap(y) then 29 else 28)
    else if m == 4 || m == 6 || m == 9 || m == 11 then 30
    else 31
  }

  predicate ValidDate(t: Date) {
    1 <= t.m <= 12 && 1 <= t.d <= DaysInMonth(t.y, t.m)
  }

  function NextDay(t: Date): Date {
    if t.d < DaysInMonth(t.y, t.m) then Date(t.y, t.m, t.d + 1)
    else if t.m < 12 then Date(t.y, t.m + 1, 1)
    else Date(t.y + 1, 1, 1)
  }

  /** The date reached by stepping one day at a time. */
  function DateByCounting(days: nat): Date {
    if days == 0 then Date(1970, 1, 1) else NextDay(DateByCounting(days - 1))
  }

  // ----- Years of an era, counted from 1 March -----

  /** The first day of a year of the era. */
  function YearStart(yoe: int): int {
    365 * yoe + yoe / 4 - yoe / 100
  }

  /** The length of a year of the era; it ends with February of the following calendar year. */
  function YearLength(yoe: int): int {
    if IsLeap(yoe + 1) then 366 else 365
  }

  /** Century, four-year cycle and the rest of a day of the era; the last day of the era stays in century 3. */
  lemma SplitDay(doe: int) returns (c: int, q: int, r: int)
    requires 0 <= doe < 146097
    ensures doe == 36524 * c + 1461 * q + r
    ensures 0 <= c <= 3 && 0 <= q <= 24 && 0 <= r <= 1460
    ensures q == 24 && c < 3 ==> r < 1460
  {
    c := if doe == 146096 then 3 else doe / 36524;
    var e := doe - 36524 * c;
    q, r := e / 1461, e % 1461;
  }

  lemma YearOfSplitDay(doe: int, c: int, q: int, r: int)
    requires doe == 36524 * c + 1461 * q + r
    requires 0 <= c <= 3 && 0 <= q <= 24 && 0 <= r <= 1460
    requires q == 24 && c < 3 ==> r < 1460
    ensures YearOfEra(doe) == 100 * c + 4 * q + (if r == 1460 then 3 else r / 365)
  {
    var x := 24 * c + q + r;
    var late := if x >= 1460 then 1 else 0;
    assert doe == 1460 * (25 * c + q) + x;
    assert doe / 1460 == 25 * c + q + late by {
      DivisionIs(doe, 1460, 25 * c + q + late);
    }
    assert doe / 36524 - doe / 146096 == c by {
      if doe == 146096 {
      } else {
        DivisionIs(doe, 36524, c);
        DivisionIs(doe, 146096, 0);
      }
    }
    var a := if r == 1460 then 3 else r / 365;
    DivisionIs(365 * (100 * c + 4 * q) + r - late, 365, 100 * c + 4 * q + a);
  }

  lemma DivisionIs(n: int, d: int, q: int)
    requires d > 0 && q * d <= n < (q + 1) * d
    ensures n / d == q
  {
    var k := n / d;
    assert k * d <= n < (k + 1) * d;
    assert k < q ==> (k + 1) * d <= q * d;
    assert k > q ==> (q + 1) * d <= k * d;
  }

  /** Day `doe` of the era is day `doy` of its year `yoe`. */
  predicate InEra(doe: int, yoe: int, doy: int) {
    0 <= doe < 146097 && 0 <= yoe < 400 && doy == doe - YearStart(yoe) && 0 <= doy < YearLength(yoe)
  }

  lemma SplitDayIsInEra(doe: int, c: int, q: int, r: int, a: int, yoe: int)
    requires doe == 36524 * c + 1461 * q + r
    requires 0 <= c <= 3 && 0 <= q <= 24 && 0 <= r <= 1460
    requires q == 24 && c < 3 ==> r < 1460
    requires a == (if r == 1460 then 3 else r / 365) && yoe == 100 * c + 4 * q + a
    ensures InEra(doe, yoe, doe - YearStart(yoe))
  {
    DivisionIs(yoe, 4, 25 * c + q);
    DivisionIs(yoe, 100, c);
    assert doe - YearStart(yoe) == r - 365 * a;
    if r == 1460 {
      assert yoe + 1 == 4 * (25 * c + q + 1);
      if q == 24 { assert c == 3; } else { DivisionIs(yoe + 1, 100, c); }
    }
  }

  /** The closed form finds the year of the era a day falls into. */
  lemma YearOfEraIsRight(doe: int)
    requires 0 <= doe < 146097
    ensures InEra(doe, YearOfEra(doe), DayOfYear(doe, YearOfEra(doe)))
  {
    var c, q, r := SplitDay(doe);
    YearOfSplitDay(doe, c, q, r);
    SplitDayIsInEra(doe, c, q, r, if r == 1460 then 3 else r / 365, YearOfEra(doe));
  }

  // ----- Days of a year counted from 1 March -----

  /** Within a March year days follow each other; the last one is followed by 1 March. */
  lemma NextFromMarch(y: int, doy: int)
    requires 0 <= doy < YearLength(y)
    ensures ValidDate(FromMarch(y, doy))
    ensures NextDay(FromMarch(y, doy)) == if doy + 1 < YearLength(y) then FromMarch(y, doy + 1) else FromMarch(y + 1, 0)
  {
  }

  lemma YearStartGrows(a: int, b: int)
    requires 0 <= a < b < 400
    ensures YearStart(a) + YearLength(a) <= YearStart(b)
    decreases b - a
  {
    if b == a + 1 {
    } else {
      YearStartGrows(a, b - 1);
      YearStartGrows(b - 1, b);
    }
  }

  lemma RemainderIs(n: int, d: int, q: int, r: int)
    requires d > 0 && n == d * q + r && 0 <= r < d
    ensures n % d == r
  {
    assert q * d == d * q && (q + 1) * d == d * q + d;
    DivisionIs(n, d, q);
  }

  lemma LeapRepeats(y: int, era: int)
    ensures IsLeap(y + 400 * era) == IsLeap(y)
  {
    RemainderIs(y + 400 * era, 4, y / 4 + 100 * era, y % 4);
    RemainderIs(y + 400 * era, 100, y / 100 + 4 * era, y % 100);
    RemainderIs(y + 400 * era, 400, y / 400 + era, y % 400);
  }

  // ----- The closed form is the calendar -----

  /** (y', doy') is the day after (y, doy), both in March years. */
  predicate Follows(y: int, doy: int, y': int, doy': int) {
    && 0 <= doy < YearLength(y)
    && if doy + 1 < YearLength(y) then y' == y && doy' == doy + 1 else y' == y + 1 && doy' == 0
  }

  lemma QuotientSteps(n: int, d: int)
    requires d > 1
    ensures n / d == (n - 1) / d + if n % d == 0 then 1 else 0
  {
    var q, r := n / d, n % d;
    assert n == q * d + r && (q + 1) * d == q * d + d && (q - 1) * d == q * d - d;
    if r == 0 { DivisionIs(n - 1, d, q - 1); } else { DivisionIs(n - 1, d, q); }
  }

  lemma NextYearStart(yoe: int)
    requires 0 <= yoe < 399
    ensures YearStart(yoe + 1) == YearStart(yoe) + YearLength(yoe)
  {
    QuotientSteps(yoe + 1, 4);
    QuotientSteps(yoe + 1, 100);
  }

  /** A day of the era lies in one year only. */
  lemma InOneYear(doe: int, yoe: int, doy: int, yoe': int, doy': int)
    requires InEra(doe, yoe, doy) && InEra(doe, yoe', doy')
    ensures yoe == yoe' && doy == doy'
  {
    if yoe < yoe' { YearStartGrows(yoe, yoe'); }
    if yoe' < yoe { YearStartGrows(yoe', yoe); }
  }

  /** Within an era, days follow each other and years follow each other. */
  lemma EraSteps(doe: int, yoe: int, doy: int, yoe': int, doy': int)
    requires InEra(doe, yoe, doy) && InEra(doe + 1, yoe', doy')
    ensures Follows(yoe, doy, yoe', doy')
  {
    if doy + 1 < YearLength(yoe) {
      InOneYear(doe + 1, yoe, doy + 1, yoe', doy');
    } else {
      NextYearStart(yoe);
      InOneYear(doe + 1, yoe + 1, 0, yoe', doy');
    }
  }

  /** The last day of an era is followed by the first day of the next. */
  lemma EraEnds(doe: int, yoe: int, doy: int, doe': int, yoe': int, doy': int)
    requires InEra(doe, yoe, doy) && doe == 146096 && InEra(doe', yoe', doy') && doe' == 0
    ensures Follows(yoe, doy, yoe' + 400, doy')
  {
    var last := LastDayOfEra(doe, yoe, doy);
    var first := FirstDayOfEra(doe', yoe', doy');
  }

  lemma LastDayOfEra(doe: int, yoe: int, doy: int) returns (last: int)
    requires InEra(doe, yoe, doy) && doe == 146096
    ensures yoe == last && last + 1 == 400 && doy + 1 == YearLength(last)
  {
    EraBounds();
    if yoe < 399 { YearStartGrows(yoe, 399); }
    last := yoe;
  }

  lemma FirstDayOfEra(doe: int, yoe: int, doy: int) returns (first: int)
    requires InEra(doe, yoe, doy) && doe == 0
    ensures yoe == first && first == 0 && doy == 0
  {
    EraBounds();
    if 0 < yoe { YearStartGrows(0, yoe); }
    first := yoe;
  }

  lemma EraBounds()
    ensures YearStart(399) == 145731 && YearLength(399) == 366
    ensures YearStart(0) == 0 && YearLength(0) == 365
  {
  }

  lemma YearLengthRepeats(yoe: int, era: int)
    ensures YearLength(yoe + era * 400) == YearLength(yoe)
  {
    LeapRepeats(yoe + 1, era);
  }

  lemma FollowsRepeats(yoe: int, doy: int, yoe': int, doy': int, era: int)
    requires Follows(yoe, doy, yoe', doy')
    ensures Follows(yoe + era * 400, doy, yoe' + era * 400, doy')
  {
    YearLengthRepeats(yoe, era);
  }

  /** Whatever the era: the day after is the next day of the March year, or the first of the next. */
  lemma DaysFollow(era: int, doe: int, yoe: int, doy: int, era': int, doe': int, yoe': int, doy': int)
    requires InEra(doe, yoe, doy) && InEra(doe', yoe', doy')
    requires if doe == 146096 then era' == era + 1 && doe' == 0 else era' == era && doe' == doe + 1
    ensures Follows(yoe + era * 400, doy, yoe' + era' * 400, doy')
  {
    if doe == 146096 {
      EraEnds(doe, yoe, doy, doe', yoe', doy');
      FollowsRepeats(yoe, doy, yoe' + 400, doy', era);
    } else {
      EraSteps(doe, yoe, doy, yoe', doy');
      FollowsRepeats(yoe, doy, yoe', doy', era);
    }
  }

  lemma DatesFollow(y: int, doy: int, y': int, doy': int, t: Date, t': Date)
    requires Follows(y, doy, y', doy')
    requires t == FromMarch(y, doy) && t' == FromMarch(y', doy')
    ensures ValidDate(t) && t' == NextDay(t)
  {
    NextFromMarch(y, doy);
  }

  lemma NextZ(z: nat)
    ensures var era, doe := z / 146097, z % 146097;
            if doe == 146096 then (z + 1) / 146097 == era + 1 && (z + 1) % 146097 == 0
            else (z + 1) / 146097 == era && (z + 1) % 146097 == doe + 1
  {
    var era, doe := z / 146097, z % 146097;
    if doe == 146096 {
      RemainderIs(z + 1, 146097, era + 1, 0);
      DivisionIs(z + 1, 146097, era + 1);
    } else {
      RemainderIs(z + 1, 146097, era, doe + 1);
      DivisionIs(z + 1, 146097, era);
    }
  }

  lemma OfEraIs(era: int, doe: int) returns (yoe: int, y: int, doy: int)
    requires 0 <= doe < 146097
    ensures InEra(doe, yoe, doy) && y == yoe + era * 400
    ensures OfEra(era, doe) == FromMarch(y, doy)
  {
    yoe := YearOfEra(doe);
    y, doy := yoe + era * 400, DayOfYear(doe, yoe);
    YearOfEraIsRight(doe);
  }

  lemma OfEraFollows(era: int, doe: int, era': int, doe': int, t: Date, t': Date)
    requires 0 <= doe < 146097 && 0 <= doe' < 146097
    requires if doe == 146096 then era' == era + 1 && doe' == 0 else era' == era && doe' == doe + 1
    requires t == OfEra(era, doe) && t' == OfEra(era', doe')
    ensures ValidDate(t) && t' == NextDay(t)
  {
    var yoe, y, doy := OfEraIs(era, doe);
    var yoe', y', doy' := OfEraIs(era', doe');
    assert Follows(y, doy, y', doy') by {
      DaysFollow(era, doe, yoe, doy, era', doe', yoe', doy');
    }
    DatesFollow(y, doy, y', doy', t, t');
  }

  lemma ClosedFormFollows(days: nat, next: nat, t: Date, t': Date)
    requires next == days + 1
    requires t == DaysToYmd(days) && t' == DaysToYmd(next)
    ensures ValidDate(t) && t' == NextDay(t)
  {
    var z := days + 719468;
    NextZ(z);
    OfEraFollows(z / 146097, z % 146097, (z + 1) / 146097, (z + 1) % 146097, t, t');
  }

  /** Consecutive day numbers give consecutive dates. */
  lemma ClosedFormSteps(days: nat)
    ensures ValidDate(DaysToYmd(days))
    ensures DaysToYmd(days + 1) == NextDay(DaysToYmd(days))
  {
    ClosedFormFollows(days, days + 1, DaysToYmd(days), DaysToYmd(days + 1));
  }

  lemma Epoch()
    ensures DaysToYmd(0) == Date(1970, 1, 1)
  {
    assert 719468 / 146097 == 4 && 719468 % 146097 == 135080;
    assert YearOfEra(135080) == 369 && DayOfYear(135080, 369) == 306;
    assert FromMarch(1969, 306) == Date(1970, 1, 1);
  }

  lemma {:induction false} CountingReaches(days: nat, t: Date)
    requires t == DateByCounting(days)
    ensures t == DaysToYmd(days)
  {
    if days == 0 {
      Epoch();
    } else {
      var before := DateByCounting(days - 1);
      CountingReaches(days - 1, before);
      ClosedFormFollows(days - 1, days, before, DaysToYmd(days));
    }
  }

  /** For every day number, the closed form gives the date found by stepping from 1970-01-01 day by day. */
  lemma {:induction false} ClosedFormIsCounting(days: nat)
    ensures DaysToYmd(days) == DateByCounting(days)
  {
    CountingReaches(days, DateByCounting(days));
  }

  /** No subtraction of the closed form goes below zero, and nothing exceeds the input by more than a constant. */
  lemma ClosedFormNeverUnderflows(days: nat, z: int, doe: int, yoe: int, doy: int)
    requires z == days + 719468 && doe == z % 146097 && yoe == YearOfEra(doe) && doy == DayOfYear(doe, yoe)
    ensures 0 <= doe - doe / 1460
    ensures 0 <= doe - doe / 1460 + doe / 36524 - doe / 146096 <= z
    ensures 0 <= 365 * yoe + yoe / 4 - yoe / 100 <= doe
    ensures var mp := (5 * doy + 2) / 153; 0 <= mp <= 11 && 0 <= (153 * mp + 2) / 5 <= doy <= 365
  {
    YearOfEraIsRight(doe);
  }

  // ----- The usual count from a date to its day number -----

  function DaysBeforeYear(y: int): int {
    365 * (y - 1) + (y - 1) / 4 - (y - 1) / 100 + (y - 1) / 400
  }

  function DaysBeforeMonth(y: int, m: int): int
    decreases m
  {
    if m <= 1 then 0 else DaysBeforeMonth(y, m - 1) + DaysInMonth(y, m - 1)
  }

  /** Whole years, whole months and days since 1970-01-01. */
  function DayNumber(t: Date): int {
    DaysBeforeYear(t.y) - DaysBeforeYear(1970) + DaysBeforeMonth(t.y, t.m) + t.d - 1
  }

  predicate DateLess(t: Date, u: Date) {
    t.y < u.y || (t.y == u.y && (t.m < u.m || (t.m == u.m && t.d < u.d)))
  }

  lemma YearHasTwelveMonths(y: int)
    ensures DaysBeforeMonth(y, 12) + 31 == if IsLeap(y) then 366 else 365
  {
    assert DaysBeforeMonth(y, 3) == 31 + DaysInMonth(y, 2);
    assert DaysBeforeMonth(y, 6) == DaysBeforeMonth(y, 3) + 92;
    assert DaysBeforeMonth(y, 9) == DaysBeforeMonth(y, 6) + 92;
    assert DaysBeforeMonth(y, 12) == DaysBeforeMonth(y, 9) + 91;
  }

  lemma YearsAddUp(y: int)
    ensures DaysBeforeYear(y + 1) == DaysBeforeYear(y) + if IsLeap(y) then 366 else 365
  {
    QuotientSteps(y, 4);
    QuotientSteps(y, 100);
    QuotientSteps(y, 400);
    if y % 400 == 0 { RemainderIs(y, 100, 4 * (y / 400), 0); }
    if y % 100 == 0 { RemainderIs(y, 4, 25 * (y / 100), 0); }
  }

  lemma NextDayCountsOne(t: Date)
    requires ValidDate(t)
    ensures DayNumber(NextDay(t)) == DayNumber(t) + 1
    ensures ValidDate(NextDay(t))
  {
    YearHasTwelveMonths(t.y);
    YearsAddUp(t.y);
  }

  lemma EpochCountsZero(t: Date)
    requires t == DaysToYmd(0)
    ensures DayNumber(t) == 0
  {
    Epoch();
    assert DaysBeforeMonth(1970, 1) == 0;
  }

  lemma CountSteps(before: Date, t: Date, n: int)
    requires ValidDate(before) && t == NextDay(before) && DayNumber(before) == n
    ensures DayNumber(t) == n + 1
  {
    NextDayCountsOne(before);
  }

  lemma {:induction false} CountReaches(days: nat, t: Date)
    requires t == DaysToYmd(days)
    ensures DayNumber(t) == days
  {
    if days == 0 {
      EpochCountsZero(t);
    } else {
      var before := DaysToYmd(days - 1);
      CountReaches(days - 1, before);
      ClosedFormFollows(days - 1, days, before, t);
      CountSteps(before, t, days - 1);
    }
  }

  /** Counting the days of the computed date gives back the day number. */
  lemma CountInvertsClosedForm(days: nat)
    ensures DayNumber(DaysToYmd(days)) == days
  {
    CountReaches(days, DaysToYmd(days));
  }

  lemma {:induction false} MonthsGrow(y: int, m: int, n: int)
    requires 1 <= m < n <= 12
    ensures DaysBeforeMonth(y, m) + DaysInMonth(y, m) <= DaysBeforeMonth(y, n)
    decreases n - m
  {
    if n > m + 1 { MonthsGrow(y, m, n - 1); }
  }

  lemma {:induction false} YearsGrow(y: int, z: int)
    requires y < z
    ensures DaysBeforeYear(y) + (if IsLeap(y) then 366 else 365) <= DaysBeforeYear(z)
    decreases z - y
  {
    YearsAddUp(y);
    if z > y + 1 { YearsGrow(y + 1, z); }
  }

  /** A later date has a larger day number. */
  lemma CountGrows(t: Date, u: Date)
    requires ValidDate(t) && ValidDate(u) && DateLess(t, u)
    ensures DayNumber(t) < DayNumber(u)
  {
    if t.y == u.y {
      if t.m < u.m { MonthsGrow(t.y, t.m, u.m); }
    } else {
      YearsGrow(t.y, u.y);
      YearHasTwelveMonths(t.y);
      if t.m < 12 { MonthsGrow(t.y, t.m, 12); }
      MonthsAreNonNegative(u.y, u.m);
    }
  }

  lemma {:induction false} MonthsAreNonNegative(y: int, m: int)
    ensures DaysBeforeMonth(y, m) >= 0
    decreases m
  {
    if m > 1 { MonthsAreNonNegative(y, m - 1); }
  }

  /** The closed form is strictly increasing, and every date from 1970 on is reached. */
  lemma ClosedFormIsMonotone(days: nat, days': nat)
    ensures DateLess(DaysToYmd(days), DaysToYmd(days')) <==> days < days'
  {
    ClosedFormSteps(days);
    ClosedFormSteps(days');
    LaterMeansMore(days, days', DaysToYmd(days), DaysToYmd(days'));
  }

  lemma LaterMeansMore(days: nat, days': nat, t: Date, u: Date)
    requires t == DaysToYmd(days) && u == DaysToYmd(days') && ValidDate(t) && ValidDate(u)
    ensures DateLess(t, u) <==> days < days'
  {
    CountReaches(days, t);
    CountReaches(days', u);
    SameOrder(t, u);
  }

  /** Dates compare as their day numbers do. */
  lemma SameOrder(t: Date, u: Date)
    requires ValidDate(t) && ValidDate(u)
    ensures DateLess(t, u) <==> DayNumber(t) < DayNumber(u)
    ensures t == u <==> DayNumber(t) == DayNumber(u)
  {
    if DateLess(t, u) { CountGrows(t, u); }
    if DateLess(u, t) { CountGrows(u, t); }
  }

  lemma ClosedFormInvertsCount(t: Date)
    requires ValidDate(t) && DayNumber(t) >= 0
    ensures DaysToYmd(DayNumber(t)) == t
  {
    var u := DaysToYmd(DayNumber(t));
    CountReaches(DayNumber(t), u);
    ClosedFormSteps(DayNumber(t));
    SameOrder(t, u);
  }
}
