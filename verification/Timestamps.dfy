/** Audit timestamps: RFC 3339 (section 5.6) text of fixed width, filtered and sorted as text (section 5.1). */
module Timestamps {
  import opened Text
  import opened Calendar

  const SECONDS_PER_DAY := 86400

  /** The first second of year 10000, whose text no longer has the fixed width. */
  const YEAR_10000 := 253402300800

  function DayOf(secs: nat): nat {
    secs / SECONDS_PER_DAY
  }

  lemma DatesArePositive(days: nat, t: Date)
    requires t == DaysToYmd(days)
    ensures ValidDate(t) && t.y >= 1970 && t.m >= 0 && t.d >= 0
  {
    ClosedFormSteps(days);
    Epoch();
    if days > 0 { ClosedFormIsMonotone(0, days); }
  }

  /** Date and UTC time, each field padded to its usual width. */
  function Stamp(secs: nat): string {
    var sec := secs % 60;
    var min := (secs / 60) % 60;
    var hour := (secs / 3600) % 24;
    var t := DaysToYmd(DayOf(secs));
    DatesArePositive(DayOf(secs), t);
    Padded(t.y, 4) + "-" + Padded(t.m, 2) + "-" + Padded(t.d, 2) + "T"
    + Padded(hour, 2) + ":" + Padded(min, 2) + ":" + Padded(sec, 2) + "Z"
  }

  // ----- Fixed-width form -----

  /** A date whose fields fit the fixed width; it need not exist in the calendar. */
  predicate Fits(t: Date) {
    0 <= t.y < 10000 && 0 <= t.m < 100 && 0 <= t.d < 100
  }

  function DateText(t: Date): (s: string)
    requires Fits(t)
    ensures |s| == 10
  {
    Fixed(t.y, 4) + ("-" + (Fixed(t.m, 2) + ("-" + Fixed(t.d, 2))))
  }

  function TimeText(secs: nat): string {
    "T" + (Fixed((secs / 3600) % 24, 2) + (":" + (Fixed((secs / 60) % 60, 2) + (":" + (Fixed(secs % 60, 2) + "Z")))))
  }

  lemma Pow10Values()
    ensures Pow10(2) == 100 && Pow10(4) == 10000
  {
    assert Pow10(1) == 10 && Pow10(3) == 10 * Pow10(2);
  }

  /** The dates the width allows are those up to 9999-12-31. */
  lemma BeforeYear10000(secs: nat)
    ensures DaysToYmd(DayOf(secs)).y < 10000 <==> secs < YEAR_10000
  {
    var t, last := DaysToYmd(DayOf(secs)), Date(9999, 12, 31);
    CountReaches(DayOf(secs), t);
    ClosedFormSteps(DayOf(secs));
    LastDayNumber();
    SameOrder(last, t);
  }

  lemma LastDayNumber()
    ensures ValidDate(Date(9999, 12, 31)) && DayNumber(Date(9999, 12, 31)) == 2932896
  {
    YearHasTwelveMonths(9999);
  }

  lemma StampIsFixed(secs: nat)
    requires secs < YEAR_10000
    ensures var t := DaysToYmd(DayOf(secs)); Fits(t) && ValidDate(t) && Stamp(secs) == DateText(t) + TimeText(secs)
  {
    var t := DaysToYmd(DayOf(secs));
    BeforeYear10000(secs);
    DatesArePositive(DayOf(secs), t);
    Pow10Values();
    PaddedIsFixed(t.y, 4);
    PaddedIsFixed(t.m, 2);
    PaddedIsFixed(t.d, 2);
    PaddedIsFixed((secs / 3600) % 24, 2);
    PaddedIsFixed((secs / 60) % 60, 2);
    PaddedIsFixed(secs % 60, 2);
    JoinFields(Fixed(t.y, 4), Fixed(t.m, 2), Fixed(t.d, 2),
               Fixed((secs / 3600) % 24, 2), Fixed((secs / 60) % 60, 2), Fixed(secs % 60, 2));
  }

  lemma JoinFields(y: string, m: string, d: string, h: string, mi: string, se: string)
    ensures y + "-" + m + "-" + d + "T" + h + ":" + mi + ":" + se + "Z"
         == (y + ("-" + (m + ("-" + d)))) + ("T" + (h + (":" + (mi + (":" + (se + "Z"))))))
  {
    var date := y + ("-" + (m + ("-" + d)));
    assert y + "-" + m + "-" + d == date;
    assert date + "T" + h + ":" + mi + ":" + se + "Z" == date + ("T" + (h + (":" + (mi + (":" + (se + "Z"))))));
  }

  // ----- Text order is time order -----

  lemma SameSeparator(c: char, a: string, b: string)
    ensures Less([c] + a, [c] + b) <==> Less(a, b)
  {
    assert ([c] + a)[1..] == a && ([c] + b)[1..] == b;
  }

  /** Date texts compare as their fields do, and then whatever follows decides. */
  lemma DateThenRest(t: Date, u: Date, a: string, b: string)
    requires Fits(t) && Fits(u)
    ensures Less(DateText(t) + a, DateText(u) + b) <==> DateLess(t, u) || (t == u && Less(a, b))
  {
    Pow10Values();
    var dt, du := Fixed(t.d, 2) + a, Fixed(u.d, 2) + b;
    FieldThenRest(t.d, u.d, 2, a, b);
    MonthThenRest(t, u, dt, du);
    var mt, mu := Fixed(t.m, 2) + ("-" + dt), Fixed(u.m, 2) + ("-" + du);
    SameSeparator('-', mt, mu);
    FieldThenRest(t.y, u.y, 4, "-" + mt, "-" + mu);
    DateTextThen(t, a);
    DateTextThen(u, b);
  }

  lemma DateTextThen(t: Date, a: string)
    requires Fits(t)
    ensures DateText(t) + a == Fixed(t.y, 4) + ("-" + (Fixed(t.m, 2) + ("-" + (Fixed(t.d, 2) + a))))
  {
  }

  lemma MonthThenRest(t: Date, u: Date, dt: string, du: string)
    requires Fits(t) && Fits(u)
    ensures Less(Fixed(t.m, 2) + ("-" + dt), Fixed(u.m, 2) + ("-" + du)) <==> t.m < u.m || (t.m == u.m && Less(dt, du))
  {
    Pow10Values();
    SameSeparator('-', dt, du);
    FieldThenRest(t.m, u.m, 2, "-" + dt, "-" + du);
  }

  lemma TimesCompare(s: nat, t: nat)
    ensures Less(TimeText(s), TimeText(t)) <==> s % SECONDS_PER_DAY < t % SECONDS_PER_DAY
  {
    Pow10Values();
    var hs, ht, ms, mt, ss, st := (s / 3600) % 24, (t / 3600) % 24, (s / 60) % 60, (t / 60) % 60, s % 60, t % 60;
    var ms', mt' := Fixed(ms, 2) + (":" + (Fixed(ss, 2) + "Z")), Fixed(mt, 2) + (":" + (Fixed(st, 2) + "Z"));
    LessIsIrreflexive("Z");
    FieldThenRest(ss, st, 2, "Z", "Z");
    SameSeparator(':', Fixed(ss, 2) + "Z", Fixed(st, 2) + "Z");
    FieldThenRest(ms, mt, 2, ":" + (Fixed(ss, 2) + "Z"), ":" + (Fixed(st, 2) + "Z"));
    SameSeparator(':', ms', mt');
    FieldThenRest(hs, ht, 2, ":" + ms', ":" + mt');
    SameSeparator('T', Fixed(hs, 2) + (":" + ms'), Fixed(ht, 2) + (":" + mt'));
    SecondsOfDay(s);
    SecondsOfDay(t);
  }

  lemma SecondsOfDay(s: nat)
    ensures s % SECONDS_PER_DAY == 3600 * ((s / 3600) % 24) + 60 * ((s / 60) % 60) + s % 60
  {
    var m := s / 60;
    var h := m / 60;
    DivisionIs(s, 3600, h);
    RemainderIs(s, SECONDS_PER_DAY, h / 24, 3600 * (h % 24) + 60 * (m % 60) + s % 60);
  }

  /** Up to the end of year 9999, timestamps sort as text exactly as the instants do. */
  lemma StampsSortAsInstants(s: nat, t: nat)
    requires s < YEAR_10000 && t < YEAR_10000
    ensures Less(Stamp(s), Stamp(t)) <==> s < t
  {
    StampIsFixed(s);
    StampIsFixed(t);
    DateThenRest(DaysToYmd(DayOf(s)), DaysToYmd(DayOf(t)), TimeText(s), TimeText(t));
    TimesCompare(s, t);
    DaysCompare(DayOf(s), DayOf(t), DaysToYmd(DayOf(s)), DaysToYmd(DayOf(t)));
  }

  lemma DaysCompare(a: nat, b: nat, t: Date, u: Date)
    requires t == DaysToYmd(a) && u == DaysToYmd(b) && ValidDate(t) && ValidDate(u)
    ensures DateLess(t, u) <==> a < b
    ensures t == u <==> a == b
  {
    CountReaches(a, t);
    CountReaches(b, u);
    SameOrder(t, u);
  }

  /** The text order is right for all instants below a limit exactly when the limit stays within year 9999. */
  lemma TextOrderHoldsIff(limit: nat)
    ensures (forall s: nat, t: nat | s < limit && t < limit :: Less(Stamp(s), Stamp(t)) <==> s < t)
       <==> limit <= YEAR_10000
  {
    if limit <= YEAR_10000 {
      forall s: nat, t: nat | s < limit && t < limit ensures Less(Stamp(s), Stamp(t)) <==> s < t {
        StampsSortAsInstants(s, t);
      }
    } else {
      Year10000SortsFirst(YEAR_10000, YEAR_10000 - 1);
      assert YEAR_10000 - 1 < limit;
    }
  }

  lemma FirstDayNumber()
    ensures ValidDate(Date(10000, 1, 1)) && DayNumber(Date(10000, 1, 1)) == 2932897
  {
    LastDayNumber();
    NextDayCountsOne(Date(9999, 12, 31));
  }

  lemma StampStartsWithYear(secs: nat, t: Date, c: char)
    requires ValidDate(t) && DayNumber(t) == DayOf(secs) && t.y >= 0
    requires Padded(t.y, 4) != [] && Padded(t.y, 4)[0] == c
    ensures Stamp(secs) != [] && Stamp(secs)[0] == c
  {
    ClosedFormInvertsCount(t);
  }

  lemma FiveDigits(y: nat)
    requires y == 10000
    ensures Padded(y, 4) != [] && Padded(y, 4)[0] == '1'
  {
    assert Digits(10000) == "10000";
  }

  lemma FourDigits(y: nat)
    requires y == 9999
    ensures Padded(y, 4) != [] && Padded(y, 4)[0] == '9'
  {
    assert Digits(9999) == "9999";
  }

  lemma FirstOfYear10000StartsWithOne(secs: nat)
    requires DayOf(secs) == 2932897
    ensures Stamp(secs) != [] && Stamp(secs)[0] == '1'
  {
    FirstDayNumber();
    FiveDigits(10000);
    StampStartsWithYear(secs, Date(10000, 1, 1), '1');
  }

  lemma LastOfYear9999StartsWithNine(secs: nat)
    requires DayOf(secs) == 2932896
    ensures Stamp(secs) != [] && Stamp(secs)[0] == '9'
  {
    LastDayNumber();
    FourDigits(9999);
    StampStartsWithYear(secs, Date(9999, 12, 31), '9');
  }

  /** From year 10000 on the text grows a digit and sorts before everything of year 9999. */
  lemma Year10000SortsFirst(first: nat, last: nat)
    requires first == YEAR_10000 && last == YEAR_10000 - 1
    ensures Less(Stamp(first), Stamp(last))
  {
    FirstOfYear10000StartsWithOne(first);
    LastOfYear9999StartsWithNine(last);
  }

  // ----- The date filter -----

  /** Ten characters, digits with hyphens in the right places. */
  predicate ValidateDateFormat(s: string) {
    && |s| == 10
    && s[4] == '-'
    && s[7] == '-'
    && (forall c | c in s[..4] :: IsDigit(c))
    && (forall c | c in s[5..7] :: IsDigit(c))
    && (forall c | c in s[8..10] :: IsDigit(c))
  }

  /** The three numbers of an accepted text. */
  function DateOf(s: string): Date
    requires ValidateDateFormat(s)
  {
    Date(Value(s[..4]), Value(s[5..7]), Value(s[8..10]))
  }

  /** The accepted texts are exactly the fixed-width dates, whether or not they are in the calendar. */
  lemma ValidateDateFormatIsExact(s: string)
    ensures ValidateDateFormat(s) <==> exists t: Date :: Fits(t) && s == DateText(t)
  {
    if ValidateDateFormat(s) {
      ReadDate(s);
    }
    if t: Date :| Fits(t) && s == DateText(t) {
      FixedIsDigits(t.y, 4);
      FixedIsDigits(t.m, 2);
      FixedIsDigits(t.d, 2);
      assert s[..4] == Fixed(t.y, 4) && s[5..7] == Fixed(t.m, 2) && s[8..10] == Fixed(t.d, 2);
    }
  }

  /** Reading an accepted text and writing the date again gives the text back. */
  lemma ReadDate(s: string)
    requires ValidateDateFormat(s)
    ensures Fits(DateOf(s)) && s == DateText(DateOf(s))
  {
    Pow10Values();
    FixedOfValue(s[..4]);
    FixedOfValue(s[5..7]);
    FixedOfValue(s[8..10]);
    PartsOfDate(s);
  }

  lemma PartsOfDate(s: string)
    requires ValidateDateFormat(s)
    ensures s == s[..4] + ("-" + (s[5..7] + ("-" + s[8..10])))
  {
  }

  /** The two text tests of the filter: not before the first date, and not after the last second of the second date. */
  predicate FromTest(stamp: string, from: string) {
    !Less(stamp, from)
  }

  predicate ToTest(stamp: string, to: string) {
    !Less(to + "T23:59:59Z", stamp)
  }

  /**
   The text tests select exactly the entries whose UTC date lies between the two given dates,
   compared field by field; the given dates need not exist in the calendar.
   */
  lemma FilterSelectsDates(secs: nat, from: Date, to: Date)
    requires secs < YEAR_10000 && Fits(from) && Fits(to)
    ensures FromTest(Stamp(secs), DateText(from)) <==> !DateLess(DaysToYmd(DayOf(secs)), from)
    ensures ToTest(Stamp(secs), DateText(to)) <==> !DateLess(to, DaysToYmd(DayOf(secs)))
  {
    var t := DaysToYmd(DayOf(secs));
    StampIsFixed(secs);
    DateThenRest(t, from, TimeText(secs), "");
    assert DateText(from) + "" == DateText(from);
    DateThenRest(to, t, "T23:59:59Z", TimeText(secs));
    LastSecond(86399);
    TimesCompare(86399, secs);
  }

  lemma TwoDigits()
    ensures Fixed(23, 2) == "23" && Fixed(59, 2) == "59"
  {
  }

  lemma LastSecond(secs: nat)
    requires secs == 86399
    ensures TimeText(secs) == "T23:59:59Z"
  {
    assert (secs / 3600) % 24 == 23 && (secs / 60) % 60 == 59 && secs % 60 == 59;
    TwoDigits();
  }

  /** With calendar dates this is a range of day numbers: the entry's UTC day lies in [from, to]. */
  lemma FilterSelectsDays(secs: nat, from: Date, to: Date)
    requires secs < YEAR_10000 && Fits(from) && Fits(to) && ValidDate(from) && ValidDate(to)
    ensures FromTest(Stamp(secs), DateText(from)) && ToTest(Stamp(secs), DateText(to))
       <==> DayNumber(from) <= DayOf(secs) <= DayNumber(to)
  {
    var t := DaysToYmd(DayOf(secs));
    FilterSelectsDates(secs, from, to);
    StampIsFixed(secs);
    CountReaches(DayOf(secs), t);
    SameOrder(t, from);
    SameOrder(to, t);
  }
}
