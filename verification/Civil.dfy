/** Civil-from-days date printing, as the mailer's `iso8601` does it. */
module Civil {
  import opened Text

  datatype Date = Date(year: int, month: int, day: int)

  // ---- The Gregorian calendar, from its own rules ------------------------------

  /** The leap rule of Appendix C of RFC 3339. */
  predicate Leap(year: int) {
    year % 4 == 0 && (year % 100 != 0 || year % 400 == 0)
  }

  function MonthLength(year: int, month: int): int {
    if month == 2 then (if Leap(year) then 29 else 28)
    else if month in {4, 6, 9, 11} then 30
    else 31
  }

  predicate ValidDate(date: Date) {
    && 1 <= date.month <= 12
    && 1 <= date.day <= MonthLength(date.year, date.month)
  }

  /** The calendar day after `date`. */
  function NextDate(date: Date): Date {
    if date.day < MonthLength(date.year, date.month) then date.(day := date.day + 1)
    else if date.month < 12 then Date(date.year, date.month + 1, 1)
    else Date(date.year + 1, 1, 1)
  }

  function YearLength(year: int): int {
    if Leap(year) then 366 else 365
  }

  /** Days from 1 January 1970 to 1 January of `year`, counted year by year. */
  function DaysToYear(year: int): int
    decreases if year < 1970 then 1970 - year else year - 1970
  {
    if year == 1970 then 0
    else if year > 1970 then DaysToYear(year - 1) + YearLength(year - 1)
    else DaysToYear(year + 1) - YearLength(year)
  }

  /** Days from 1 January to the first of `month`, counted month by month. */
  function DaysToMonth(year: int, month: int): int
    decreases month
  {
    if month <= 1 then 0 else DaysToMonth(year, month - 1) + MonthLength(year, month - 1)
  }

  /** Days since 1 January 1970, the reference the printed date is checked against. */
  function DayNumber(date: Date): int {
    DaysToYear(date.year) + DaysToMonth(date.year, date.month) + date.day - 1
  }

  lemma NextDayNumber(date: Date)
    requires ValidDate(date)
    ensures DayNumber(NextDate(date)) == DayNumber(date) + 1
  {
    if date.day == MonthLength(date.year, date.month) && date.month == 12 {
      MonthsMakeYear(date.year);
      assert DaysToMonth(date.year + 1, 1) == 0;
      assert DaysToYear(date.year + 1) == DaysToYear(date.year) + YearLength(date.year);
    }
  }

  lemma MonthsMakeYear(year: int)
    ensures DaysToMonth(year, 12) + MonthLength(year, 12) == YearLength(year)
  {
    assert DaysToMonth(year, 2) == 31;
    assert DaysToMonth(year, 3) == 31 + MonthLength(year, 2);
    assert DaysToMonth(year, 5) == DaysToMonth(year, 3) + 61;
    assert DaysToMonth(year, 7) == DaysToMonth(year, 5) + 61;
    assert DaysToMonth(year, 9) == DaysToMonth(year, 7) + 62;
    assert DaysToMonth(year, 11) == DaysToMonth(year, 9) + 61;
  }

  // ---- The mailer's arithmetic ---------------------------------------------------

  /** The year within an era of 400 years that begin on 1 March. */
  function YearOfEra(doe: int): int {
    (doe - doe / 1460 + doe / 36524 - doe / 146096) / 365
  }

  function DayOfYear(doe: int): int {
    var yoe := YearOfEra(doe);
    doe - (365 * yoe + yoe / 4 - yoe / 100)
  }

  /** The date the mailer computes for a day count since 1970. */
  function CivilFromDays(days: int): Date {
    var z := days + 719468;
    var era := z / 146097;
    var doe := z - era * 146097;
    var yoe := YearOfEra(doe);
    var doy := DayOfYear(doe);
    var mp := (5 * doy + 2) / 153;
    var day := doy - (153 * mp + 2) / 5 + 1;
    var month := if mp < 10 then mp + 3 else mp - 9;
    Date(yoe + era * 400 + (if month <= 2 then 1 else 0), month, day)
  }

  /** Days from the start of an era to 1 March of its year `yoe`. */
  function MarchStart(yoe: int): int {
    365 * yoe + yoe / 4 - yoe / 100 + yoe / 400
  }

  lemma MarchStep(yoe: int)
    ensures MarchStart(yoe + 1) - MarchStart(yoe) == YearLength(yoe + 1)
  {
    Quarters(yoe + 1);
    assert (yoe + 1) / 4 - yoe / 4 == if (yoe + 1) % 4 == 0 then 1 else 0;
    assert (yoe + 1) / 100 - yoe / 100 == if (yoe + 1) % 100 == 0 then 1 else 0;
    assert (yoe + 1) / 400 - yoe / 400 == if (yoe + 1) % 400 == 0 then 1 else 0;
  }

  /** A century is a multiple of four, and 400 years a multiple of a century. */
  lemma Quarters(year: int)
    ensures year % 100 == 0 ==> year % 4 == 0
    ensures year % 400 == 0 ==> year % 100 == 0
  {
    assert year % 100 == 0 ==> year == 4 * (25 * (year / 100));
    assert year % 400 == 0 ==> year == 100 * (4 * (year / 400));
  }

  lemma MarchMonotone(a: int, b: int)
    requires a <= b
    ensures MarchStart(a) + 365 * (b - a) <= MarchStart(b)
    decreases b - a
  {
    if a < b { MarchMonotone(a, b - 1); MarchStep(b - 1); }
  }

  /** Splits a day of an era into century, four-year group, year and day. */
  lemma SplitDay(doe: int) returns (c: int, q: int, r: int, doy: int)
    requires 0 <= doe < 146097
    ensures 0 <= c <= 3 && 0 <= q <= 24 && 0 <= r <= 3 && 0 <= doy <= 365
    ensures doy == 365 ==> r == 3 && (q < 24 || c == 3)
    ensures doe == 36524 * c + 1461 * q + 365 * r + doy
  {
    c := if doe == 146096 then 3 else doe / 36524;
    var inCentury := doe - 36524 * c;
    q := inCentury / 1461;
    var inGroup := inCentury - 1461 * q;
    r := if inGroup == 1460 then 3 else inGroup / 365;
    doy := inGroup - 365 * r;
  }

  /** The closed form for the year finds the year the day lies in. */
  lemma YearOfEraFound(doe: int, c: int, q: int, r: int, doy: int)
    requires 0 <= c <= 3 && 0 <= q <= 24 && 0 <= r <= 3 && 0 <= doy <= 365
    requires doy == 365 ==> r == 3 && (q < 24 || c == 3)
    requires doe == 36524 * c + 1461 * q + 365 * r + doy
    ensures YearOfEra(doe) == 100 * c + 4 * q + r
    ensures DayOfYear(doe) == doy
  {
    var rest := 24 * c + q + 365 * r + doy;
    assert doe == 1460 * (25 * c + q) + rest;
    var e := if rest >= 1460 then 1 else 0;
    assert doe / 1460 == 25 * c + q + e;
    var last := if doe == 146096 then 1 else 0;
    assert doe / 146096 == last;
    assert doe / 36524 == c + last;
    var y := 100 * c + 4 * q + r;
    assert doe - doe / 1460 + doe / 36524 - doe / 146096 == 365 * y + (doy - e);
    assert 0 <= doy - e <= 364;
    assert YearOfEra(doe) == y;
    assert y / 4 == 25 * c + q;
    assert y / 100 == c;
  }

  lemma YearOfEraBounds(doe: int)
    requires 0 <= doe < 146097
    ensures var yoe := YearOfEra(doe);
            && 0 <= yoe <= 399
            && 0 <= DayOfYear(doe) < YearLength(yoe + 1)
            && MarchStart(yoe) <= doe < MarchStart(yoe + 1)
            && DayOfYear(doe) == doe - MarchStart(yoe)
  {
    var c, q, r, doy := SplitDay(doe);
    YearOfEraFound(doe, c, q, r, doy);
    var yoe := 100 * c + 4 * q + r;
    if doy == 365 {
      assert (yoe + 1) % 4 == 0;
      assert q < 24 ==> (yoe + 1) % 100 != 0;
      assert Leap(yoe + 1);
    }
    MarchStep(yoe);
  }

  /** The next day of an era, in the same year or on the next 1 March. */
  lemma YearOfEraStep(doe: int)
    requires 0 <= doe < 146096
    ensures var yoe := YearOfEra(doe);
            if DayOfYear(doe) + 1 < YearLength(yoe + 1)
            then YearOfEra(doe + 1) == yoe && DayOfYear(doe + 1) == DayOfYear(doe) + 1
            else YearOfEra(doe + 1) == yoe + 1 && DayOfYear(doe + 1) == 0
  {
    YearOfEraBounds(doe);
    YearOfEraBounds(doe + 1);
    hide YearOfEra, DayOfYear;
    var a, b := YearOfEra(doe), YearOfEra(doe + 1);
    MarchStep(a);
    if b < a { MarchMonotone(b + 1, a); assert false; }
    if b > a + 1 { MarchMonotone(a + 1, b); MarchMonotone(a + 2, b); MarchStep(a + 1); assert false; }
    if b == a + 1 { assert doe + 1 >= MarchStart(a + 1); }
  }

  /** The date of day `doy` of the March year that starts in `year`. */
  function MarchDate(year: int, doy: int): Date {
    var mp := (5 * doy + 2) / 153;
    var month := if mp < 10 then mp + 3 else mp - 9;
    Date(if month <= 2 then year + 1 else year, month, doy - (153 * mp + 2) / 5 + 1)
  }

  lemma MarchDateValid(year: int, doy: int)
    requires 0 <= doy < YearLength(year + 1)
    ensures ValidDate(MarchDate(year, doy))
  {
  }

  /** Days from 1 March to the first of the month `mp` months later. */
  function MonthStart(mp: int): int {
    (153 * mp + 2) / 5
  }

  function MonthOf(mp: int): int {
    if mp < 10 then mp + 3 else mp - 9
  }

  lemma MonthFound(doy: int)
    requires 0 <= doy <= 365
    ensures var mp := (5 * doy + 2) / 153;
            0 <= mp <= 11 && MonthStart(mp) <= doy && doy < MonthStart(mp + 1)
  {
  }

  lemma MonthSpan(year: int, mp: int)
    requires 0 <= mp <= 10
    ensures MonthStart(mp + 1) - MonthStart(mp) == MonthLength(year, MonthOf(mp))
  {
    assert mp in {0, 1, 2, 3, 4, 5, 6, 7, 8, 9, 10};
  }

  lemma MarchDateNext(year: int, doy: int)
    requires 0 <= doy < YearLength(year + 1)
    ensures NextDate(MarchDate(year, doy))
         == if doy + 1 < YearLength(year + 1) then MarchDate(year, doy + 1) else MarchDate(year + 1, 0)
  {
    var mp := (5 * doy + 2) / 153;
    var date := MarchDate(year, doy);
    MonthFound(doy);
    assert date.month == MonthOf(mp) && date.day == doy - MonthStart(mp) + 1;
    if mp <= 10 { MonthSpan(date.year, mp); } else { assert MonthStart(11) == 337; }
    if doy + 1 < YearLength(year + 1) {
      var next := (5 * (doy + 1) + 2) / 153;
      MonthFound(doy + 1);
      assert MarchDate(year, doy + 1).month == MonthOf(next)
             && MarchDate(year, doy + 1).day == doy + 1 - MonthStart(next) + 1;
      hide MarchDate, Leap;
      StartsApart(mp, next, doy);
    } else {
      assert MarchDate(year + 1, 0) == Date(year + 1, 3, 1);
    }
  }

  lemma StartsApart(mp: int, next: int, doy: int)
    requires 0 <= mp <= 11 && 0 <= next <= 11
    requires MonthStart(mp) <= doy < MonthStart(mp + 1)
    requires MonthStart(next) <= doy + 1 < MonthStart(next + 1)
    ensures if doy + 1 == MonthStart(mp + 1) then next == mp + 1 else next == mp
  {
  }

  lemma EraYears(era: int, yoe: int)
    ensures Leap(yoe + 400 * era) == Leap(yoe)
    ensures YearLength(yoe + 400 * era) == YearLength(yoe)
  {
    var year := yoe + 400 * era;
    assert year / 400 == yoe / 400 + era;
    assert year / 100 == yoe / 100 + 4 * era;
    assert year / 4 == yoe / 4 + 100 * era;
    assert year % 400 == yoe % 400;
    assert year % 100 == yoe % 100;
    assert year % 4 == yoe % 4;
  }

  /** A March year and a day of it. */
  datatype MarchDay = MarchDay(year: int, doy: int)

  predicate InYear(at: MarchDay) {
    0 <= at.doy < YearLength(at.year + 1)
  }

  function MarchDayOf(era: int, doe: int): MarchDay {
    MarchDay(YearOfEra(doe) + era * 400, DayOfYear(doe))
  }

  function NextMarchDay(at: MarchDay): MarchDay {
    if at.doy + 1 < YearLength(at.year + 1) then at.(doy := at.doy + 1) else MarchDay(at.year + 1, 0)
  }

  lemma MarchDayInYear(era: int, doe: int)
    requires 0 <= doe < 146097
    ensures InYear(MarchDayOf(era, doe))
  {
    YearOfEraBounds(doe);
    EraYears(era, YearOfEra(doe) + 1);
  }

  lemma MarchDayStep(era: int, doe: int)
    requires 0 <= doe < 146096
    ensures MarchDayOf(era, doe + 1) == NextMarchDay(MarchDayOf(era, doe))
  {
    EraYears(era, YearOfEra(doe) + 1);
    YearOfEraStep(doe);
  }

  lemma MarchDayNextEra(era: int)
    ensures MarchDayOf(era + 1, 0) == NextMarchDay(MarchDayOf(era, 146096))
  {
    hide YearOfEra, DayOfYear;
    EraYears(era, 400);
    YearOfEraFound(146096, 3, 24, 3, 365);
    YearOfEraFound(0, 0, 0, 0, 0);
  }

  lemma CivilIsMarchDate(days: int)
    ensures var at := MarchDayOf((days + 719468) / 146097, (days + 719468) % 146097);
            CivilFromDays(days) == MarchDate(at.year, at.doy)
  {
  }

  /** Counting one day on moves to the next day of the March year. */
  lemma EraStep(z: int)
    ensures MarchDayOf((z + 1) / 146097, (z + 1) % 146097) == NextMarchDay(MarchDayOf(z / 146097, z % 146097))
  {
    var era, doe := z / 146097, z % 146097;
    if doe < 146096 {
      assert (z + 1) / 146097 == era && (z + 1) % 146097 == doe + 1;
      MarchDayStep(era, doe);
    } else {
      assert (z + 1) / 146097 == era + 1 && (z + 1) % 146097 == 0;
      MarchDayNextEra(era);
    }
  }

  /** Every day count gives a date the calendar has. */
  lemma CivilValid(days: int)
    ensures ValidDate(CivilFromDays(days))
  {
    CivilIsMarchDate(days);
    var z := days + 719468;
    MarchDayInYear(z / 146097, z % 146097);
    var at := MarchDayOf(z / 146097, z % 146097);
    MarchDateValid(at.year, at.doy);
  }

  /** Counting one day on moves the date to the next day of the calendar. */
  lemma CivilStep(days: int)
    ensures CivilFromDays(days + 1) == NextDate(CivilFromDays(days))
  {
    hide CivilFromDays, MarchDate, NextDate, YearOfEra, DayOfYear, MarchDayOf;
    CivilIsMarchDate(days);
    CivilIsMarchDate(days + 1);
    var z := days + 719468;
    EraStep(z);
    MarchDayInYear(z / 146097, z % 146097);
    var at := MarchDayOf(z / 146097, z % 146097);
    MarchDateNext(at.year, at.doy);
  }

  lemma CivilEpoch()
    ensures CivilFromDays(0) == Date(1970, 1, 1)
    ensures DayNumber(CivilFromDays(0)) == 0
  {
  }

  /** The computed date is the one whose day count is `days`. */
  lemma {:induction false} CivilCounts(days: int)
    ensures ValidDate(CivilFromDays(days))
    ensures DayNumber(CivilFromDays(days)) == days
    decreases if days < 0 then -days else days
  {
    hide CivilFromDays, DayNumber, NextDate, ValidDate;
    CivilValid(days);
    if days == 0 {
      CivilEpoch();
    } else if days > 0 {
      CivilCounts(days - 1);
      CivilStep(days - 1);
      NextDayNumber(CivilFromDays(days - 1));
    } else {
      CivilCounts(days + 1);
      CivilStep(days);
      NextDayNumber(CivilFromDays(days));
    }
  }

  // ---- Order of dates -----------------------------------------------------------------

  predicate Before(a: Date, b: Date) {
    || a.year < b.year
    || (a.year == b.year && a.month < b.month)
    || (a.year == b.year && a.month == b.month && a.day < b.day)
  }

  /** Later day counts give later dates. */
  lemma {:induction false} CivilOrder(a: int, b: int)
    requires a < b
    ensures Before(CivilFromDays(a), CivilFromDays(b))
    decreases b - a
  {
    hide CivilFromDays;
    CivilValid(b - 1);
    CivilStep(b - 1);
    if a < b - 1 { CivilOrder(a, b - 1); }
  }

  // ---- The printed text ------------------------------------------------------------------

  const MAX_TIME_MS := 253402300799999

  function DateText(date: Date): string {
    Pad(date.year, 4) + ("-" + (Pad(date.month, 2) + ("-" + Pad(date.day, 2))))
  }

  function ClockText(hour: int, minute: int, second: int, millis: int): string {
    Pad(hour, 2) + (":" + (Pad(minute, 2) + (":" + (Pad(second, 2) + ("." + Pad(millis, 3))))))
  }

  /** The text the mailer prints for Unix milliseconds (section 5.6 of RFC 3339). */
  function Iso8601(ms: int): string {
    var secs, millis := ms / 1000, ms % 1000;
    var days, rem := secs / 86400, secs % 86400;
    var hour, minute, second := rem / 3600, rem % 3600 / 60, rem % 60;
    DateText(CivilFromDays(days)) + ("T" + (ClockText(hour, minute, second, millis) + "Z"))
  }

  lemma DateTextOrder(a: Date, b: Date)
    requires ValidDate(a) && ValidDate(b) && 0 <= a.year <= 9999 && 0 <= b.year <= 9999
    requires Before(a, b)
    ensures TextLess(DateText(a), DateText(b))
  {
    assert Pow10(2) == 100 && Pow10(4) == 10000;
    var dayA, dayB := Pad(a.day, 2), Pad(b.day, 2);
    if a.year == b.year {
      if a.month == b.month {
        FieldOrder(2, a.day, b.day, "", "");
        assert dayA + "" == dayA && dayB + "" == dayB;
        TextLessTail("-", dayA, dayB);
      }
      FieldOrder(2, a.month, b.month, "-" + dayA, "-" + dayB);
      TextLessTail("-", Pad(a.month, 2) + ("-" + dayA), Pad(b.month, 2) + ("-" + dayB));
    }
    FieldOrder(4, a.year, b.year, "-" + (Pad(a.month, 2) + ("-" + dayA)), "-" + (Pad(b.month, 2) + ("-" + dayB)));
  }

  datatype Clock = Clock(hour: int, minute: int, second: int, millis: int)

  predicate ValidClock(c: Clock) {
    0 <= c.hour < 24 && 0 <= c.minute < 60 && 0 <= c.second < 60 && 0 <= c.millis < 1000
  }

  predicate Earlier(a: Clock, b: Clock) {
    || a.hour < b.hour
    || (a.hour == b.hour && a.minute < b.minute)
    || (a.hour == b.hour && a.minute == b.minute && a.second < b.second)
    || (a.hour == b.hour && a.minute == b.minute && a.second == b.second && a.millis < b.millis)
  }

  function TextOf(c: Clock): string {
    ClockText(c.hour, c.minute, c.second, c.millis)
  }

  lemma ClockTextOrder(a: Clock, b: Clock)
    requires ValidClock(a) && ValidClock(b) && Earlier(a, b)
    ensures TextLess(TextOf(a), TextOf(b))
  {
    assert Pow10(2) == 100 && Pow10(3) == 1000;
    var msA, msB := Pad(a.millis, 3), Pad(b.millis, 3);
    var secA, secB := Pad(a.second, 2) + ("." + msA), Pad(b.second, 2) + ("." + msB);
    var minA, minB := Pad(a.minute, 2) + (":" + secA), Pad(b.minute, 2) + (":" + secB);
    if a.hour == b.hour {
      if a.minute == b.minute {
        if a.second == b.second {
          FieldOrder(3, a.millis, b.millis, "", "");
          assert msA + "" == msA && msB + "" == msB;
          TextLessTail(".", msA, msB);
        }
        FieldOrder(2, a.second, b.second, "." + msA, "." + msB);
        TextLessTail(":", secA, secB);
      }
      FieldOrder(2, a.minute, b.minute, ":" + secA, ":" + secB);
      TextLessTail(":", minA, minB);
    }
    FieldOrder(2, a.hour, b.hour, ":" + minA, ":" + minB);
  }

  lemma DateTextLength(d: Date)
    requires ValidDate(d) && 0 <= d.year <= 9999
    ensures |DateText(d)| == 10
  {
    assert Pow10(2) == 100 && Pow10(4) == 10000;
    PadIsFixed(d.year, 4);
    PadIsFixed(d.month, 2);
    PadIsFixed(d.day, 2);
  }

  lemma ClockTextLength(c: Clock)
    requires ValidClock(c)
    ensures |TextOf(c)| == 12
  {
    assert Pow10(2) == 100 && Pow10(3) == 1000;
    PadIsFixed(c.hour, 2);
    PadIsFixed(c.minute, 2);
    PadIsFixed(c.second, 2);
    PadIsFixed(c.millis, 3);
  }

  /** The day count and the time of day of a Unix time. */
  function DaysOf(ms: int): int {
    ms / 1000 / 86400
  }

  function ClockOf(ms: int): Clock {
    var rem := ms / 1000 % 86400;
    Clock(rem / 3600, rem % 3600 / 60, rem % 60, ms % 1000)
  }

  lemma IsoParts(ms: int)
    ensures Iso8601(ms) == DateText(CivilFromDays(DaysOf(ms))) + ("T" + (TextOf(ClockOf(ms)) + "Z"))
    ensures ValidClock(ClockOf(ms))
  {
    hide CivilFromDays, DateText, ClockText;
  }

  lemma ClockOrder(a: int, b: int)
    requires a < b && DaysOf(a) >= DaysOf(b)
    ensures DaysOf(a) == DaysOf(b) && Earlier(ClockOf(a), ClockOf(b))
  {
    var secA, secB := a / 1000, b / 1000;
    assert secA <= secB;
    var remA, remB := secA % 86400, secB % 86400;
    assert DaysOf(a) == DaysOf(b);
    assert remB - remA == secB - secA;
    assert remA == 3600 * (remA / 3600) + 60 * (remA % 3600 / 60) + remA % 60 by { SixtyTwice(remA); }
    assert remB == 3600 * (remB / 3600) + 60 * (remB % 3600 / 60) + remB % 60 by { SixtyTwice(remB); }
  }

  lemma SixtyTwice(rem: int)
    ensures rem == 3600 * (rem / 3600) + 60 * (rem % 3600 / 60) + rem % 60
    ensures 0 <= rem % 3600 / 60 < 60
  {
    var inHour := rem % 3600;
    assert rem == 60 * (60 * (rem / 3600) + inHour / 60) + inHour % 60;
  }

  /** Four-digit years: 1970 to 9999 for every time the domain accepts. */
  lemma YearInRange(ms: int)
    requires 0 <= ms <= MAX_TIME_MS
    ensures 1970 <= CivilFromDays(DaysOf(ms)).year <= 9999
  {
    var days := DaysOf(ms);
    LastDay();
    CivilEpoch();
    hide CivilFromDays;
    assert 0 <= days <= 2932896;
    if 0 < days { CivilOrder(0, days); }
    if days < 2932896 { CivilOrder(days, 2932896); }
  }

  lemma LastDay()
    ensures CivilFromDays(2932896) == Date(9999, 12, 31)
  {
    CivilIsMarchDate(2932896);
    YearOfEraFound(146036, 3, 24, 3, 305);
    hide CivilFromDays, YearOfEra, DayOfYear;
    assert 3652364 / 146097 == 24 && 3652364 % 146097 == 146036;
  }

  /** Later times print later text, so no two times share a text. */
  lemma IsoOrder(a: int, b: int)
    requires 0 <= a < b <= MAX_TIME_MS
    ensures TextLess(Iso8601(a), Iso8601(b)) && Iso8601(a) != Iso8601(b)
  {
    IsoParts(a);
    IsoParts(b);
    YearInRange(a);
    YearInRange(b);
    hide CivilFromDays, Iso8601, DateText, ClockText, ClockOf;
    var dateA, dateB := CivilFromDays(DaysOf(a)), CivilFromDays(DaysOf(b));
    CivilValid(DaysOf(a));
    CivilValid(DaysOf(b));
    DateTextLength(dateA);
    DateTextLength(dateB);
    var timeA, timeB := TextOf(ClockOf(a)), TextOf(ClockOf(b));
    if DaysOf(a) < DaysOf(b) {
      CivilOrder(DaysOf(a), DaysOf(b));
      DateTextOrder(dateA, dateB);
    } else {
      ClockOrder(a, b);
      ClockTextOrder(ClockOf(a), ClockOf(b));
      ClockTextLength(ClockOf(a));
      ClockTextLength(ClockOf(b));
      TextLessHead(timeA, timeB, "Z", "Z");
      TextLessTail("T", timeA + "Z", timeB + "Z");
    }
    TextLessPair(DateText(dateA), DateText(dateB), "T" + (timeA + "Z"), "T" + (timeB + "Z"));
    LessIrreflexive(Codes(Iso8601(a)));
  }

  /** Every accepted time prints in exactly 24 characters. */
  lemma IsoLength(ms: int)
    requires 0 <= ms <= MAX_TIME_MS
    ensures |Iso8601(ms)| == 24
  {
    IsoParts(ms);
    YearInRange(ms);
    hide CivilFromDays, Iso8601;
    CivilValid(DaysOf(ms));
    DateTextLength(CivilFromDays(DaysOf(ms)));
    ClockTextLength(ClockOf(ms));
  }

  /** The date and the clock that 24 characters spell. */
  function DateIn(text: string): Date
    requires |text| == 24
  {
    Date(Number(text[0..4]), Number(text[5..7]), Number(text[8..10]))
  }

  function ClockIn(text: string): Clock
    requires |text| == 24
  {
    Clock(Number(text[11..13]), Number(text[14..16]), Number(text[17..19]), Number(text[20..23]))
  }

  predicate Spelled(text: string) {
    && |text| == 24
    && text[4] == '-' && text[7] == '-' && text[10] == 'T' && text[13] == ':' && text[16] == ':' && text[19] == '.'
    && text[23] == 'Z'
    && Digits(text[0..4]) && Digits(text[5..7]) && Digits(text[8..10]) && Digits(text[11..13])
    && Digits(text[14..16]) && Digits(text[17..19]) && Digits(text[20..23])
  }

  lemma DateTextReads(d: Date)
    requires ValidDate(d) && 0 <= d.year <= 9999
    ensures var t := DateText(d);
            && |t| == 10 && t[4] == '-' && t[7] == '-'
            && Digits(t[0..4]) && Digits(t[5..7]) && Digits(t[8..10])
            && Number(t[0..4]) == d.year && Number(t[5..7]) == d.month && Number(t[8..10]) == d.day
  {
    assert Pow10(2) == 100 && Pow10(4) == 10000;
    PadReads(d.year, 4);
    PadReads(d.month, 2);
    PadReads(d.day, 2);
    hide Pad, Number, Digits;
    var t := DateText(d);
    assert t[0..4] == Pad(d.year, 4) && t[5..7] == Pad(d.month, 2) && t[8..10] == Pad(d.day, 2);
  }

  lemma ClockTextReads(c: Clock)
    requires ValidClock(c)
    ensures var t := TextOf(c);
            && |t| == 12 && t[2] == ':' && t[5] == ':' && t[8] == '.'
            && Digits(t[0..2]) && Digits(t[3..5]) && Digits(t[6..8]) && Digits(t[9..12])
            && Number(t[0..2]) == c.hour && Number(t[3..5]) == c.minute && Number(t[6..8]) == c.second
            && Number(t[9..12]) == c.millis
  {
    assert Pow10(2) == 100 && Pow10(3) == 1000;
    PadReads(c.hour, 2);
    PadReads(c.minute, 2);
    PadReads(c.second, 2);
    PadReads(c.millis, 3);
    hide Pad, Number, Digits;
    ClockLayout(Pad(c.hour, 2), Pad(c.minute, 2), Pad(c.second, 2), Pad(c.millis, 3));
  }

  lemma ClockLayout(h: string, m: string, s: string, l: string)
    requires |h| == |m| == |s| == 2 && |l| == 3
    ensures var t := h + (":" + (m + (":" + (s + ("." + l)))));
            && |t| == 12 && t[2] == ':' && t[5] == ':' && t[8] == '.'
            && t[0..2] == h && t[3..5] == m && t[6..8] == s && t[9..12] == l
  {
    var t := h + (":" + (m + (":" + (s + ("." + l)))));
    assert t == [h[0], h[1], ':', m[0], m[1], ':', s[0], s[1], '.', l[0], l[1], l[2]];
  }

  lemma IsoLayout(t: string, u: string)
    requires |t| == 10 && |u| == 12
    ensures var text := t + ("T" + (u + "Z"));
            && |text| == 24 && text[10] == 'T' && text[23] == 'Z'
            && (forall i :: 0 <= i < 10 ==> text[i] == t[i]) && (forall i :: 0 <= i < 12 ==> text[i + 11] == u[i])
            && text[0..4] == t[0..4] && text[5..7] == t[5..7] && text[8..10] == t[8..10]
            && text[11..13] == u[0..2] && text[14..16] == u[3..5] && text[17..19] == u[6..8] && text[20..23] == u[9..12]
  {
  }

  lemma ClockCounts(ms: int)
    ensures var c := ClockOf(ms);
            ms == DaysOf(ms) * 86400000 + ((c.hour * 60 + c.minute) * 60 + c.second) * 1000 + c.millis
  {
    SixtyTwice(ms / 1000 % 86400);
  }

  /**
   * Every accepted time prints as the digits of a valid date and clock, in the layout of
   * RFC 3339, which count back to that very millisecond.
   */
  lemma IsoReads(ms: int)
    requires 0 <= ms <= 253402300799999
    ensures var text := Iso8601(ms);
            && Spelled(text) && ValidDate(DateIn(text)) && ValidClock(ClockIn(text))
            && var c := ClockIn(text);
               ms == DayNumber(DateIn(text)) * 86400000 + ((c.hour * 60 + c.minute) * 60 + c.second) * 1000 + c.millis
  {
    IsoParts(ms);
    YearInRange(ms);
    CivilCounts(DaysOf(ms));
    ClockCounts(ms);
    hide CivilFromDays, Iso8601, DateText, ClockText, ClockOf, DaysOf, DayNumber, Number, Digits;
    var d, c := CivilFromDays(DaysOf(ms)), ClockOf(ms);
    DateTextReads(d);
    ClockTextReads(c);
    var text, u := Iso8601(ms), TextOf(c);
    hide TextOf;
    IsoLayout(DateText(d), u);
    assert text[13] == u[2] && text[16] == u[5] && text[19] == u[8];
    assert DateIn(text) == d && ClockIn(text) == c;
  }
}
