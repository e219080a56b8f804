/**
 * The closed-form calendar conversion behind the agent's ISO 8601 timestamps, against the
 * Gregorian calendar counted out year by year and month by month.
 */
module Calendar {
  import opened Prelude
  import Decimal

  datatype Date = Date(year: int, month: int, day: int)

  // ----------------------------------------------------- the calendar, counted out

  /** The leap year rule of Appendix C of RFC 3339. */
  predicate IsLeap(year: int) { year % 4 == 0 && (year % 100 != 0 || year % 400 == 0) }

  function YearLength(year: int): nat { if IsLeap(year) then 366 else 365 }

  function MonthLength(year: int, month: int): nat {
    if month == 2 then (if IsLeap(year) then 29 else 28)
    else if month == 4 || month == 6 || month == 9 || month == 11 then 30
    else 31
  }

  predicate IsDate(d: Date) {
    1 <= d.month <= 12 && 1 <= d.day <= MonthLength(d.year, d.month)
  }

  /** Days from 1 January 1970 to 1 January of `year`. */
  function DaysBeforeYear(year: int): nat
    requires year >= 1970
    decreases year
  {
    if year == 1970 then 0 else DaysBeforeYear(year - 1) + YearLength(year - 1)
  }

  /** Days from 1 January to the first of `month`. */
  function DaysBeforeMonth(year: int, month: int): nat
    requires 1 <= month <= 13
    decreases month
  {
    if month == 1 then 0 else DaysBeforeMonth(year, month - 1) + MonthLength(year, month - 1)
  }

  /** Days since the epoch, counted. */
  function DayNumber(d: Date): int
    requires IsDate(d) && d.year >= 1970
  {
    DaysBeforeYear(d.year) + DaysBeforeMonth(d.year, d.month) + d.day - 1
  }

  // ------------------------------------------------------------- the closed form

  /** Signed division as the source has it, toward zero. */
  function TruncDiv(a: int, b: int): int
    requires b > 0
  {
    if a >= 0 then a / b else -((-a) / b)
  }

  function YearOfEra(dayOfEra: nat): nat {
    (dayOfEra - dayOfEra / 1460 + dayOfEra / 36524 - dayOfEra / 146096) / 365
  }

  function CivilFromDays(days: int): Date {
    var shifted := days + 719468;
    var era := TruncDiv(if shifted >= 0 then shifted else shifted - 146096, 146097);
    var dayOfEra := shifted - era * 146097;
    EraIsFloor(shifted);
    var yearOfEra := YearOfEra(dayOfEra);
    var year := yearOfEra + era * 400;
    var dayOfYear := dayOfEra - (365 * yearOfEra + yearOfEra / 4 - yearOfEra / 100);
    var monthPrime := (5 * dayOfYear + 2) / 153;
    var day := dayOfYear - (153 * monthPrime + 2) / 5 + 1;
    var month := if monthPrime < 10 then monthPrime + 3 else monthPrime - 9;
    Date(if month <= 2 then year + 1 else year, month, day)
  }

  /** The era is the floor of the shifted day over an era's length, before the epoch too. */
  lemma EraIsFloor(shifted: int)
    ensures var era := TruncDiv(if shifted >= 0 then shifted else shifted - 146096, 146097);
            0 <= shifted - era * 146097 < 146097
  {
  }

  // ------------------------------------------------------- the proof, in March-based years

  /** Days from the start of an era to the start of its March-based year `y`. */
  function EraDaysBefore(y: int): int { 365 * y + y / 4 - y / 100 }

  /** The day lies in March-based year `y` of its era; the last year absorbs the era's leap day. */
  predicate InEraYear(doe: nat, y: nat) {
    && y <= 399
    && EraDaysBefore(y) <= doe
    && doe < (if y == 399 then 146097 else EraDaysBefore(y + 1))
  }

  lemma EraYearExists(doe: nat) returns (y: nat)
    requires doe < 146097
    ensures InEraYear(doe, y)
  {
    y := 0;
    while y < 399 && EraDaysBefore(y + 1) <= doe
      invariant y <= 399 && EraDaysBefore(y) <= doe
    {
      y := y + 1;
    }
  }

  /** The offset into the year, and when it can be the 366th day. */
  lemma EraYearOffset(doe: nat, y: nat)
    requires InEraYear(doe, y)
    ensures var k := doe - EraDaysBefore(y);
            0 <= k <= 365 && (k == 365 ==> y % 4 == 3 && (y % 100 != 99 || y == 399))
  {
  }

  /** The first correction counts the four-year groups, one early near the end of a group. */
  lemma QuarterGroups(doe: nat, y: nat)
    requires InEraYear(doe, y)
    ensures var early := 365 * (y % 4) + y / 4 - y / 100 + (doe - EraDaysBefore(y)) >= 1460;
            && doe / 1460 == y / 4 + (if early then 1 else 0)
            && (early ==> y % 4 == 3)
  {
  }

  /** The second correction counts the centuries, the third only the era's very last day. */
  lemma CenturyGroups(doe: nat, y: nat)
    requires InEraYear(doe, y)
    ensures doe / 36524 == y / 100 + (if doe == 146096 then 1 else 0)
    ensures doe / 146096 == if doe == 146096 then 1 else 0
  {
  }

  /** The closed form finds the year of the era whose days contain the day. */
  lemma YearOfEraIsTheYear(doe: nat, y: nat)
    requires InEraYear(doe, y)
    ensures YearOfEra(doe) == y
  {
    EraYearOffset(doe, y);
    QuarterGroups(doe, y);
    CenturyGroups(doe, y);
    var k := doe - EraDaysBefore(y);
    var numerator := doe - doe / 1460 + doe / 36524 - doe / 146096;
    assert numerator == 365 * y + k - (if 365 * (y % 4) + y / 4 - y / 100 + k >= 1460 then 1 else 0);
  }

  // ------------------------------------------------------------------- months and years

  /** Days from 1 March to the first of the month `mp` months later. */
  function MarchDaysBefore(mp: int): int { (153 * mp + 2) / 5 }

  /** The month formula brackets the day, and the month is long enough for it. */
  lemma MonthIsBracketed(doy: nat)
    requires doy <= 365
    ensures var mp := (5 * doy + 2) / 153;
            && 0 <= mp <= 11
            && MarchDaysBefore(mp) <= doy < (if mp == 11 then 366 else MarchDaysBefore(mp + 1))
  {
  }

  lemma MonthsFromMarch(year: int, mp: nat)
    requires mp <= 9
    ensures DaysBeforeMonth(year, mp + 3) == 59 + (if IsLeap(year) then 1 else 0) + MarchDaysBefore(mp)
    ensures MarchDaysBefore(mp + 1) - MarchDaysBefore(mp) == MonthLength(year, mp + 3)
  {
    assert DaysBeforeMonth(year, 3) == 59 + if IsLeap(year) then 1 else 0 by {
      assert DaysBeforeMonth(year, 1) == 0 && DaysBeforeMonth(year, 2) == 31;
    }
    if mp > 0 {
      MonthsFromMarch(year, mp - 1);
    }
  }

  /** Leap years before `year`, in closed form. */
  function LeapsBefore(year: int): int { (year - 1) / 4 - (year - 1) / 100 + (year - 1) / 400 }

  lemma LeapsBeforeNext(year: nat)
    requires year >= 1
    ensures LeapsBefore(year + 1) == LeapsBefore(year) + if IsLeap(year) then 1 else 0
  {
    CarryOfMultiple(year, 4);
    CarryOfMultiple(year, 100);
    CarryOfMultiple(year, 400);
  }

  lemma CarryOfMultiple(n: nat, d: nat)
    requires n >= 1 && (d == 4 || d == 100 || d == 400)
    ensures n / d == (n - 1) / d + if n % d == 0 then 1 else 0
  {
  }

  /** The year-by-year count agrees with the closed form. */
  lemma {:induction false} DaysBeforeYearClosed(year: nat)
    requires year >= 1970
    ensures DaysBeforeYear(year) == 365 * (year - 1970) + LeapsBefore(year) - LeapsBefore(1970)
  {
    if year > 1970 {
      DaysBeforeYearClosed(year - 1);
      LeapsBeforeNext(year - 1);
    }
  }

  /** Days from the shifted origin to 1 March of `year`. */
  function MarchOrigin(year: nat): int { 365 * year + year / 4 - year / 100 + year / 400 }

  lemma MarchOriginCounts(year: nat)
    ensures year >= 1970 ==> MarchOrigin(year) - 719468 == DaysBeforeYear(year) + 59 + (if IsLeap(year) then 1 else 0)
    ensures year >= 1969 ==> MarchOrigin(year) + 306 - 719468 == DaysBeforeYear(year + 1)
  {
    if year >= 1969 {
      DaysBeforeYearClosed(year + 1);
      assert LeapsBefore(1970) == 477;
    }
    if year >= 1970 {
      DaysBeforeYearClosed(year);
      LeapsBeforeNext(year);
    }
  }

  /** An era is 400 years, so the era and the year of the era give the year. */
  lemma EraOrigin(era: nat, y: nat)
    requires y <= 399
    ensures MarchOrigin(400 * era + y) == 146097 * era + EraDaysBefore(y)
  {
    var year := 400 * era + y;
    assert year / 4 == 100 * era + y / 4;
    assert year / 100 == 4 * era + y / 100;
    assert year / 400 == era;
  }

  // ----------------------------------------------------------------- the main theorems

  /** The closed form in terms of the March-based year and the offset into it. */
  lemma CivilUnfolds(days: nat) returns (year: nat, doy: nat)
    ensures MarchOrigin(year) + doy == days + 719468 && doy <= 365
    ensures doy == 365 ==> year % 4 == 3 && (year % 100 != 99 || year % 400 == 399)
    ensures var mp := (5 * doy + 2) / 153;
            CivilFromDays(days) ==
              Date(if mp < 10 then year else year + 1, if mp < 10 then mp + 3 else mp - 9, doy - MarchDaysBefore(mp) + 1)
  {
    hide YearOfEra, MarchOrigin, EraDaysBefore;
    var era, doe, y := EraSplit(days);
    EraOrigin(era, y);
    year := 400 * era + y;
    doy := OffsetIntoYear(doe, y);
    YearRemainders(era, y);
    CivilOfSplit(days, era, doe, y, doy);
  }

  lemma EraSplit(days: nat) returns (era: nat, doe: nat, y: nat)
    ensures days + 719468 == 146097 * era + doe && doe < 146097
    ensures InEraYear(doe, y) && YearOfEra(doe) == y
  {
    hide YearOfEra;
    era, doe := (days + 719468) / 146097, (days + 719468) % 146097;
    y := EraYearExists(doe);
    YearOfEraIsTheYear(doe, y);
  }

  lemma OffsetIntoYear(doe: nat, y: nat) returns (doy: nat)
    requires InEraYear(doe, y)
    ensures doy == doe - EraDaysBefore(y) && doy <= 365
    ensures doy == 365 ==> y % 4 == 3 && (y % 100 != 99 || y == 399)
  {
    EraYearOffset(doe, y);
    doy := doe - EraDaysBefore(y);
  }

  lemma YearRemainders(era: nat, y: nat)
    requires y <= 399
    ensures var year := 400 * era + y;
            year % 400 == y && year % 100 == y % 100 && year % 4 == y % 4
  {
    RemainderOfHundred(4 * era, y);
    RemainderOfFour(100 * era, y);
  }

  lemma RemainderOfHundred(k: nat, y: nat)
    ensures (100 * k + y) % 100 == y % 100
  {
  }

  lemma RemainderOfFour(k: nat, y: nat)
    ensures (4 * k + y) % 4 == y % 4
  {
  }

  lemma CivilOfSplit(days: nat, era: nat, doe: nat, y: nat, doy: nat)
    requires days + 719468 == 146097 * era + doe && doe < 146097
    requires YearOfEra(doe) == y && doy == doe - EraDaysBefore(y) && doy <= 365
    ensures var mp, year := (5 * doy + 2) / 153, 400 * era + y;
            CivilFromDays(days) ==
              Date(if mp < 10 then year else year + 1, if mp < 10 then mp + 3 else mp - 9, doy - MarchDaysBefore(mp) + 1)
  {
    hide YearOfEra;
    assert TruncDiv(days + 719468, 146097) == era;
    MonthIsBracketed(doy);
  }

  /** Every day count from the epoch on becomes the Gregorian date whose counted number it is. */
  lemma CivilCountsDays(days: nat)
    ensures var d := CivilFromDays(days);
            IsDate(d) && d.year >= 1970 && DayNumber(d) == days
  {
    hide CivilFromDays, MarchOrigin, DaysBeforeYear;
    var year, doy := CivilUnfolds(days);
    MonthIsBracketed(doy);
    MarchOriginCounts(year);
    LastYearsAreAfterEpoch(year, doy, days);
    var mp := (5 * doy + 2) / 153;
    if mp < 10 {
      MonthsFromMarch(year, mp);
    } else {
      WinterMonths(year, doy, mp);
    }
  }

  lemma LastYearsAreAfterEpoch(year: nat, doy: nat, days: nat)
    requires MarchOrigin(year) + doy == days + 719468 && doy <= 365
    ensures year >= 1969 && (year == 1969 ==> doy >= 306)
  {
  }

  /** January and February end the March-based year; the last has 29 days only in a leap year. */
  lemma WinterMonths(year: nat, doy: nat, mp: nat)
    requires 10 <= mp <= 11 && mp == (5 * doy + 2) / 153 && doy <= 365
    requires doy == 365 ==> year % 4 == 3 && (year % 100 != 99 || year % 400 == 399)
    ensures MarchDaysBefore(mp) == 306 + DaysBeforeMonth(year + 1, mp - 9)
    ensures 1 <= doy - MarchDaysBefore(mp) + 1 <= MonthLength(year + 1, mp - 9)
  {
  }

  /** Dates in calendar order. */
  predicate Before(a: Date, b: Date) {
    a.year < b.year || (a.year == b.year && (a.month < b.month || (a.month == b.month && a.day < b.day)))
  }

  lemma {:induction false} MonthsGrow(year: int, a: int, b: int)
    requires 1 <= a < b <= 13
    ensures DaysBeforeMonth(year, a) + MonthLength(year, a) <= DaysBeforeMonth(year, b)
    decreases b
  {
    if a < b - 1 { MonthsGrow(year, a, b - 1); }
  }

  lemma WholeYear(year: int)
    ensures DaysBeforeMonth(year, 13) == YearLength(year)
  {
    MonthsFromMarch(year, 9);
  }

  lemma {:induction false} YearsGrow(a: int, b: int)
    requires 1970 <= a < b
    ensures DaysBeforeYear(a) + YearLength(a) <= DaysBeforeYear(b)
    decreases b
  {
    if a < b - 1 { YearsGrow(a, b - 1); }
  }

  /** The counted day number follows calendar order, so a date is determined by its number. */
  lemma DayNumberIsMonotone(a: Date, b: Date)
    requires IsDate(a) && IsDate(b) && a.year >= 1970 && b.year >= 1970
    ensures Before(a, b) <==> DayNumber(a) < DayNumber(b)
    ensures a == b <==> DayNumber(a) == DayNumber(b)
  {
    EarlierCountsLess(a, b);
    EarlierCountsLess(b, a);
  }

  lemma EarlierCountsLess(a: Date, b: Date)
    requires IsDate(a) && IsDate(b) && a.year >= 1970 && b.year >= 1970
    ensures Before(a, b) ==> DayNumber(a) < DayNumber(b)
  {
    hide DaysBeforeYear, DaysBeforeMonth, MonthLength;
    if a.year < b.year {
      YearsGrow(a.year, b.year);
      WholeYear(a.year);
      MonthsGrow(a.year, a.month, 13);
      DaysBeforeMonthNonNegative(b);
    } else if a.year == b.year && a.month < b.month {
      MonthsGrow(a.year, a.month, b.month);
    }
  }

  lemma DaysBeforeMonthNonNegative(b: Date)
    requires IsDate(b)
    ensures DaysBeforeMonth(b.year, b.month) + b.day - 1 >= 0
  {
  }

  /** The conversion inverts the count: each valid date from 1970 on is some day's date. */
  lemma CivilOfDayNumber(d: Date)
    requires IsDate(d) && d.year >= 1970
    ensures DayNumber(d) >= 0 && CivilFromDays(DayNumber(d)) == d
  {
    hide CivilFromDays, DaysBeforeYear, DaysBeforeMonth;
    DaysBeforeMonthNonNegative(d);
    CivilCountsDays(DayNumber(d));
    DayNumberIsMonotone(CivilFromDays(DayNumber(d)), d);
  }

  /** Later days have later dates. */
  lemma CivilIsMonotone(a: nat, b: nat)
    ensures a < b <==> Before(CivilFromDays(a), CivilFromDays(b))
  {
    hide CivilFromDays, DaysBeforeYear, DaysBeforeMonth;
    CivilCountsDays(a);
    CivilCountsDays(b);
    DayNumberIsMonotone(CivilFromDays(a), CivilFromDays(b));
  }

  // ------------------------------------------------------------------- the timestamp

  const DASH: Byte := 45
  const COLON: Byte := 58
  const LETTER_T: Byte := 84
  const LETTER_Z: Byte := 90

  /** The ASCII timestamp of an instant, given in whole seconds since the epoch. */
  function Iso8601(seconds: nat): seq<Byte> {
    var days, remainder := seconds / 86400, seconds % 86400;
    CivilCountsDays(days);
    var d := CivilFromDays(days);
    Decimal.Pad(d.year, 4) + [DASH] + Decimal.Pad(d.month, 2) + [DASH] + Decimal.Pad(d.day, 2) + [LETTER_T]
    + Decimal.Pad(remainder / 3600, 2) + [COLON] + Decimal.Pad(remainder % 3600 / 60, 2) + [COLON]
    + Decimal.Pad(remainder % 60, 2) + [LETTER_Z]
  }

  /** The second a timestamp names, read back from its fields by position from the right. */
  ghost function SecondOf(text: seq<Byte>): Option<int> {
    var n := |text| - 16;
    if n < 0 then None
    else
      match (Decimal.Digits(text[..n]), Decimal.Digits(text[n + 1..n + 3]), Decimal.Digits(text[n + 4..n + 6]),
             Decimal.Digits(text[n + 7..n + 9]), Decimal.Digits(text[n + 10..n + 12]), Decimal.Digits(text[n + 13..n + 15]))
      case (Some(year), Some(month), Some(day), Some(hour), Some(minute), Some(second)) =>
        var d := Date(year, month, day);
        if IsDate(d) && year >= 1970 && hour < 24 && minute < 60 && second < 60 then
          Some(86400 * DayNumber(d) + 3600 * hour + 60 * minute + second)
        else None
      case _ => None
  }

  /**
   * A timestamp determines its second: distinct seconds never print alike. Its fields stand
   * between the separators section 5.6 of RFC 3339 gives them.
   */
  lemma Iso8601Determines(seconds: nat)
    ensures SecondOf(Iso8601(seconds)) == Some(seconds)
    ensures var text := Iso8601(seconds); var n := |text| - 16;
      n >= 4 && text[n] == 45 && text[n + 3] == 45 && text[n + 6] == 84 && text[n + 9] == 58 && text[n + 12] == 58 && text[n + 15] == 90
  {
    hide CivilFromDays, DaysBeforeYear, DaysBeforeMonth, MonthLength, Decimal.Pad, Decimal.Digits;
    var days, remainder := seconds / 86400, seconds % 86400;
    CivilCountsDays(days);
    var d := CivilFromDays(days);
    DayFitsTwoDigits(d);
    var y, mo, da := Decimal.Pad(d.year, 4), Decimal.Pad(d.month, 2), Decimal.Pad(d.day, 2);
    var h, mi, se := Decimal.Pad(remainder / 3600, 2), Decimal.Pad(remainder % 3600 / 60, 2), Decimal.Pad(remainder % 60, 2);
    Decimal.DigitsPad(d.year, 4);
    TwoDigits(d.month);
    TwoDigits(d.day);
    TwoDigits(remainder / 3600);
    TwoDigits(remainder % 3600 / 60);
    TwoDigits(remainder % 60);
    var text := Iso8601(seconds);
    var n := |text| - 16;
    assert |y| == n;
    assert text[..n] == y && text[n + 1..n + 3] == mo && text[n + 4..n + 6] == da;
    assert text[n + 7..n + 9] == h && text[n + 10..n + 12] == mi && text[n + 13..n + 15] == se;
    assert remainder == 3600 * (remainder / 3600) + 60 * (remainder % 3600 / 60) + remainder % 60;
  }

  lemma DayFitsTwoDigits(d: Date)
    requires IsDate(d)
    ensures d.month < 100 && d.day < 100
  {
  }

  lemma TwoDigits(n: nat)
    requires n < 100
    ensures |Decimal.Pad(n, 2)| == 2 && Decimal.Digits(Decimal.Pad(n, 2)) == Some(n)
  {
    Decimal.PadTwo(n);
    Decimal.DigitsPad(n, 2);
  }
}
