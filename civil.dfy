/**
 * Proleptic Gregorian calendar arithmetic on integer milliseconds, standing
 * in for the JavaScript `Date` object. An instant is an `int` number of
 * milliseconds since 1970-01-01T00:00Z. A `Date`'s local getters
 * (`getFullYear`, `getMonth() + 1`, `getDate`, `getHours`, `getMinutes`,
 * `getDay`) read the UTC civil fields of the instant shifted by the host's
 * `getTimezoneOffset()`, which this model takes as a constant number of
 * minutes `serverOffset` (no daylight-saving changes).
 */
module Civil {
  import opened Text

  const MsPerMinute: int := 60000
  const MsPerHour: int := 3600000
  const MsPerDay: int := 86400000

  /** A civil date; `month` is 1-based (JavaScript's `getMonth() + 1`). */
  datatype Date = Date(year: int, month: int, day: int)

  /**
   * What the `Date` getters of one instant return: the day number (days
   * since 1970-01-01) with the hours and minutes into that day; the civil
   * date and the weekday follow from the day number.
   */
  datatype Fields = Fields(dayNumber: int, hours: int, minutes: int)
  {
    /** `getFullYear()`, `getMonth() + 1`, `getDate()` */
    function CalendarDate(): (d: Date)
      ensures 1 <= d.month <= 12 && 1 <= d.day <= 31
    {
      CivilFromDays(dayNumber)
    }

    /** `getDay()` */
    function DayOfWeek(): (w: int)
      ensures 0 <= w < 7
    {
      Weekday(dayNumber)
    }
  }

  predicate ValidDate(d: Date) {
    1 <= d.month <= 12 && 1 <= d.day <= 31
  }

  /** A date whose month and day are in range, as every date the getters return is. */
  type CivilDate = d: Date | ValidDate(d) witness Date(1970, 1, 1)

  /** Days from 1 March of year 0 of a 400-year era to 1 March of its year `yoe`. */
  function YearStart(yoe: int): int {
    365 * yoe + yoe / 4 - yoe / 100
  }

  /** Days from 1 March to the first of the `mp`-th month after March (0 = March, 11 = February). */
  function MonthStart(mp: int): int {
    (153 * mp + 2) / 5
  }

  /**
   * Day number (days since 1970-01-01) of a civil date; the day-of-month may
   * run past the month's end, as in `Date.UTC` and `setDate`, where it simply
   * counts on from the first of the month.
   */
  function DaysFromCivil(y: int, m: int, d: int): int
    requires 1 <= m <= 12
  {
    var y1 := if m <= 2 then y - 1 else y;
    var era := y1 / 400;
    var yoe := y1 % 400;
    var mp := if m > 2 then m - 3 else m + 9;
    era * 146097 + YearStart(yoe) + MonthStart(mp) + d - 1 - 719468
  }

  /** A position inside a 400-year era: the March-based year and the day within it. */
  datatype YearDay = YearDay(yoe: int, doy: int)

  /**
   * The year of an era holding its day `doe`, found through the era's four
   * centuries (the last one a day longer), each century's 4-year cycles (the
   * last one of a short century a day shorter) and the cycle's years (the
   * last one a leap year).
   */
  function YearOfEra(doe: int): (r: YearDay)
    requires 0 <= doe < 146097
    ensures 0 <= r.yoe < 400 && 0 <= r.doy <= 365
    ensures YearStart(r.yoe) + r.doy == doe
  {
    var c := if doe / 36524 < 3 then doe / 36524 else 3;
    var doc := doe - 36524 * c;
    var q := doc / 1461;
    var dq := doc % 1461;
    var y := if dq / 365 < 3 then dq / 365 else 3;
    var yoe := 100 * c + 4 * q + y;
    assert 0 <= c <= 3 && 0 <= doc <= 36524 && 0 <= q <= 24 && 0 <= y <= 3;
    assert yoe / 4 == 25 * c + q;
    assert yoe / 100 == c;
    YearDay(yoe, dq - 365 * y)
  }

  /**
   * The civil date of day `doy` (0 = 1 March) of year `yoe` of the era
   * starting in year `eraYear`: the month through the 153-day five-month
   * cycles, and January and February counted into the next calendar year.
   */
  function DateOfYearDay(eraYear: int, yd: YearDay): (dt: Date)
    requires 0 <= yd.doy <= 365
    ensures 1 <= dt.month <= 12 && 1 <= dt.day <= 31
  {
    var mp := (5 * yd.doy + 2) / 153;
    var d := yd.doy - MonthStart(mp) + 1;
    var m := if mp < 10 then mp + 3 else mp - 9;
    Date(yd.yoe + eraYear + (if m <= 2 then 1 else 0), m, d)
  }

  /** The civil date of a day number. */
  function CivilFromDays(z: int): (dt: Date)
    ensures 1 <= dt.month <= 12 && 1 <= dt.day <= 31
  {
    var z1 := z + 719468;
    DateOfYearDay(400 * (z1 / 146097), YearOfEra(z1 % 146097))
  }

  /** Round trip: the day number of the civil date of day `z` is `z`. */
  lemma DaysFromCivilOfCivilFromDays(z: int)
    ensures var dt := CivilFromDays(z);
      DaysFromCivil(dt.year, dt.month, dt.day) == z
  {
    var z1 := z + 719468;
    var yd := YearOfEra(z1 % 146097);
    DaysFromCivilOfYearDay(z1 / 146097, yd.yoe, yd.doy);
    assert z1 == z1 / 146097 * 146097 + z1 % 146097;
  }

  /** The day number of the date of a March-based year day counts the eras, the years and the days. */
  lemma DaysFromCivilOfYearDay(era: int, yoe: int, doy: int)
    requires 0 <= yoe < 400 && 0 <= doy <= 365
    ensures var dt := DateOfYearDay(400 * era, YearDay(yoe, doy));
      DaysFromCivil(dt.year, dt.month, dt.day) == era * 146097 + YearStart(yoe) + doy - 719468
  {
    var dt := DateOfYearDay(400 * era, YearDay(yoe, doy));
    var mp := (5 * doy + 2) / 153;
    MonthOfYearDayRange(doy);
    assert dt.month == if mp < 10 then mp + 3 else mp - 9;
    assert dt.day == doy - MonthStart(mp) + 1;
    var y1 := if dt.month <= 2 then dt.year - 1 else dt.year;
    assert y1 == yoe + 400 * era;
    EraOfYear(y1, era, yoe);
    assert (if dt.month > 2 then dt.month - 3 else dt.month + 9) == mp;
  }

  lemma MonthOfYearDayRange(doy: int)
    requires 0 <= doy <= 365
    ensures 0 <= (5 * doy + 2) / 153 <= 11
  {
  }

  lemma EraOfYear(y1: int, era: int, yoe: int)
    requires y1 == yoe + 400 * era && 0 <= yoe < 400
    ensures y1 / 400 == era && y1 % 400 == yoe
  {
  }

  /** The day number counts on linearly with the day of the month. */
  lemma DaysFromCivilNextDay(y: int, m: int, d: int)
    requires 1 <= m <= 12
    ensures DaysFromCivil(y, m, d + 1) == DaysFromCivil(y, m, d) + 1
  {
  }

  /**
   * The date `setDate(getDate() + 1)` leaves: the day of the month runs one
   * past and the date is normalised through the day number.
   */
  function NextDate(d: Date): Date
    requires 1 <= d.month <= 12
  {
    CivilFromDays(DaysFromCivil(d.year, d.month, d.day + 1))
  }

  /** The next date of the civil date of day `z` is the civil date of day `z + 1`. */
  lemma NextDateOfCivil(z: int)
    ensures NextDate(CivilFromDays(z)) == CivilFromDays(z + 1)
  {
    var d := CivilFromDays(z);
    DaysFromCivilOfCivilFromDays(z);
    DaysFromCivilNextDay(d.year, d.month, d.day);
    assert DaysFromCivil(d.year, d.month, d.day + 1) == z + 1;
  }

  /** Distinct day numbers are distinct civil dates. */
  lemma CivilFromDaysInjective(a: int, b: int)
    requires CivilFromDays(a) == CivilFromDays(b)
    ensures a == b
  {
    DaysFromCivilOfCivilFromDays(a);
    DaysFromCivilOfCivilFromDays(b);
  }

  /** Day-of-week of a day number, 0 = Sunday (1970-01-01 was a Thursday). */
  function Weekday(z: int): (w: int)
    ensures 0 <= w < 7
  {
    (z + 4) % 7
  }

  /** The UTC civil fields of an instant (`getUTCFullYear()` and friends). */
  function UtcFields(t: int): (f: Fields)
    ensures 0 <= f.hours < 24 && 0 <= f.minutes < 60
    ensures f.dayNumber == t / MsPerDay
  {
    var ms := t % MsPerDay;
    Fields(t / MsPerDay, ms / MsPerHour, (ms / MsPerMinute) % 60)
  }

  /** The fields of an instant `ms` milliseconds into day `z`. */
  lemma UtcFieldsAt(z: int, ms: int)
    requires 0 <= ms < MsPerDay
    ensures UtcFields(z * MsPerDay + ms) == Fields(z, ms / MsPerHour, (ms / MsPerMinute) % 60)
  {
    var t := z * MsPerDay + ms;
    assert t / MsPerDay == z && t % MsPerDay == ms;
  }

  /** A whole number of days after the epoch is midnight of that day. */
  lemma UtcFieldsMidnight(z: int)
    ensures UtcFields(z * MsPerDay).hours == 0 && UtcFields(z * MsPerDay).minutes == 0
    ensures UtcFields(z * MsPerDay).dayNumber == z
  {
    var t := z * MsPerDay;
    assert t % MsPerDay == 0 && t / MsPerDay == z;
  }

  /** The local getters of a `Date` on a host whose `getTimezoneOffset()` is `serverOffset`. */
  function LocalFields(t: int, serverOffset: int): Fields {
    UtcFields(t - serverOffset * MsPerMinute)
  }

  /** A day later, same time of day: the fields move to the next day number and keep hours and minutes. */
  lemma UtcFieldsNextDay(t: int)
    ensures UtcFields(t + MsPerDay).dayNumber == UtcFields(t).dayNumber + 1
    ensures UtcFields(t + MsPerDay).hours == UtcFields(t).hours
    ensures UtcFields(t + MsPerDay).minutes == UtcFields(t).minutes
  {
    assert (t + MsPerDay) / MsPerDay == t / MsPerDay + 1;
    assert (t + MsPerDay) % MsPerDay == t % MsPerDay;
  }

  /** The `YYYYMMDD` key built by `dateStr` (year as `String(year)`, month and day padded). */
  function DateKey(d: Date): string
    requires d.month >= 0 && d.day >= 0
  {
    IntToString(d.year) + Pad2(d.month) + Pad2(d.day)
  }

  /** The `HH:MM` text built by `timeStr` and by the brightness check. */
  function TimeKey(hours: nat, minutes: nat): string {
    Pad2(hours) + ":" + Pad2(minutes)
  }

  /** A time of day renders as exactly five characters `HH:MM`, its digits those of the hours and minutes. */
  lemma TimeKeyShape(h: nat, m: nat)
    requires h < 24 && m < 60
    ensures TimeKey(h, m) == [Digit(h / 10), Digit(h % 10), ':', Digit(m / 10), Digit(m % 10)]
    ensures |TimeKey(h, m)| == 5 && '0' <= TimeKey(h, m)[0] <= '2'
  {
    Pad2Digits(h);
    Pad2Digits(m);
  }

  /** Distinct valid dates have distinct keys. */
  lemma DateKeyInjective(a: Date, b: Date)
    requires ValidDate(a) && ValidDate(b)
    requires DateKey(a) == DateKey(b)
    ensures a == b
  {
    Pad2Digits(a.month);
    Pad2Digits(a.day);
    Pad2Digits(b.month);
    Pad2Digits(b.day);
    var ka, kb := DateKey(a), DateKey(b);
    var ya, yb := IntToString(a.year), IntToString(b.year);
    assert |ka| == |ya| + 4 && |kb| == |yb| + 4;
    assert ka[..|ya|] == ya && kb[..|yb|] == yb;
    IntToStringInjective(a.year, b.year);
    var ta, tb := ka[|ya|..], kb[|yb|..];
    assert ta == [Digit(a.month / 10), Digit(a.month % 10), Digit(a.day / 10), Digit(a.day % 10)];
    assert tb == [Digit(b.month / 10), Digit(b.month % 10), Digit(b.day / 10), Digit(b.day % 10)];
    assert ta[0] == tb[0] && ta[1] == tb[1] && ta[2] == tb[2] && ta[3] == tb[3];
  }

  /** String order on five-character strings, spelled out position by position. */
  lemma LessFive(a: string, b: string)
    requires |a| == 5 && |b| == 5
    ensures Less(a, b) <==>
      a[0] < b[0] || (a[0] == b[0] && (a[1] < b[1] || (a[1] == b[1] &&
      (a[2] < b[2] || (a[2] == b[2] && (a[3] < b[3] || (a[3] == b[3] && a[4] < b[4])))))))
  {
    assert Less(a, b) == if a[0] != b[0] then a[0] < b[0] else Less(a[1..], b[1..]);
    assert a[1..][1..] == a[2..] && b[1..][1..] == b[2..];
    assert Less(a[1..], b[1..]) == if a[1] != b[1] then a[1] < b[1] else Less(a[2..], b[2..]);
    assert a[2..][1..] == a[3..] && b[2..][1..] == b[3..];
    assert Less(a[2..], b[2..]) == if a[2] != b[2] then a[2] < b[2] else Less(a[3..], b[3..]);
    assert a[3..][1..] == a[4..] && b[3..][1..] == b[4..];
    assert Less(a[3..], b[3..]) == if a[3] != b[3] then a[3] < b[3] else Less(a[4..], b[4..]);
    assert a[4..][1..] == a[5..] && b[4..][1..] == b[5..];
    assert Less(a[4..], b[4..]) == if a[4] != b[4] then a[4] < b[4] else Less(a[5..], b[5..]);
    assert !Less(a[5..], b[5..]);
  }

  /** Zero-padded times compare as strings exactly as they compare in minutes since midnight. */
  lemma TimeKeyOrder(h1: nat, m1: nat, h2: nat, m2: nat)
    requires h1 < 24 && m1 < 60 && h2 < 24 && m2 < 60
    ensures Less(TimeKey(h1, m1), TimeKey(h2, m2)) <==> h1 * 60 + m1 < h2 * 60 + m2
    ensures TimeKey(h1, m1) == TimeKey(h2, m2) <==> h1 == h2 && m1 == m2
  {
    TimeKeyShape(h1, m1);
    TimeKeyShape(h2, m2);
    LessFive(TimeKey(h1, m1), TimeKey(h2, m2));
    assert h1 == 10 * (h1 / 10) + h1 % 10 && h2 == 10 * (h2 / 10) + h2 % 10;
    assert m1 == 10 * (m1 / 10) + m1 % 10 && m2 == 10 * (m2 / 10) + m2 % 10;
  }
}
