/**
 * The timezone adapter of the server: shifting an instant so that a `Date`'s
 * local getters read the wall clock of the display (whose offset the display
 * reports in minutes, `getTimezoneOffset()` sign: -540 for UTC+9), and the
 * Japanese date label `M月D日 (曜)`.
 */
module Timezone {
  import opened Wrappers
  import opened Text
  import opened Civil

  /**
   * `toClientTime(date, tzOffset)`: with no offset the date itself; otherwise
   * `date.getTime() + date.getTimezoneOffset() * 60000 - tzOffset * 60000`, so
   * that the host's local getters of the result read the civil fields of the
   * instant at UTC-`tzOffset` minutes.
   */
  function ToClientTime(t: int, tzOffset: Option<int>, serverOffset: int): (r: int)
    ensures tzOffset.None? ==> r == t
    ensures tzOffset.Some? ==> r - serverOffset * MsPerMinute == t - tzOffset.value * MsPerMinute
  {
    match tzOffset
    case None => t
    case Some(off) => t + serverOffset * MsPerMinute - off * MsPerMinute
  }

  /** Whatever the host's offset, the local getters of the shifted instant read the fields at the display's offset. */
  lemma ClientTimeFields(t: int, off: int, serverOffset: int)
    ensures LocalFields(ToClientTime(t, Some(off), serverOffset), serverOffset) == UtcFields(t - off * MsPerMinute)
  {
  }

  /** The weekday names indexed by `getDay()`, 0 = Sunday. */
  const WeekdaySymbols: seq<char> := ['日', '月', '火', '水', '木', '金', '土']

  /** `formatDateJapanese(date)` over the date's local getters: month and day without padding. */
  function FormatDateJapanese(f: Fields): string {
    JapaneseLabel(f.CalendarDate(), f.DayOfWeek())
  }

  /** The label `M月D日 (曜)` of a date and a weekday number. */
  function JapaneseLabel(d: Date, weekday: int): string
    requires d.month >= 0 && d.day >= 0 && 0 <= weekday < 7
  {
    NatToString(d.month) + "月" + NatToString(d.day) + "日 (" + [WeekdaySymbols[weekday]] + ")"
  }

  /** A decimal number followed by a non-digit splits uniquely: the number and the rest are recovered. */
  lemma NumberThenSeparator(a: nat, b: nat, c: char, x: string, y: string)
    requires !IsDigit(c)
    requires NatToString(a) + [c] + x == NatToString(b) + [c] + y
    ensures a == b && x == y
  {
    var sa, sb := NatToString(a), NatToString(b);
    var l, r := sa + [c] + x, sb + [c] + y;
    assert forall i :: 0 <= i < |sa| ==> l[i] == sa[i];
    assert forall i :: 0 <= i < |sb| ==> r[i] == sb[i];
    assert l[|sa|] == c && r[|sb|] == c;
    assert |sa| == |sb|;
    assert l[..|sa|] == sa && r[..|sb|] == sb;
    NatToStringInjective(a, b);
    assert l[|sa| + 1..] == x && r[|sb| + 1..] == y;
  }

  /** The label is unambiguous: it determines month, day and weekday. */
  lemma FormatDateJapaneseInjective(f: Fields, g: Fields)
    requires FormatDateJapanese(f) == FormatDateJapanese(g)
    ensures f.CalendarDate().month == g.CalendarDate().month && f.CalendarDate().day == g.CalendarDate().day
    ensures f.DayOfWeek() == g.DayOfWeek()
  {
    JapaneseLabelInjective(f.CalendarDate(), f.DayOfWeek(), g.CalendarDate(), g.DayOfWeek());
  }

  lemma JapaneseLabelInjective(a: Date, wa: int, b: Date, wb: int)
    requires a.month >= 0 && a.day >= 0 && 0 <= wa < 7
    requires b.month >= 0 && b.day >= 0 && 0 <= wb < 7
    requires JapaneseLabel(a, wa) == JapaneseLabel(b, wb)
    ensures a.month == b.month && a.day == b.day && wa == wb
  {
    var ra := NatToString(a.day) + "日 (" + [WeekdaySymbols[wa]] + ")";
    var rb := NatToString(b.day) + "日 (" + [WeekdaySymbols[wb]] + ")";
    assert JapaneseLabel(a, wa) == NatToString(a.month) + ['月'] + ra;
    assert JapaneseLabel(b, wb) == NatToString(b.month) + ['月'] + rb;
    NumberThenSeparator(a.month, b.month, '月', ra, rb);
    var sa := " (" + [WeekdaySymbols[wa]] + ")";
    var sb := " (" + [WeekdaySymbols[wb]] + ")";
    assert ra == NatToString(a.day) + ['日'] + sa;
    assert rb == NatToString(b.day) + ['日'] + sb;
    NumberThenSeparator(a.day, b.day, '日', sa, sb);
    assert sa[2] == WeekdaySymbols[wa] && sb[2] == WeekdaySymbols[wb];
  }

  /** `Date.UTC(y, m - 1, d, h, min)` */
  function UtcInstant(y: int, m: int, d: int, h: int, min: int): int
    requires 1 <= m <= 12
  {
    DaysFromCivil(y, m, d) * MsPerDay + h * MsPerHour + min * MsPerMinute
  }

  /** `new Date(y, m - 1, d, h, min)` on a host whose offset is `serverOffset`. */
  function LocalInstant(y: int, m: int, d: int, h: int, min: int, serverOffset: int): int
    requires 1 <= m <= 12
  {
    UtcInstant(y, m, d, h, min) + serverOffset * MsPerMinute
  }

  lemma Day19737()
    ensures DaysFromCivil(2024, 1, 15) == 19737
    ensures CivilFromDays(19737) == Date(2024, 1, 15) && Weekday(19737) == 1
  {
    assert YearStart(23) == 8400 && MonthStart(10) == 306;
    assert YearOfEra(8720) == YearDay(23, 320);
    assert (19737 + 719468) / 146097 == 5 && (19737 + 719468) % 146097 == 8720;
    assert (5 * 320 + 2) / 153 == 10;
  }

  lemma Day19738()
    ensures CivilFromDays(19738) == Date(2024, 1, 16)
  {
    assert YearOfEra(8721) == YearDay(23, 321);
    assert (19738 + 719468) / 146097 == 5 && (19738 + 719468) % 146097 == 8721;
    assert (5 * 321 + 2) / 153 == 10 && MonthStart(10) == 306;
  }

  lemma Day20071()
    ensures DaysFromCivil(2024, 12, 14) == 20071
    ensures CivilFromDays(20072) == Date(2024, 12, 15) && Weekday(20072) == 0
  {
    assert YearStart(24) == 8766 && MonthStart(9) == 275;
    assert YearOfEra(9055) == YearDay(24, 289);
    assert (20072 + 719468) / 146097 == 5 && (20072 + 719468) % 146097 == 9055;
    assert (5 * 289 + 2) / 153 == 9;
  }

  /** The instants of the scenarios below, as day numbers and the time into the day. */
  lemma ScenarioInstants(serverOffset: int)
    ensures ToClientTime(UtcInstant(2024, 1, 15, 0, 0), Some(-540), serverOffset) - serverOffset * MsPerMinute == 19737 * MsPerDay + 9 * MsPerHour
    ensures ToClientTime(UtcInstant(2024, 1, 15, 15, 0), Some(-540), serverOffset) - serverOffset * MsPerMinute == 19738 * MsPerDay + 0
    ensures LocalInstant(2024, 1, 15, 12, 0, serverOffset) - serverOffset * MsPerMinute == 19737 * MsPerDay + 12 * MsPerHour
    ensures ToClientTime(UtcInstant(2024, 12, 14, 23, 0), Some(-540), serverOffset) - serverOffset * MsPerMinute == 20072 * MsPerDay + 8 * MsPerHour
  {
    Day19737();
    Day20071();
  }

  /** Midnight UTC on 15 January 2024 is 09:00 the same day at offset -540. */
  lemma UtcMidnightIsNineInTokyo(serverOffset: int)
    ensures var f := LocalFields(ToClientTime(UtcInstant(2024, 1, 15, 0, 0), Some(-540), serverOffset), serverOffset);
      f.hours == 9 && f.CalendarDate() == Date(2024, 1, 15)
  {
    Day19737();
    ScenarioInstants(serverOffset);
    UtcFieldsAt(19737, 9 * MsPerHour);
  }

  /** 15:00 UTC is midnight of the next day at offset -540. */
  lemma AfternoonUtcIsNextDayInTokyo(serverOffset: int)
    ensures var f := LocalFields(ToClientTime(UtcInstant(2024, 1, 15, 15, 0), Some(-540), serverOffset), serverOffset);
      f.hours == 0 && f.minutes == 0 && f.CalendarDate() == Date(2024, 1, 16)
  {
    Day19738();
    ScenarioInstants(serverOffset);
    UtcFieldsAt(19738, 0);
  }

  /** Monday 15 January 2024, noon local time, is labelled `1月15日 (月)`. */
  lemma LabelOfMonday(serverOffset: int)
    ensures FormatDateJapanese(LocalFields(LocalInstant(2024, 1, 15, 12, 0, serverOffset), serverOffset)) == "1月15日 (月)"
  {
    Day19737();
    ScenarioInstants(serverOffset);
    UtcFieldsAt(19737, 12 * MsPerHour);
    NatToStringExamples();
  }

  /** 23:00 UTC on 14 December 2024 is Sunday 15 December at offset -540: `12月15日 (日)`. */
  lemma LabelAcrossMidnight(serverOffset: int)
    ensures var f := LocalFields(ToClientTime(UtcInstant(2024, 12, 14, 23, 0), Some(-540), serverOffset), serverOffset);
      f.CalendarDate() == Date(2024, 12, 15) && f.hours == 8 && FormatDateJapanese(f) == "12月15日 (日)"
  {
    Day20071();
    ScenarioInstants(serverOffset);
    UtcFieldsAt(20072, 8 * MsPerHour);
    NatToStringExamples();
  }
}
