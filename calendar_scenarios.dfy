/**
 * The rescheduled-occurrence scenario of the calendar tests, on 15 January
 * 2024 at offset -540 (Asia/Tokyo): a daily series whose DTSTART is two days
 * earlier at 16:00, whose UNTIL is the day before, and one RECURRENCE-ID
 * exception that moves the occurrence of the day before to today 16:00-16:30.
 *
 * Day 19737 is 15 January 2024; 16:00 at offset -540 is 07:00 UTC.
 */
module CalendarScenarios {
  import opened Wrappers
  import opened Civil
  import opened Calendar

  const SeriesUid: string := "test-recurring-with-exception"

  /** The RECURRENCE-ID of the exception: the series' occurrence of 14 January 16:00. */
  const MovedKey: string := "2024-01-14T16:00:00"

  /** The exception: today 16:00-16:30 at offset -540. */
  function Rescheduled(): VEvent {
    VEvent(SeriesUid, Some(MovedKey), "Rescheduled Meeting", 19737 * MsPerDay + 7 * MsPerHour, false,
      Some(19737 * MsPerDay + 7 * MsPerHour + 30 * MsPerMinute), Some(1800), None)
  }

  /**
   * The series: from DTSTART its iterator yields 13 and 14 January at 16:00;
   * `run` is what it yields when seeded at the window start.
   */
  function Series(run: seq<Occurrence>): VEvent {
    VEvent(SeriesUid, None, "Original Meeting", 19735 * MsPerDay + 7 * MsPerHour, false,
      Some(19735 * MsPerDay + 7 * MsPerHour + 30 * MsPerMinute), Some(1800),
      Some(Recurrence(
        [Occurrence("2024-01-13T16:00:00", 19735 * MsPerDay + 7 * MsPerHour),
         Occurrence(MovedKey, 19736 * MsPerDay + 7 * MsPerHour)],
        run)))
  }

  function Feed(run: seq<Occurrence>): seq<VEvent> {
    [Series(run), Rescheduled()]
  }

  /** The only exception filed is the rescheduled occurrence. */
  lemma FeedExceptions(run: seq<Occurrence>)
    ensures ExceptionTable(Feed(run)) == map[(SeriesUid, MovedKey) := Rescheduled()]
  {
    var feed := Feed(run);
    assert feed[..1] == [Series(run)] && [Series(run)][..0] == [];
    assert ExceptionTable([Series(run)]) == ExceptionTable([]) == map[];
    assert ExceptionTable(feed) == ExceptionTable(feed[..1])[(SeriesUid, MovedKey) := Rescheduled()];
  }

  /** A clock reading on 15 January at offset -540 no later than 17:30 there. */
  predicate MorningUntilCutoff(now: int) {
    19737 * MsPerDay - 540 * MsPerMinute <= now <= 19737 * MsPerDay + 8 * MsPerHour + 30 * MsPerMinute
  }

  lemma TokyoDay(now: int)
    requires MorningUntilCutoff(now)
    ensures (now - (-540) * MsPerMinute) / MsPerDay == 19737
  {
    DayOfInstant(now - (-540) * MsPerMinute, 19737);
  }

  /** The window at such a clock reading: 15 and 16 January at offset -540. */
  lemma ScenarioWindow(now: int, serverOffset: int)
    requires MorningUntilCutoff(now)
    ensures var w := MakeWindow(now, Some(-540), serverOffset);
      w.offset == -540 && w.hideCutoff == now - MsPerHour &&
      w.todayStart == 19737 * MsPerDay - 540 * MsPerMinute &&
      w.dayAfterStart == 19739 * MsPerDay - 540 * MsPerMinute
  {
    WindowBounds(now, Some(-540), serverOffset);
    TokyoDay(now);
  }

  /** 07:00 UTC on day 19737 reads `16:00` at offset -540. */
  lemma SixteenHundred()
    ensures TimeStr(19737 * MsPerDay + 7 * MsPerHour, -540) == "16:00"
  {
    assert 19737 * MsPerDay + 7 * MsPerHour - (-540) * MsPerMinute == 19737 * MsPerDay + 16 * MsPerHour;
    UtcFieldsAt(19737, 16 * MsPerHour);
    TimeKeyShape(16, 0);
  }

  /**
   * The module version: when the iterator seeded at the window start reaches
   * the occurrence keyed by the RECURRENCE-ID (within 100 steps, nothing
   * earlier past the window), today's list holds the rescheduled meeting at
   * 16:00 with badge `test`, as the test expects, up to 17:30 local time.
   */
  lemma RescheduledFoundByModule(run: seq<Occurrence>, j: nat, serverOffset: int, now: int)
    requires MorningUntilCutoff(now)
    requires j < |run| && j < 100 && run[j].key == MovedKey
    requires forall k :: 0 <= k <= j ==> run[k].start < 19739 * MsPerDay - 540 * MsPerMinute
    ensures Item("Rescheduled Meeting", false, Some("test"), Some("16:00")) in
      Resolved(Feed(run), "test", Some(-540), serverOffset, now, ModuleVariant).today
  {
    FeedExceptions(run);
    ScenarioWindow(now, serverOffset);
    SixteenHundred();
    assert Occurrences(Series(run).rule.value, ModuleVariant) == run;
    MovedExceptionListedToday(Feed(run), "test", Some(-540), serverOffset, now, ModuleVariant, 0, j);
  }

  /**
   * The inline version iterates from DTSTART and skips both occurrences,
   * which start before the window, so the exception is never consulted:
   * both lists are empty.
   */
  lemma RescheduledLostInline(run: seq<Occurrence>, serverOffset: int, now: int)
    requires MorningUntilCutoff(now)
    ensures Resolved(Feed(run), "test", Some(-540), serverOffset, now, InlineVariant) == Agenda([], [])
  {
    var w := MakeWindow(now, Some(-540), serverOffset);
    var exceptions := ExceptionTable(Feed(run));
    ScenarioWindow(now, serverOffset);
    InlineStaleRule(Series(run), exceptions, w);
    FeedSlots(run, exceptions, w, InlineVariant);
    assert Select(w, "test", [], Today) == [] && Select(w, "test", [], Tomorrow) == [];
  }

  /** The feed's occurrences are the series' own: the exception contributes none. */
  lemma FeedSlots(run: seq<Occurrence>, exceptions: map<ExceptionKey, VEvent>, w: Window, v: Variant)
    ensures AllSlots(Feed(run), exceptions, w, v) == EventSlots(Series(run), exceptions, w, v)
  {
    var feed := Feed(run);
    assert feed[..1] == [Series(run)] && [Series(run)][..0] == [];
    assert AllSlots([Series(run)], exceptions, w, v) == [] + EventSlots(Series(run), exceptions, w, v);
    assert EventSlots(Rescheduled(), exceptions, w, v) == [];
  }
}
