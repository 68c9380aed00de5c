/**
 * The two-day agenda resolver `parseICS`: from the events of one iCalendar
 * feed it builds the lists of today's and tomorrow's items in the display's
 * timezone.
 *
 * The iCalendar library is abstracted: an event arrives as the values the
 * library reports for it (UID, RECURRENCE-ID as its text, summary, start
 * instant, whether the start is a DATE value, end instant and duration when
 * the library reports them) and, for a recurring event, the finite run of
 * occurrences its iterator would yield, each as the occurrence's text key
 * and start instant. The iterator is seeded at DTSTART in one version and
 * at the window start in the other, so both runs are part of the input.
 *
 * The two versions of the resolver differ only in a `Variant`: where the
 * iterator is seeded, the iteration cap, and whether occurrences starting
 * before the window are skipped.
 */
module Calendar {
  import opened Wrappers
  import opened Text
  import opened Civil
  import opened Timezone

  /** One value yielded by the recurrence iterator: its `toString()` key and its start. */
  datatype Occurrence = Occurrence(key: string, start: int)

  /** What the iterator yields when seeded at DTSTART and when seeded at the window start. */
  datatype Recurrence = Recurrence(fromDtStart: seq<Occurrence>, fromWindowStart: seq<Occurrence>)

  /**
   * A VEVENT as the iCalendar library reports it; an empty `summary` stands
   * for a missing one, `duration` is in seconds, and `rule` is present
   * exactly when the event is recurring.
   */
  datatype VEvent = VEvent(
    uid: string,
    recurrenceId: Option<string>,
    summary: string,
    start: int,
    isDate: bool,
    end: Option<int>,
    duration: Option<int>,
    rule: Option<Recurrence>)

  /** An agenda entry `{summary, allDay, badge?, time?}`. */
  datatype Item = Item(summary: string, allDay: bool, badge: Option<string>, time: Option<string>)

  /** The result `{today: [...], tomorrow: [...]}`. */
  datatype Agenda = Agenda(today: seq<Item>, tomorrow: seq<Item>)

  /** Where the two versions of `parseICS` differ. */
  datatype Variant = Variant(seedAtWindowStart: bool, cap: nat, skipBeforeWindow: bool)

  /** The module version: iterator seeded at the window start, at most 100 steps. */
  const ModuleVariant: Variant := Variant(true, 100, false)

  /** The version the server runs: iterator from DTSTART, at most 1000 steps, earlier starts skipped. */
  const InlineVariant: Variant := Variant(false, 1000, true)

  /**
   * The fixed values computed before the events are read: the effective
   * offset, the client-local dates of today and tomorrow (whose keys are
   * `todayStr` and `tomorrowStr`), the window bounds and the cutoff.
   */
  datatype Window = Window(
    offset: int,
    today: CivilDate,
    tomorrow: CivilDate,
    todayStart: int,
    dayAfterStart: int,
    hideCutoff: int)
  {
    function TodayStr(): string {
      DateKey(today)
    }

    function TomorrowStr(): string {
      DateKey(tomorrow)
    }
  }

  /** An occurrence after exception substitution: what gets bucketed. */
  datatype Slot = Slot(summary: string, allDay: bool, start: int, end: int)

  /** Exceptions are keyed by UID and RECURRENCE-ID text (section 3.8.4.4 of RFC 5545). */
  type ExceptionKey = (string, string)

  /** Where an occurrence goes. */
  datatype Bucket = Today | Tomorrow | Dropped

  // ---------------------------------------------------------------------
  // Client-local fields and the window

  /** The getters of `toClientTime(t)` with offset `off`, which are the same on any host. */
  function ClientFields(t: int, off: int): Fields {
    UtcFields(t - off * MsPerMinute)
  }

  lemma ClientFieldsOnAnyHost(t: int, off: int, serverOffset: int)
    ensures ClientFields(t, off) == LocalFields(ToClientTime(t, Some(off), serverOffset), serverOffset)
  {
    ClientTimeFields(t, off, serverOffset);
  }

  /** The date getters alone of `toClientTime(t)`. */
  function ClientDate(t: int, off: int): (d: Date)
    ensures ValidDate(d)
  {
    CivilFromDays((t - off * MsPerMinute) / MsPerDay)
  }

  lemma ClientDateOfFields(t: int, off: int)
    ensures ClientFields(t, off).CalendarDate() == ClientDate(t, off)
  {
  }

  /** `dateStr(d)`: the client-local `YYYYMMDD`. */
  function DateStr(t: int, off: int): string {
    DateKey(ClientDate(t, off))
  }

  /** `timeStr(d)`: the client-local `HH:MM`. */
  function TimeStr(t: int, off: int): string {
    var f := ClientFields(t, off);
    TimeKey(f.hours, f.minutes)
  }

  /**
   * The effective offset (the one given, else the server's), today's date
   * and the next one, client-local midnight of today (`Date.UTC` of today's
   * date shifted by the offset), 48 hours later, and an hour before `now`.
   */
  function MakeWindow(now: int, tz: Option<int>, serverOffset: int): (w: Window)
    ensures w.offset == tz.GetOr(serverOffset) && w.hideCutoff == now - MsPerHour
    ensures w.today == ClientDate(now, w.offset) && w.tomorrow == NextDate(w.today)
    ensures ValidDate(w.today) && ValidDate(w.tomorrow)
  {
    var off := tz.GetOr(serverOffset);
    var d := ClientDate(now, off);
    var todayStart := DaysFromCivil(d.year, d.month, d.day) * MsPerDay + off * MsPerMinute;
    Window(off, d, NextDate(d), todayStart, todayStart + 2 * 24 * 60 * 60 * 1000, now - 60 * 60 * 1000)
  }

  /** Keys of valid dates are equal exactly when the dates are. */
  lemma DateStrIs(t: int, off: int, d: Date)
    requires ValidDate(d)
    ensures DateStr(t, off) == DateKey(d) <==> ClientDate(t, off) == d
  {
    if DateStr(t, off) == DateKey(d) {
      DateKeyInjective(ClientDate(t, off), d);
    }
  }

  /** An instant falls on the civil date of day `z` exactly when it lies within that client-local day. */
  lemma ClientDateIsDay(t: int, off: int, z: int)
    ensures ClientDate(t, off) == CivilFromDays(z) <==>
      z * MsPerDay <= t - off * MsPerMinute < z * MsPerDay + MsPerDay
  {
    var x := t - off * MsPerMinute;
    var zx := x / MsPerDay;
    assert ClientDate(t, off) == CivilFromDays(zx);
    DayOfInstant(x, z);
    if CivilFromDays(zx) == CivilFromDays(z) {
      CivilFromDaysInjective(zx, z);
    }
  }

  lemma DayOfInstant(x: int, z: int)
    ensures x / MsPerDay == z <==> z * MsPerDay <= x < z * MsPerDay + MsPerDay
  {
  }

  /** The window of client-local day `z`. */
  predicate WindowOfDay(w: Window, z: int) {
    w.todayStart == z * MsPerDay + w.offset * MsPerMinute &&
    w.dayAfterStart == w.todayStart + 2 * MsPerDay &&
    w.today == CivilFromDays(z) &&
    w.tomorrow == CivilFromDays(z + 1)
  }

  /** The window `parseICS` computes is the window of the client-local day holding `now`. */
  lemma WindowDay(now: int, tz: Option<int>, serverOffset: int)
    ensures var w := MakeWindow(now, tz, serverOffset);
      w.offset == tz.GetOr(serverOffset) && w.hideCutoff == now - MsPerHour &&
      WindowOfDay(w, (now - tz.GetOr(serverOffset) * MsPerMinute) / MsPerDay)
  {
    var z := (now - tz.GetOr(serverOffset) * MsPerMinute) / MsPerDay;
    DaysFromCivilOfCivilFromDays(z);
    NextDateOfCivil(z);
  }

  /** The bounds of the window alone, in terms of the client-local day number of `now`. */
  lemma WindowBounds(now: int, tz: Option<int>, serverOffset: int)
    ensures var w := MakeWindow(now, tz, serverOffset);
      var off := tz.GetOr(serverOffset);
      w.offset == off && w.hideCutoff == now - MsPerHour &&
      w.todayStart == (now - off * MsPerMinute) / MsPerDay * MsPerDay + off * MsPerMinute &&
      w.dayAfterStart == w.todayStart + 2 * MsPerDay
  {
    WindowDay(now, tz, serverOffset);
  }

  lemma TodayOfDay(w: Window, z: int, t: int)
    requires WindowOfDay(w, z)
    ensures DateStr(t, w.offset) == w.TodayStr() <==> w.todayStart <= t < w.todayStart + MsPerDay
  {
    DateStrIs(t, w.offset, w.today);
    ClientDateIsDay(t, w.offset, z);
  }

  lemma TomorrowOfDay(w: Window, z: int, t: int)
    requires WindowOfDay(w, z)
    ensures DateStr(t, w.offset) == w.TomorrowStr() <==> w.todayStart + MsPerDay <= t < w.dayAfterStart
  {
    DateStrIs(t, w.offset, w.tomorrow);
    ClientDateIsDay(t, w.offset, z + 1);
  }

  /** An instant has today's key exactly when it falls in the first 24 hours of the window. */
  lemma TodayKeyInWindow(now: int, tz: Option<int>, serverOffset: int, t: int)
    ensures var w := MakeWindow(now, tz, serverOffset);
      DateStr(t, w.offset) == w.TodayStr() <==> w.todayStart <= t < w.todayStart + MsPerDay
  {
    WindowDay(now, tz, serverOffset);
    TodayOfDay(MakeWindow(now, tz, serverOffset), (now - tz.GetOr(serverOffset) * MsPerMinute) / MsPerDay, t);
  }

  /** An instant has tomorrow's key exactly when it falls in the last 24 hours of the window. */
  lemma TomorrowKeyInWindow(now: int, tz: Option<int>, serverOffset: int, t: int)
    ensures var w := MakeWindow(now, tz, serverOffset);
      DateStr(t, w.offset) == w.TomorrowStr() <==> w.todayStart + MsPerDay <= t < w.dayAfterStart
  {
    WindowDay(now, tz, serverOffset);
    TomorrowOfDay(MakeWindow(now, tz, serverOffset), (now - tz.GetOr(serverOffset) * MsPerMinute) / MsPerDay, t);
  }

  lemma ShapeOfDay(w: Window, z: int)
    requires WindowOfDay(w, z)
    ensures ClientFields(w.todayStart, w.offset).hours == 0
    ensures ClientFields(w.todayStart, w.offset).minutes == 0
    ensures DateStr(w.todayStart, w.offset) == w.TodayStr()
    ensures DateStr(w.todayStart + MsPerDay, w.offset) == w.TomorrowStr()
    ensures w.TodayStr() != w.TomorrowStr()
  {
    assert w.todayStart - w.offset * MsPerMinute == z * MsPerDay;
    UtcFieldsMidnight(z);
    TodayOfDay(w, z, w.todayStart);
    TomorrowOfDay(w, z, w.todayStart + MsPerDay);
    TodayOfDay(w, z, w.todayStart + MsPerDay);
  }

  /**
   * The window is 48 hours starting at the client-local midnight of the day
   * holding `now`; `todayStr` is that midnight's key, `tomorrowStr` the key
   * 24 hours later, and the two differ.
   */
  lemma WindowShape(now: int, tz: Option<int>, serverOffset: int)
    ensures var w := MakeWindow(now, tz, serverOffset);
      w.dayAfterStart - w.todayStart == 48 * MsPerHour &&
      w.todayStart <= now < w.todayStart + MsPerDay &&
      ClientFields(w.todayStart, w.offset).hours == 0 &&
      ClientFields(w.todayStart, w.offset).minutes == 0 &&
      DateStr(w.todayStart, w.offset) == w.TodayStr() &&
      DateStr(w.todayStart + MsPerDay, w.offset) == w.TomorrowStr() &&
      w.TodayStr() != w.TomorrowStr()
  {
    WindowDay(now, tz, serverOffset);
    ShapeOfDay(MakeWindow(now, tz, serverOffset), (now - tz.GetOr(serverOffset) * MsPerMinute) / MsPerDay);
  }

  // ---------------------------------------------------------------------
  // Exceptions

  predicate IsExceptionFor(e: VEvent, uid: string, key: string) {
    e.uid == uid && e.recurrenceId == Some(key)
  }

  /** `exceptions[uid][recurrenceId]`, filled in event order, so a later entry replaces an earlier one. */
  function ExceptionTable(events: seq<VEvent>): map<ExceptionKey, VEvent>
  {
    if |events| == 0 then map[]
    else
      var table := ExceptionTable(events[..|events| - 1]);
      var e := events[|events| - 1];
      if e.recurrenceId.Some? then table[(e.uid, e.recurrenceId.value) := e] else table
  }

  /** The first pass over the events. */
  method BuildExceptions(events: seq<VEvent>) returns (exceptions: map<ExceptionKey, VEvent>)
    ensures exceptions == ExceptionTable(events)
  {
    exceptions := map[];
    var i := 0;
    while i < |events|
      invariant i <= |events|
      invariant exceptions == ExceptionTable(events[..i])
    {
      var e := events[i];
      assert events[..i + 1][..i] == events[..i];
      if e.recurrenceId.Some? {
        exceptions := exceptions[(e.uid, e.recurrenceId.value) := e];
      }
      i := i + 1;
    }
    assert events[..i] == events;
  }

  /**
   * The table holds an entry for `(uid, key)` exactly when some event carries
   * that UID and RECURRENCE-ID, and the entry is the last such event.
   */
  lemma {:induction false} ExceptionTableLookup(events: seq<VEvent>, uid: string, key: string)
    ensures (uid, key) in ExceptionTable(events) <==>
      exists i :: 0 <= i < |events| && IsExceptionFor(events[i], uid, key)
    ensures (uid, key) in ExceptionTable(events) ==>
      exists i :: 0 <= i < |events| && IsExceptionFor(events[i], uid, key) &&
        ExceptionTable(events)[(uid, key)] == events[i] &&
        forall j :: i < j < |events| ==> !IsExceptionFor(events[j], uid, key)
  {
    if |events| > 0 {
      var prefix := events[..|events| - 1];
      var last := |events| - 1;
      ExceptionTableLookup(prefix, uid, key);
      assert forall i :: 0 <= i < last ==> prefix[i] == events[i];
      if IsExceptionFor(events[last], uid, key) {
        assert ExceptionTable(events)[(uid, key)] == events[last];
      } else if (uid, key) in ExceptionTable(prefix) {
        var i :| 0 <= i < |prefix| && IsExceptionFor(prefix[i], uid, key) &&
          ExceptionTable(prefix)[(uid, key)] == prefix[i] &&
          forall j :: i < j < |prefix| ==> !IsExceptionFor(prefix[j], uid, key);
        assert ExceptionTable(events)[(uid, key)] == events[i];
      }
    }
  }

  // ---------------------------------------------------------------------
  // Walking the occurrences of one event

  /** `event.summary || '(No title)'` */
  function Title(summary: string): (t: string)
    ensures t != ""
    ensures summary != "" ==> t == summary
  {
    if summary == "" then "(No title)" else summary
  }

  /**
   * The number of occurrences the loop processes: it stops at the cap, at
   * the end of the run, or at the first occurrence starting at or after
   * `end`.
   */
  function StopIndex(occs: seq<Occurrence>, cap: nat, end: int): (n: nat)
    ensures n <= |occs| && n <= cap
    ensures forall j :: 0 <= j < n ==> occs[j].start < end
    ensures n < |occs| && n < cap ==> occs[n].start >= end
  {
    if |occs| == 0 || cap == 0 || occs[0].start >= end then 0
    else 1 + StopIndex(occs[1..], cap - 1, end)
  }

  /** The variables the loop carries: `summary`, `isAllDay`, and the occurrences produced so far. */
  datatype Carry = Carry(summary: string, allDay: bool, slots: seq<Slot>)

  /**
   * One pass of the loop body: skip (inline version) a start before the
   * window; substitute the exception filed under this occurrence's key,
   * whose summary (when it has one) and all-day flag replace the carried
   * ones for good; otherwise keep the occurrence's start and add the
   * duration.
   */
  function Step(c: Carry, e: VEvent, exceptions: map<ExceptionKey, VEvent>, w: Window, v: Variant, o: Occurrence): Carry {
    if v.skipBeforeWindow && o.start < w.todayStart then c
    else if (e.uid, o.key) in exceptions then
      var x := exceptions[(e.uid, o.key)];
      var summary := if x.summary != "" then x.summary else c.summary;
      Carry(summary, x.isDate, c.slots + [Slot(summary, x.isDate, x.start, x.end.GetOr(x.start))])
    else
      var end := if e.duration.Some? then o.start + e.duration.value * 1000 else o.start;
      Carry(c.summary, c.allDay, c.slots + [Slot(c.summary, c.allDay, o.start, end)])
  }

  /** The carried variables after the first `n` occurrences. */
  function Walk(e: VEvent, exceptions: map<ExceptionKey, VEvent>, w: Window, v: Variant, occs: seq<Occurrence>, n: nat): Carry
    requires n <= |occs|
  {
    if n == 0 then Carry(Title(e.summary), e.isDate, [])
    else Step(Walk(e, exceptions, w, v, occs, n - 1), e, exceptions, w, v, occs[n - 1])
  }

  /** The iterator run the variant uses. */
  function Occurrences(r: Recurrence, v: Variant): seq<Occurrence> {
    if v.seedAtWindowStart then r.fromWindowStart else r.fromDtStart
  }

  /** The end of a single event: its end, else start plus duration, else its start. */
  function SingleEnd(e: VEvent): int {
    if e.end.Some? then e.end.value
    else if e.duration.Some? then e.start + e.duration.value * 1000
    else e.start
  }

  /** The occurrences one event contributes; an exception contributes none of its own. */
  function EventSlots(e: VEvent, exceptions: map<ExceptionKey, VEvent>, w: Window, v: Variant): seq<Slot> {
    if e.recurrenceId.Some? then []
    else if e.rule.Some? then
      var occs := Occurrences(e.rule.value, v);
      Walk(e, exceptions, w, v, occs, StopIndex(occs, v.cap, w.dayAfterStart)).slots
    else [Slot(Title(e.summary), e.isDate, e.start, SingleEnd(e))]
  }

  /** The occurrences of the first events, in processing order. */
  function AllSlots(events: seq<VEvent>, exceptions: map<ExceptionKey, VEvent>, w: Window, v: Variant): seq<Slot> {
    if |events| == 0 then []
    else AllSlots(events[..|events| - 1], exceptions, w, v) + EventSlots(events[|events| - 1], exceptions, w, v)
  }

  /** Each pass adds at most one occurrence, and exactly one when nothing is skipped. */
  lemma {:induction false} WalkLength(e: VEvent, exceptions: map<ExceptionKey, VEvent>, w: Window, v: Variant, occs: seq<Occurrence>, n: nat)
    requires n <= |occs|
    ensures |Walk(e, exceptions, w, v, occs, n).slots| <= n
    ensures !v.skipBeforeWindow ==> |Walk(e, exceptions, w, v, occs, n).slots| == n
  {
    if n > 0 {
      WalkLength(e, exceptions, w, v, occs, n - 1);
    }
  }

  /** The carried title, and so every occurrence's title, is never empty. */
  lemma {:induction false} WalkTitles(e: VEvent, exceptions: map<ExceptionKey, VEvent>, w: Window, v: Variant, occs: seq<Occurrence>, n: nat)
    requires n <= |occs|
    ensures Walk(e, exceptions, w, v, occs, n).summary != ""
    ensures forall s :: s in Walk(e, exceptions, w, v, occs, n).slots ==> s.summary != ""
  {
    if n > 0 {
      WalkTitles(e, exceptions, w, v, occs, n - 1);
    }
  }

  /** Later passes only append: the occurrences after `m` passes begin those after `n >= m`. */
  lemma {:induction false} WalkPrefix(e: VEvent, exceptions: map<ExceptionKey, VEvent>, w: Window, v: Variant, occs: seq<Occurrence>, m: nat, n: nat)
    requires m <= n <= |occs|
    ensures Walk(e, exceptions, w, v, occs, m).slots <= Walk(e, exceptions, w, v, occs, n).slots
    decreases n
  {
    if m < n {
      WalkPrefix(e, exceptions, w, v, occs, m, n - 1);
    }
  }

  /**
   * An occurrence reached (and, in the inline version, not skipped) whose
   * key has an exception is replaced by the exception: its start, all-day
   * flag and end (its start when it has none), and its title when it has one.
   */
  lemma ExceptionReplacesOccurrence(e: VEvent, exceptions: map<ExceptionKey, VEvent>, w: Window, v: Variant, occs: seq<Occurrence>, n: nat, j: nat)
    requires j < n <= |occs|
    requires !(v.skipBeforeWindow && occs[j].start < w.todayStart)
    requires (e.uid, occs[j].key) in exceptions
    ensures var x := exceptions[(e.uid, occs[j].key)];
      exists s :: s in Walk(e, exceptions, w, v, occs, n).slots &&
        s.start == x.start && s.allDay == x.isDate && s.end == x.end.GetOr(x.start) &&
        (x.summary != "" ==> s.summary == x.summary)
  {
    var x := exceptions[(e.uid, occs[j].key)];
    var before := Walk(e, exceptions, w, v, occs, j);
    var s := Slot(if x.summary != "" then x.summary else before.summary, x.isDate, x.start, x.end.GetOr(x.start));
    assert Walk(e, exceptions, w, v, occs, j + 1).slots == before.slots + [s];
    WalkPrefix(e, exceptions, w, v, occs, j + 1, n);
    assert s in Walk(e, exceptions, w, v, occs, j + 1).slots;
  }

  /**
   * An occurrence starts before the end of the window (and, when earlier
   * starts are skipped, no earlier than the window start), unless an
   * exception moved it: then it starts where that exception does.
   */
  predicate InWindowOrMoved(s: Slot, w: Window, v: Variant, exceptions: map<ExceptionKey, VEvent>) {
    (s.start < w.dayAfterStart && (v.skipBeforeWindow ==> w.todayStart <= s.start)) ||
    exists k :: k in exceptions && exceptions[k].start == s.start
  }

  lemma {:induction false} WalkStarts(e: VEvent, exceptions: map<ExceptionKey, VEvent>, w: Window, v: Variant, occs: seq<Occurrence>, n: nat)
    requires n <= |occs|
    requires forall j :: 0 <= j < n ==> occs[j].start < w.dayAfterStart
    ensures forall s :: s in Walk(e, exceptions, w, v, occs, n).slots ==> InWindowOrMoved(s, w, v, exceptions)
  {
    if n > 0 {
      WalkStarts(e, exceptions, w, v, occs, n - 1);
      var o := occs[n - 1];
      var k := (e.uid, o.key);
      if k in exceptions && !(v.skipBeforeWindow && o.start < w.todayStart) {
        assert InWindowOrMoved(Slot(if exceptions[k].summary != "" then exceptions[k].summary else Walk(e, exceptions, w, v, occs, n - 1).summary,
          exceptions[k].isDate, exceptions[k].start, exceptions[k].end.GetOr(exceptions[k].start)), w, v, exceptions);
      }
    }
  }

  /** When every occurrence the loop reaches starts before the window, the inline version keeps none of them. */
  lemma {:induction false} WalkAllSkipped(e: VEvent, exceptions: map<ExceptionKey, VEvent>, w: Window, v: Variant, occs: seq<Occurrence>, n: nat)
    requires n <= |occs| && v.skipBeforeWindow
    requires forall j :: 0 <= j < n ==> occs[j].start < w.todayStart
    ensures Walk(e, exceptions, w, v, occs, n).slots == []
  {
    if n > 0 {
      WalkAllSkipped(e, exceptions, w, v, occs, n - 1);
    }
  }

  /**
   * The title and the all-day flag of an exception stay in the loop's
   * variables: a later occurrence with no exception of its own is pushed
   * with them, not with the series' own.
   */
  lemma ExceptionCarriesOver(c: Carry, e: VEvent, exceptions: map<ExceptionKey, VEvent>, w: Window, v: Variant, o1: Occurrence, o2: Occurrence)
    requires !(v.skipBeforeWindow && o1.start < w.todayStart) && !(v.skipBeforeWindow && o2.start < w.todayStart)
    requires (e.uid, o1.key) in exceptions && exceptions[(e.uid, o1.key)].summary != ""
    requires (e.uid, o2.key) !in exceptions
    ensures var x := exceptions[(e.uid, o1.key)];
      var end := if e.duration.Some? then o2.start + e.duration.value * 1000 else o2.start;
      Step(Step(c, e, exceptions, w, v, o1), e, exceptions, w, v, o2).slots ==
        c.slots + [Slot(x.summary, x.isDate, x.start, x.end.GetOr(x.start)), Slot(x.summary, x.isDate, o2.start, end)]
  {
  }

  /**
   * What one event contributes: nothing for an exception, one occurrence for
   * a single event, and for a recurring one at most the cap, exactly as many
   * as the loop reaches when nothing is skipped.
   */
  lemma EventSlotsCount(e: VEvent, exceptions: map<ExceptionKey, VEvent>, w: Window, v: Variant)
    ensures e.recurrenceId.Some? ==> EventSlots(e, exceptions, w, v) == []
    ensures e.recurrenceId.None? && e.rule.None? ==> |EventSlots(e, exceptions, w, v)| == 1
    ensures e.recurrenceId.None? && e.rule.Some? ==> |EventSlots(e, exceptions, w, v)| <= v.cap
    ensures e.recurrenceId.None? && e.rule.Some? && !v.skipBeforeWindow ==>
      var occs := Occurrences(e.rule.value, v);
      |EventSlots(e, exceptions, w, v)| == StopIndex(occs, v.cap, w.dayAfterStart)
  {
    if e.recurrenceId.None? && e.rule.Some? {
      var occs := Occurrences(e.rule.value, v);
      WalkLength(e, exceptions, w, v, occs, StopIndex(occs, v.cap, w.dayAfterStart));
    }
  }

  /** The module version yields at most 100 occurrences of a recurring event. */
  lemma ModuleVariantCap(e: VEvent, exceptions: map<ExceptionKey, VEvent>, w: Window)
    ensures |EventSlots(e, exceptions, w, ModuleVariant)| <= 100
  {
    EventSlotsCount(e, exceptions, w, ModuleVariant);
  }

  /**
   * The inline version iterates from DTSTART and gives up after 1000 steps:
   * a recurring event whose first 1000 occurrences all start before the
   * window (a daily event begun years ago) contributes nothing.
   */
  lemma InlineStaleRule(e: VEvent, exceptions: map<ExceptionKey, VEvent>, w: Window)
    requires e.recurrenceId.None? && e.rule.Some?
    requires forall j :: 0 <= j < |e.rule.value.fromDtStart| && j < 1000 ==> e.rule.value.fromDtStart[j].start < w.todayStart
    ensures EventSlots(e, exceptions, w, InlineVariant) == []
  {
    var occs := e.rule.value.fromDtStart;
    WalkAllSkipped(e, exceptions, w, InlineVariant, occs, StopIndex(occs, 1000, w.dayAfterStart));
  }

  /** Every occurrence of a recurring event lies in the window unless an exception moved it. */
  lemma EventSlotsStarts(e: VEvent, exceptions: map<ExceptionKey, VEvent>, w: Window, v: Variant)
    requires e.rule.Some?
    ensures forall s :: s in EventSlots(e, exceptions, w, v) ==> InWindowOrMoved(s, w, v, exceptions)
  {
    if e.recurrenceId.None? {
      var occs := Occurrences(e.rule.value, v);
      WalkStarts(e, exceptions, w, v, occs, StopIndex(occs, v.cap, w.dayAfterStart));
    }
  }

  // ---------------------------------------------------------------------
  // Bucketing

  /**
   * Today's timed occurrences that ended before the cutoff are dropped;
   * otherwise today's key goes to today, tomorrow's to tomorrow, and any
   * other is dropped.
   */
  function Place(w: Window, s: Slot): Bucket {
    var key := DateStr(s.start, w.offset);
    if key == w.TodayStr() && !s.allDay && s.end < w.hideCutoff then Dropped
    else if key == w.TodayStr() then Today
    else if key == w.TomorrowStr() then Tomorrow
    else Dropped
  }

  /**
   * In the window of day `z`: an occurrence goes to today exactly when it
   * starts in the first 24 hours and is all-day or ends at or after the
   * cutoff, and to tomorrow exactly when it starts in the last 24 hours.
   */
  lemma PlaceOfDay(w: Window, z: int, s: Slot)
    requires WindowOfDay(w, z)
    ensures Place(w, s) == Today <==>
      w.todayStart <= s.start < w.todayStart + MsPerDay && (s.allDay || s.end >= w.hideCutoff)
    ensures Place(w, s) == Tomorrow <==> w.todayStart + MsPerDay <= s.start < w.dayAfterStart
  {
    TodayOfDay(w, z, s.start);
    TomorrowOfDay(w, z, s.start);
  }

  /** The same, for the window `parseICS` computes at `now`: the cutoff is an hour before `now`. */
  lemma PlaceInWindow(now: int, tz: Option<int>, serverOffset: int, s: Slot)
    ensures var w := MakeWindow(now, tz, serverOffset);
      (Place(w, s) == Today <==>
        w.todayStart <= s.start < w.todayStart + MsPerDay && (s.allDay || s.end >= now - MsPerHour)) &&
      (Place(w, s) == Tomorrow <==> w.todayStart + MsPerDay <= s.start < w.dayAfterStart)
  {
    WindowDay(now, tz, serverOffset);
    PlaceOfDay(MakeWindow(now, tz, serverOffset), (now - tz.GetOr(serverOffset) * MsPerMinute) / MsPerDay, s);
  }

  /** The record pushed: a badge only when it is non-empty, a time only when not all-day. */
  function ToItem(s: Slot, badge: string, off: int): (it: Item)
    ensures it.summary == s.summary && it.allDay == s.allDay
    ensures it.badge.Some? <==> badge != ""
    ensures it.badge.Some? ==> it.badge.value == badge
    ensures it.time.Some? <==> !s.allDay
    ensures it.time.Some? ==> |it.time.value| == 5 && '0' <= it.time.value[0] <= '2' && it.time.value[2] == ':'
  {
    var f := ClientFields(s.start, off);
    TimeKeyShape(f.hours, f.minutes);
    Item(s.summary, s.allDay,
      if badge != "" then Some(badge) else None,
      if !s.allDay then Some(TimeStr(s.start, off)) else None)
  }

  /** The concatenation of `f` over `slots`, in order. */
  function FlatMap(slots: seq<Slot>, f: Slot -> seq<Item>): seq<Item> {
    if |slots| == 0 then [] else f(slots[0]) + FlatMap(slots[1..], f)
  }

  lemma {:induction false} FlatMapAppend(s: seq<Slot>, t: seq<Slot>, f: Slot -> seq<Item>)
    ensures FlatMap(s + t, f) == FlatMap(s, f) + FlatMap(t, f)
  {
    if |s| > 0 {
      assert (s + t)[0] == s[0] && (s + t)[1..] == s[1..] + t;
      FlatMapAppend(s[1..], t, f);
    } else {
      assert s + t == t;
    }
  }

  lemma {:induction false} FlatMapMembership(slots: seq<Slot>, f: Slot -> seq<Item>, it: Item)
    ensures it in FlatMap(slots, f) <==> exists i :: 0 <= i < |slots| && it in f(slots[i])
  {
    if |slots| > 0 {
      FlatMapMembership(slots[1..], f, it);
      if it in FlatMap(slots[1..], f) {
        var i :| 0 <= i < |slots[1..]| && it in f(slots[1..][i]);
        assert it in f(slots[i + 1]);
      }
      if exists i :: 0 <= i < |slots| && it in f(slots[i]) {
        var i :| 0 <= i < |slots| && it in f(slots[i]);
        if i > 0 {
          assert slots[1..][i - 1] == slots[i];
        }
      }
    }
  }

  /** The record of an occurrence when it goes to bucket `b`, else nothing. */
  function Pick(w: Window, badge: string, b: Bucket): Slot -> seq<Item> {
    s => if Place(w, s) == b then [ToItem(s, badge, w.offset)] else []
  }

  /** The records of the occurrences placed in bucket `b`, in order. */
  function Select(w: Window, badge: string, slots: seq<Slot>, b: Bucket): seq<Item> {
    FlatMap(slots, Pick(w, badge, b))
  }

  /** The agenda `parseICS` returns. */
  function Resolved(events: seq<VEvent>, badge: string, tz: Option<int>, serverOffset: int, now: int, v: Variant): Agenda {
    var w := MakeWindow(now, tz, serverOffset);
    var slots := AllSlots(events, ExceptionTable(events), w, v);
    Agenda(Select(w, badge, slots, Today), Select(w, badge, slots, Tomorrow))
  }

  lemma SelectAppend(w: Window, badge: string, s: seq<Slot>, t: seq<Slot>, b: Bucket)
    ensures Select(w, badge, s + t, b) == Select(w, badge, s, b) + Select(w, badge, t, b)
  {
    FlatMapAppend(s, t, Pick(w, badge, b));
  }

  /** A record is selected for bucket `b` exactly when it is the record of an occurrence placed there. */
  lemma SelectMembership(w: Window, badge: string, slots: seq<Slot>, b: Bucket, it: Item)
    ensures it in Select(w, badge, slots, b) <==>
      exists i :: 0 <= i < |slots| && Place(w, slots[i]) == b && it == ToItem(slots[i], badge, w.offset)
  {
    FlatMapMembership(slots, Pick(w, badge, b), it);
    assert forall i :: 0 <= i < |slots| ==>
      (it in Pick(w, badge, b)(slots[i]) <==> Place(w, slots[i]) == b && it == ToItem(slots[i], badge, w.offset));
  }

  /** A single occurrence yields its record exactly when it is placed in `b`. */
  lemma SelectSingle(w: Window, badge: string, s: Slot, b: Bucket)
    ensures Select(w, badge, [s], b) == if Place(w, s) == b then [ToItem(s, badge, w.offset)] else []
  {
    assert [s][1..] == [];
    assert FlatMap([s], Pick(w, badge, b)) == Pick(w, badge, b)(s) + FlatMap([], Pick(w, badge, b));
  }

  /** `acc` with the records of `slots` pushed onto today's and tomorrow's lists. */
  function Pushed(acc: Agenda, w: Window, badge: string, slots: seq<Slot>): Agenda {
    Agenda(acc.today + Select(w, badge, slots, Today), acc.tomorrow + Select(w, badge, slots, Tomorrow))
  }

  lemma PushedNothing(acc: Agenda, w: Window, badge: string)
    ensures Pushed(acc, w, badge, []) == acc
  {
    assert acc.today + [] == acc.today && acc.tomorrow + [] == acc.tomorrow;
  }

  /** Pushing two runs one after the other is pushing their concatenation. */
  lemma PushedAppend(acc: Agenda, w: Window, badge: string, s: seq<Slot>, t: seq<Slot>)
    ensures Pushed(Pushed(acc, w, badge, s), w, badge, t) == Pushed(acc, w, badge, s + t)
  {
    SelectAppend(w, badge, s, t, Today);
    SelectAppend(w, badge, s, t, Tomorrow);
    var a, b := Select(w, badge, s, Today), Select(w, badge, t, Today);
    var c, d := Select(w, badge, s, Tomorrow), Select(w, badge, t, Tomorrow);
    assert acc.today + a + b == acc.today + (a + b);
    assert acc.tomorrow + c + d == acc.tomorrow + (c + d);
  }

  /**
   * `it` is the record of an occurrence starting within the 24 hours from
   * `todayStart` that is all-day or ends at or after the cutoff.
   */
  predicate TodayRecord(w: Window, badge: string, slots: seq<Slot>, it: Item) {
    exists i :: 0 <= i < |slots| && it == ToItem(slots[i], badge, w.offset) &&
      w.todayStart <= slots[i].start < w.todayStart + MsPerDay && (slots[i].allDay || slots[i].end >= w.hideCutoff)
  }

  /** `it` is the record of an occurrence starting within the following 24 hours. */
  predicate TomorrowRecord(w: Window, badge: string, slots: seq<Slot>, it: Item) {
    exists i :: 0 <= i < |slots| && it == ToItem(slots[i], badge, w.offset) &&
      w.todayStart + MsPerDay <= slots[i].start < w.dayAfterStart
  }

  /** The records selected in the window of day `z`, in absolute time. */
  lemma SelectInWindow(w: Window, z: int, badge: string, slots: seq<Slot>, it: Item)
    requires WindowOfDay(w, z)
    ensures it in Select(w, badge, slots, Today) <==> TodayRecord(w, badge, slots, it)
    ensures it in Select(w, badge, slots, Tomorrow) <==> TomorrowRecord(w, badge, slots, it)
  {
    SelectMembership(w, badge, slots, Today, it);
    SelectMembership(w, badge, slots, Tomorrow, it);
    forall i | 0 <= i < |slots| {
      PlaceOfDay(w, z, slots[i]);
    }
  }

  /**
   * What `parseICS` promises about its two lists: a record is in today's
   * list exactly when it is the record of an occurrence that starts within
   * the 24 hours from the client-local midnight of `now` and is all-day or
   * ends no more than an hour before `now`, and in tomorrow's list exactly
   * when the occurrence starts within the following 24 hours.
   */
  lemma ResolvedMembership(events: seq<VEvent>, badge: string, tz: Option<int>, serverOffset: int, now: int, v: Variant, it: Item)
    ensures var w := MakeWindow(now, tz, serverOffset);
      var slots := AllSlots(events, ExceptionTable(events), w, v);
      var agenda := Resolved(events, badge, tz, serverOffset, now, v);
      w.hideCutoff == now - MsPerHour &&
      (it in agenda.today <==> TodayRecord(w, badge, slots, it)) &&
      (it in agenda.tomorrow <==> TomorrowRecord(w, badge, slots, it))
  {
    var w := MakeWindow(now, tz, serverOffset);
    var slots := AllSlots(events, ExceptionTable(events), w, v);
    assert Resolved(events, badge, tz, serverOffset, now, v) == Agenda(Select(w, badge, slots, Today), Select(w, badge, slots, Tomorrow));
    WindowDay(now, tz, serverOffset);
    SelectInWindow(w, (now - tz.GetOr(serverOffset) * MsPerMinute) / MsPerDay, badge, slots, it);
  }

  /** Every occurrence an event contributes is among the occurrences of the feed. */
  lemma {:induction false} AllSlotsContains(events: seq<VEvent>, exceptions: map<ExceptionKey, VEvent>, w: Window, v: Variant, i: nat, s: Slot)
    requires i < |events|
    requires s in EventSlots(events[i], exceptions, w, v)
    ensures s in AllSlots(events, exceptions, w, v)
  {
    var prefix := events[..|events| - 1];
    if i < |events| - 1 {
      assert prefix[i] == events[i];
      AllSlotsContains(prefix, exceptions, w, v, i, s);
    }
  }

  /**
   * The occurrence of a recurring event that the loop reaches (within the
   * cap, no earlier occurrence at or past the window end, and in the inline
   * version not skipped) is taken from its RECURRENCE-ID exception.
   */
  lemma ExceptionSlotInFeed(events: seq<VEvent>, exceptions: map<ExceptionKey, VEvent>, w: Window, v: Variant, i: nat, j: nat)
    requires i < |events| && events[i].recurrenceId.None? && events[i].rule.Some?
    requires var occs := Occurrences(events[i].rule.value, v);
      j < |occs| && j < v.cap &&
      (forall k :: 0 <= k <= j ==> occs[k].start < w.dayAfterStart) &&
      !(v.skipBeforeWindow && occs[j].start < w.todayStart) &&
      (events[i].uid, occs[j].key) in exceptions
    ensures var x := exceptions[(events[i].uid, Occurrences(events[i].rule.value, v)[j].key)];
      exists s :: s in AllSlots(events, exceptions, w, v) &&
        s.start == x.start && s.allDay == x.isDate && s.end == x.end.GetOr(x.start) &&
        (x.summary != "" ==> s.summary == x.summary)
  {
    var e := events[i];
    var occs := Occurrences(e.rule.value, v);
    var x := exceptions[(e.uid, occs[j].key)];
    var n := StopIndex(occs, v.cap, w.dayAfterStart);
    assert j < n;
    ExceptionReplacesOccurrence(e, exceptions, w, v, occs, n, j);
    var s :| s in Walk(e, exceptions, w, v, occs, n).slots &&
      s.start == x.start && s.allDay == x.isDate && s.end == x.end.GetOr(x.start) &&
      (x.summary != "" ==> s.summary == x.summary);
    assert s in EventSlots(e, exceptions, w, v);
    AllSlotsContains(events, exceptions, w, v, i, s);
  }

  /** In the window of day `z`, a slot of today that has not ended before the cutoff yields its record today. */
  lemma SlotListedToday(w: Window, z: int, badge: string, slots: seq<Slot>, s: Slot)
    requires WindowOfDay(w, z) && s in slots
    requires w.todayStart <= s.start < w.todayStart + MsPerDay && (s.allDay || s.end >= w.hideCutoff)
    ensures ToItem(s, badge, w.offset) in Select(w, badge, slots, Today)
  {
    var k :| 0 <= k < |slots| && slots[k] == s;
    SelectInWindow(w, z, badge, slots, ToItem(s, badge, w.offset));
    assert TodayRecord(w, badge, slots, ToItem(s, badge, w.offset));
  }

  /** Moved-exception listing within the window of day `z`. */
  lemma MovedExceptionInWindow(events: seq<VEvent>, badge: string, w: Window, z: int, v: Variant, i: nat, j: nat)
    requires WindowOfDay(w, z)
    requires i < |events| && events[i].recurrenceId.None? && events[i].rule.Some?
    requires var occs := Occurrences(events[i].rule.value, v);
      j < |occs| && j < v.cap &&
      (forall k :: 0 <= k <= j ==> occs[k].start < w.dayAfterStart) &&
      !(v.skipBeforeWindow && occs[j].start < w.todayStart) &&
      (events[i].uid, occs[j].key) in ExceptionTable(events)
    requires var x := ExceptionTable(events)[(events[i].uid, Occurrences(events[i].rule.value, v)[j].key)];
      w.todayStart <= x.start < w.todayStart + MsPerDay && (x.isDate || x.end.GetOr(x.start) >= w.hideCutoff)
    ensures var x := ExceptionTable(events)[(events[i].uid, Occurrences(events[i].rule.value, v)[j].key)];
      exists it :: it in Select(w, badge, AllSlots(events, ExceptionTable(events), w, v), Today) &&
        it.allDay == x.isDate && (x.summary != "" ==> it.summary == x.summary) &&
        it.badge == (if badge != "" then Some(badge) else None) &&
        it.time == (if x.isDate then None else Some(TimeStr(x.start, w.offset)))
  {
    var exceptions := ExceptionTable(events);
    var x := exceptions[(events[i].uid, Occurrences(events[i].rule.value, v)[j].key)];
    ExceptionSlotInFeed(events, exceptions, w, v, i, j);
    var slots := AllSlots(events, exceptions, w, v);
    var s :| s in slots &&
      s.start == x.start && s.allDay == x.isDate && s.end == x.end.GetOr(x.start) &&
      (x.summary != "" ==> s.summary == x.summary);
    SlotListedToday(w, z, badge, slots, s);
    assert ToItem(s, badge, w.offset) in Select(w, badge, slots, Today);
  }

  /**
   * Such an occurrence whose exception was moved into today and has not
   * ended before the cutoff is listed today at the exception's time, with
   * the exception's title when it has one.
   */
  lemma MovedExceptionListedToday(events: seq<VEvent>, badge: string, tz: Option<int>, serverOffset: int, now: int, v: Variant, i: nat, j: nat)
    requires i < |events| && events[i].recurrenceId.None? && events[i].rule.Some?
    requires var occs := Occurrences(events[i].rule.value, v);
      var w := MakeWindow(now, tz, serverOffset);
      j < |occs| && j < v.cap &&
      (forall k :: 0 <= k <= j ==> occs[k].start < w.dayAfterStart) &&
      !(v.skipBeforeWindow && occs[j].start < w.todayStart) &&
      (events[i].uid, occs[j].key) in ExceptionTable(events)
    requires var w := MakeWindow(now, tz, serverOffset);
      var x := ExceptionTable(events)[(events[i].uid, Occurrences(events[i].rule.value, v)[j].key)];
      w.todayStart <= x.start < w.todayStart + MsPerDay && (x.isDate || x.end.GetOr(x.start) >= now - MsPerHour)
    ensures var w := MakeWindow(now, tz, serverOffset);
      var x := ExceptionTable(events)[(events[i].uid, Occurrences(events[i].rule.value, v)[j].key)];
      exists it :: it in Resolved(events, badge, tz, serverOffset, now, v).today &&
        it.allDay == x.isDate && (x.summary != "" ==> it.summary == x.summary) &&
        it.badge == (if badge != "" then Some(badge) else None) &&
        it.time == (if x.isDate then None else Some(TimeStr(x.start, w.offset)))
  {
    var w := MakeWindow(now, tz, serverOffset);
    WindowDay(now, tz, serverOffset);
    MovedExceptionInWindow(events, badge, w, (now - tz.GetOr(serverOffset) * MsPerMinute) / MsPerDay, v, i, j);
    assert Resolved(events, badge, tz, serverOffset, now, v).today == Select(w, badge, AllSlots(events, ExceptionTable(events), w, v), Today);
  }

  // ---------------------------------------------------------------------
  // The resolver

  /** Lines pushing one occurrence: the cutoff test, then the choice of list. */
  method Emit(acc: Agenda, w: Window, badge: string, s: Slot) returns (result: Agenda)
    ensures result == Pushed(acc, w, badge, [s])
  {
    var occDateStr := DateStr(s.start, w.offset);
    SelectSingle(w, badge, s, Today);
    SelectSingle(w, badge, s, Tomorrow);
    if occDateStr == w.TodayStr() && !s.allDay && s.end < w.hideCutoff {
      return acc;
    }
    var evt := Item(s.summary, s.allDay, None, None);
    if badge != "" {
      evt := evt.(badge := Some(badge));
    }
    if !s.allDay {
      evt := evt.(time := Some(TimeStr(s.start, w.offset)));
    }
    if occDateStr == w.TodayStr() {
      result := acc.(today := acc.today + [evt]);
    } else if occDateStr == w.TomorrowStr() {
      result := acc.(tomorrow := acc.tomorrow + [evt]);
    } else {
      result := acc;
    }
  }

  /**
   * The part of the loop body after the window tests: take the exception
   * filed under the occurrence's key, or add the duration to its start.
   */
  method ApplyOccurrence(carried: string, carriedAllDay: bool, ghost slots: seq<Slot>,
                         e: VEvent, exceptions: map<ExceptionKey, VEvent>, w: Window, v: Variant, next: Occurrence)
    returns (summary: string, isAllDay: bool, s: Slot)
    requires !(v.skipBeforeWindow && next.start < w.todayStart)
    ensures Step(Carry(carried, carriedAllDay, slots), e, exceptions, w, v, next) == Carry(summary, isAllDay, slots + [s])
  {
    summary, isAllDay := carried, carriedAllDay;
    var jsDate := next.start;
    var endDate;
    if (e.uid, next.key) in exceptions {
      var x := exceptions[(e.uid, next.key)];
      summary := if x.summary != "" then x.summary else summary;
      jsDate := x.start;
      isAllDay := x.isDate;
      endDate := if x.end.Some? then x.end.value else jsDate;
    } else {
      endDate := if e.duration.Some? then jsDate + e.duration.value * 1000 else jsDate;
    }
    s := Slot(summary, isAllDay, jsDate, endDate);
  }

  /**
   * One pass of the loop body for the occurrence at index `n`, within the
   * window end: skip it (inline version, before the window), or take the
   * exception or the duration and push the result.
   */
  method WalkPass(e: VEvent, exceptions: map<ExceptionKey, VEvent>, w: Window, badge: string, v: Variant, acc: Agenda,
                  occs: seq<Occurrence>, n: nat, carried: string, carriedAllDay: bool, pushed: Agenda)
    returns (summary: string, isAllDay: bool, result: Agenda)
    requires n < |occs|
    requires var c := Walk(e, exceptions, w, v, occs, n);
      carried == c.summary && carriedAllDay == c.allDay && pushed == Pushed(acc, w, badge, c.slots)
    ensures var c := Walk(e, exceptions, w, v, occs, n + 1);
      summary == c.summary && isAllDay == c.allDay && result == Pushed(acc, w, badge, c.slots)
  {
    ghost var before := Walk(e, exceptions, w, v, occs, n);
    assert Walk(e, exceptions, w, v, occs, n + 1) == Step(Carry(carried, carriedAllDay, before.slots), e, exceptions, w, v, occs[n]);
    var next := occs[n];
    if v.skipBeforeWindow && next.start < w.todayStart {
      return carried, carriedAllDay, pushed;
    }
    var s;
    summary, isAllDay, s := ApplyOccurrence(carried, carriedAllDay, before.slots, e, exceptions, w, v, next);
    PushedAppend(acc, w, badge, before.slots, [s]);
    result := Emit(pushed, w, badge, s);
  }

  /** The loop over one recurring event's occurrences. */
  method WalkOccurrences(e: VEvent, exceptions: map<ExceptionKey, VEvent>, w: Window, badge: string, v: Variant, acc: Agenda)
    returns (result: Agenda)
    requires e.rule.Some?
    ensures var occs := Occurrences(e.rule.value, v);
      result == Pushed(acc, w, badge, Walk(e, exceptions, w, v, occs, StopIndex(occs, v.cap, w.dayAfterStart)).slots)
  {
    var occs := if v.seedAtWindowStart then e.rule.value.fromWindowStart else e.rule.value.fromDtStart;
    ghost var stop := StopIndex(occs, v.cap, w.dayAfterStart);
    var summary := Title(e.summary);
    var isAllDay := e.isDate;
    result := acc;
    var count := 0;
    while count < |occs| && count < v.cap
      invariant count <= stop
      invariant var c := Walk(e, exceptions, w, v, occs, count);
        summary == c.summary && isAllDay == c.allDay && result == Pushed(acc, w, badge, c.slots)
    {
      if occs[count].start >= w.dayAfterStart {
        break;
      }
      assert count < stop by {
        assert occs[count].start < w.dayAfterStart;
      }
      summary, isAllDay, result := WalkPass(e, exceptions, w, badge, v, acc, occs, count, summary, isAllDay, result);
      count := count + 1;
    }
  }

  /** The callback run for each event. */
  method ProcessEvent(e: VEvent, exceptions: map<ExceptionKey, VEvent>, w: Window, badge: string, v: Variant, acc: Agenda)
    returns (result: Agenda)
    ensures result == Pushed(acc, w, badge, EventSlots(e, exceptions, w, v))
  {
    if e.recurrenceId.Some? {
      PushedNothing(acc, w, badge);
      return acc;
    }
    if e.rule.Some? {
      result := WalkOccurrences(e, exceptions, w, badge, v, acc);
    } else {
      assert EventSlots(e, exceptions, w, v) == [Slot(Title(e.summary), e.isDate, e.start, SingleEnd(e))];
      var endDate;
      if e.end.Some? {
        endDate := e.end.value;
      } else if e.duration.Some? {
        endDate := e.start + e.duration.value * 1000;
      } else {
        endDate := e.start;
      }
      result := Emit(acc, w, badge, Slot(Title(e.summary), e.isDate, e.start, endDate));
    }
  }

  /** `parseICS(icsData, badge, tzOffset)` with the clock reading `now`. */
  method ParseIcs(events: seq<VEvent>, badge: string, tz: Option<int>, serverOffset: int, now: int, v: Variant)
    returns (result: Agenda)
    ensures result == Resolved(events, badge, tz, serverOffset, now, v)
  {
    var w := MakeWindow(now, tz, serverOffset);
    var exceptions := BuildExceptions(events);
    result := Agenda([], []);
    var k := 0;
    while k < |events|
      invariant k <= |events|
      invariant result == Pushed(Agenda([], []), w, badge, AllSlots(events[..k], exceptions, w, v))
    {
      ghost var before := AllSlots(events[..k], exceptions, w, v);
      ghost var mine := EventSlots(events[k], exceptions, w, v);
      result := ProcessEvent(events[k], exceptions, w, badge, v, result);
      assert events[..k + 1][..k] == events[..k];
      assert AllSlots(events[..k + 1], exceptions, w, v) == before + mine;
      PushedAppend(Agenda([], []), w, badge, before, mine);
      k := k + 1;
    }
    assert events[..k] == events;
    ghost var slots := AllSlots(events, exceptions, w, v);
    assert [] + Select(w, badge, slots, Today) == Select(w, badge, slots, Today);
    assert [] + Select(w, badge, slots, Tomorrow) == Select(w, badge, slots, Tomorrow);
  }
}
