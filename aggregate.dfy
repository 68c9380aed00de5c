/**
 * What the server does with the agendas of all feeds before broadcasting
 * them (`finishCalendarUpdate`: dedupe, then sort), and the day/night
 * brightness decision `getCurrentBrightness`.
 */
module Aggregate {
  import opened Wrappers
  import opened Text
  import opened Civil
  import opened Timezone
  import opened Calendar

  /** JavaScript's `x || d` on an optional string: the empty string is falsy too. */
  function OrElse(x: Option<string>, d: string): (r: string)
    ensures x.Some? && x.value != "" ==> r == x.value
    ensures x.None? || x.value == "" ==> r == d
  {
    if x.Some? && x.value != "" then x.value else d
  }

  // ---------------------------------------------------------------------
  // Dedupe

  /** `(evt.time || 'allday') + '|' + evt.summary + '|' + (evt.badge || '')` */
  function DedupeKey(it: Item): string {
    OrElse(it.time, "allday") + "|" + it.summary + "|" + OrElse(it.badge, "")
  }

  /** The keys of the items of `s`. */
  function Keys(s: seq<Item>): set<string> {
    if |s| == 0 then {} else Keys(s[..|s| - 1]) + {DedupeKey(s[|s| - 1])}
  }

  lemma {:induction false} KeysMembership(s: seq<Item>, k: string)
    ensures k in Keys(s) <==> exists i :: 0 <= i < |s| && DedupeKey(s[i]) == k
  {
    if |s| > 0 {
      var p := s[..|s| - 1];
      KeysMembership(p, k);
      assert forall i :: 0 <= i < |p| ==> p[i] == s[i];
    }
  }

  /** The first item of each key, in input order. */
  function Deduped(s: seq<Item>): seq<Item> {
    if |s| == 0 then []
    else
      var p := s[..|s| - 1];
      if DedupeKey(s[|s| - 1]) in Keys(p) then Deduped(p) else Deduped(p) + [s[|s| - 1]]
  }

  /** `dedupe(events)`: a `filter` keeping an item when its key has not been seen. */
  method Dedupe(events: seq<Item>) returns (kept: seq<Item>)
    ensures kept == Deduped(events)
  {
    var seen: set<string> := {};
    kept := [];
    var i := 0;
    while i < |events|
      invariant i <= |events|
      invariant seen == Keys(events[..i])
      invariant kept == Deduped(events[..i])
    {
      var evt := events[i];
      var key := OrElse(evt.time, "allday") + "|" + evt.summary + "|" + OrElse(evt.badge, "");
      assert events[..i + 1][..i] == events[..i];
      if key !in seen {
        seen := seen + {key};
        kept := kept + [evt];
      }
      i := i + 1;
    }
    assert events[..i] == events;
  }

  /** `a` is `b` with some items left out, the rest in their order. */
  predicate Subsequence(a: seq<Item>, b: seq<Item>)
    decreases |b|
  {
    if |a| == 0 then true
    else if |b| == 0 then false
    else (a[|a| - 1] == b[|b| - 1] && Subsequence(a[..|a| - 1], b[..|b| - 1])) || Subsequence(a, b[..|b| - 1])
  }

  lemma {:induction false} DedupedSubsequence(s: seq<Item>)
    ensures Subsequence(Deduped(s), s)
  {
    if |s| > 0 {
      var p := s[..|s| - 1];
      DedupedSubsequence(p);
      var d := Deduped(s);
      if DedupeKey(s[|s| - 1]) !in Keys(p) {
        assert d[..|d| - 1] == Deduped(p);
      }
    }
  }

  /** Every key of the input survives. */
  lemma {:induction false} DedupedKeys(s: seq<Item>)
    ensures Keys(Deduped(s)) == Keys(s)
  {
    if |s| > 0 {
      var p := s[..|s| - 1];
      DedupedKeys(p);
      var d := Deduped(s);
      if DedupeKey(s[|s| - 1]) !in Keys(p) {
        assert d[..|d| - 1] == Deduped(p);
      }
    }
  }

  /** No two items share a key. */
  predicate DistinctKeys(s: seq<Item>) {
    forall i, j :: 0 <= i < j < |s| ==> DedupeKey(s[i]) != DedupeKey(s[j])
  }

  lemma {:induction false} DedupedDistinct(s: seq<Item>)
    ensures DistinctKeys(Deduped(s))
  {
    if |s| > 0 {
      var p := s[..|s| - 1];
      DedupedDistinct(p);
      var x := s[|s| - 1];
      if DedupeKey(x) !in Keys(p) {
        var d := Deduped(s);
        assert d[..|d| - 1] == Deduped(p);
        DedupedKeys(p);
        forall i | 0 <= i < |d| - 1
          ensures DedupeKey(d[i]) != DedupeKey(x)
        {
          KeysMembership(Deduped(p), DedupeKey(d[i]));
          assert d[i] == Deduped(p)[i];
        }
      }
    }
  }

  /** Item `i` is the first of its key. */
  predicate FirstOfKey(s: seq<Item>, i: int)
    requires 0 <= i < |s|
  {
    DedupeKey(s[i]) !in Keys(s[..i])
  }

  /** An item is kept exactly when it is the first of its key. */
  lemma {:induction false} DedupedKeepsFirst(s: seq<Item>, x: Item)
    ensures x in Deduped(s) <==> exists i :: 0 <= i < |s| && s[i] == x && FirstOfKey(s, i)
  {
    if |s| > 0 {
      var p := s[..|s| - 1];
      var n := |s| - 1;
      DedupedKeepsFirst(p, x);
      assert forall i :: 0 <= i < n ==> p[i] == s[i] && p[..i] == s[..i];
      assert s[..n] == p;
      if x in Deduped(s) && x !in Deduped(p) {
        assert x == s[n] && FirstOfKey(s, n);
      }
    }
  }

  /** A list whose keys are already distinct is left as it is. */
  lemma {:induction false} DedupedDistinctFixed(s: seq<Item>)
    requires DistinctKeys(s)
    ensures Deduped(s) == s
  {
    if |s| > 0 {
      var p := s[..|s| - 1];
      assert DistinctKeys(p) by {
        assert forall i :: 0 <= i < |p| ==> p[i] == s[i];
      }
      DedupedDistinctFixed(p);
      KeysMembership(p, DedupeKey(s[|s| - 1]));
      assert s == p + [s[|s| - 1]];
    }
  }

  /** Deduplicating twice is deduplicating once. */
  lemma DedupedIdempotent(s: seq<Item>)
    ensures Deduped(Deduped(s)) == Deduped(s)
  {
    DedupedDistinct(s);
    DedupedDistinctFixed(Deduped(s));
  }

  /** Items with the same time and summary but different badges have different keys, so both are kept. */
  lemma BadgesKeptApart(a: Item, b: Item)
    requires OrElse(a.time, "allday") == OrElse(b.time, "allday") && a.summary == b.summary
    requires OrElse(a.badge, "") != OrElse(b.badge, "")
    ensures DedupeKey(a) != DedupeKey(b)
    ensures Deduped([a, b]) == [a, b]
  {
    var prefix := OrElse(a.time, "allday") + "|" + a.summary + "|";
    assert DedupeKey(a) == prefix + OrElse(a.badge, "") && DedupeKey(b) == prefix + OrElse(b.badge, "");
    assert DedupeKey(a)[|prefix|..] == OrElse(a.badge, "");
    assert DedupeKey(b)[|prefix|..] == OrElse(b.badge, "");
    assert [a, b][..1] == [a] && [a][..0] == [];
    assert Keys([a]) == {DedupeKey(a)} && Deduped([a]) == [a];
  }

  /**
   * The key does not escape `|`: an all-day "a|b" without badge and an
   * all-day "a" with badge "b|" share the key `allday|a|b|`, and only the
   * first is kept.
   */
  lemma SeparatorCollision()
    ensures var first := Item("a|b", true, None, None);
      var second := Item("a", true, Some("b|"), None);
      DedupeKey(first) == DedupeKey(second) && Deduped([first, second]) == [first]
  {
    var first := Item("a|b", true, None, None);
    var second := Item("a", true, Some("b|"), None);
    assert DedupeKey(first) == "allday|a|b|";
    assert DedupeKey(second) == "allday|a|b|";
    assert [first, second][..1] == [first] && [first][..0] == [];
    assert Keys([first]) == {DedupeKey(first)} && Deduped([first]) == [first];
  }

  // ---------------------------------------------------------------------
  // Sort

  /** `a.localeCompare(b)` on the `HH:MM` texts, compared character by character. */
  function LocaleCompare(a: string, b: string): (c: int)
    ensures c < 0 <==> Less(a, b)
    ensures c == 0 <==> a == b
  {
    LessIrreflexive(a);
    if Less(a, b) then -1 else if a == b then 0 else 1
  }

  /** `sortFn(a, b)`: all-day first, then by time when both have one, else equal. */
  function SortFn(a: Item, b: Item): int {
    if a.allDay && !b.allDay then -1
    else if !a.allDay && b.allDay then 1
    else if a.time.Some? && a.time.value != "" && b.time.Some? && b.time.value != "" then LocaleCompare(a.time.value, b.time.value)
    else 0
  }

  /** The class of items `sortFn` cannot tell apart. */
  function SortClass(it: Item): (bool, string) {
    (it.allDay, OrElse(it.time, ""))
  }

  /** Items of one class compare equal. */
  lemma SameClassEqual(a: Item, b: Item)
    requires SortClass(a) == SortClass(b)
    ensures SortFn(a, b) == 0
  {
  }

  /** The result of the engine's stable sort: insertion of each item after every item that sorts strictly before it. */
  function InsertSorted(x: Item, r: seq<Item>): seq<Item> {
    if |r| == 0 || SortFn(r[0], x) >= 0 then [x] + r else [r[0]] + InsertSorted(x, r[1..])
  }

  /** `events.sort(sortFn)` */
  function SortEvents(s: seq<Item>): seq<Item> {
    if |s| == 0 then [] else InsertSorted(s[0], SortEvents(s[1..]))
  }

  lemma {:induction false} InsertSortedMultiset(x: Item, r: seq<Item>)
    ensures multiset(InsertSorted(x, r)) == multiset(r) + multiset{x}
  {
    if |r| > 0 && SortFn(r[0], x) < 0 {
      InsertSortedMultiset(x, r[1..]);
      assert r == [r[0]] + r[1..];
    }
  }

  /** Sorting only reorders. */
  lemma {:induction false} SortEventsPermutation(s: seq<Item>)
    ensures multiset(SortEvents(s)) == multiset(s)
  {
    if |s| > 0 {
      SortEventsPermutation(s[1..]);
      InsertSortedMultiset(s[0], SortEvents(s[1..]));
      assert s == [s[0]] + s[1..];
    }
  }

  /** The items of class `c`, in order. */
  function OfClass(s: seq<Item>, c: (bool, string)): seq<Item> {
    if |s| == 0 then [] else (if SortClass(s[0]) == c then [s[0]] else []) + OfClass(s[1..], c)
  }

  lemma {:induction false} InsertSortedClass(x: Item, r: seq<Item>, c: (bool, string))
    ensures OfClass(InsertSorted(x, r), c) == (if SortClass(x) == c then [x] else []) + OfClass(r, c)
  {
    if |r| > 0 && SortFn(r[0], x) < 0 {
      InsertSortedClass(x, r[1..], c);
      if SortClass(r[0]) == SortClass(x) {
        SameClassEqual(r[0], x);
      }
      var rest := InsertSorted(x, r[1..]);
      assert ([r[0]] + rest)[0] == r[0] && ([r[0]] + rest)[1..] == rest;
    } else {
      assert ([x] + r)[0] == x && ([x] + r)[1..] == r;
    }
  }

  /** The sort is stable: items `sortFn` holds equal keep their input order. */
  lemma {:induction false} SortEventsStable(s: seq<Item>, c: (bool, string))
    ensures OfClass(SortEvents(s), c) == OfClass(s, c)
  {
    if |s| > 0 {
      SortEventsStable(s[1..], c);
      InsertSortedClass(s[0], SortEvents(s[1..]), c);
    }
  }

  /** An item as `parseICS` builds it: a non-empty time exactly when it is not all-day. */
  predicate Timed(it: Item) {
    it.time.Some? && it.time.value != ""
  }

  predicate WellFormed(it: Item) {
    Timed(it) <==> !it.allDay
  }

  /** Ordered by `sortFn`: all-day items, then timed items by time. */
  predicate InOrder(a: Item, b: Item) {
    (a.allDay && !b.allDay) || (a.allDay == b.allDay && (Timed(a) && Timed(b) ==> !Less(b.time.value, a.time.value)))
  }

  predicate SortedBySortFn(r: seq<Item>) {
    forall i, j :: 0 <= i < j < |r| ==> InOrder(r[i], r[j])
  }

  /** On well-formed items `sortFn` is a total preorder. */
  lemma SortFnOrder(a: Item, b: Item)
    requires WellFormed(a) && WellFormed(b)
    ensures SortFn(a, b) <= 0 <==> InOrder(a, b)
    ensures SortFn(a, b) >= 0 <==> InOrder(b, a)
  {
    if Timed(a) && Timed(b) {
      if Less(a.time.value, b.time.value) {
        LessAsymmetric(a.time.value, b.time.value);
      } else if a.time.value != b.time.value {
        LessTotal(a.time.value, b.time.value);
      } else {
        LessIrreflexive(a.time.value);
      }
    }
  }

  lemma InOrderTransitive(a: Item, b: Item, c: Item)
    requires WellFormed(a) && WellFormed(b) && WellFormed(c)
    requires InOrder(a, b) && InOrder(b, c)
    ensures InOrder(a, c)
  {
    if !a.allDay && !c.allDay {
      var ta, tb, tc := a.time.value, b.time.value, c.time.value;
      if Less(tc, ta) {
        if tb != ta {
          LessTotal(ta, tb);
          if Less(tb, ta) {
          } else {
            LessTransitive(tc, ta, tb);
          }
        }
      }
    }
  }

  lemma SortedCons(y: Item, t: seq<Item>)
    requires SortedBySortFn(t) && forall e :: e in t ==> InOrder(y, e)
    ensures SortedBySortFn([y] + t)
  {
    forall i, j | 0 <= i < j < |t| + 1
      ensures InOrder(([y] + t)[i], ([y] + t)[j])
    {
      assert ([y] + t)[j] == t[j - 1];
      if i > 0 {
        assert ([y] + t)[i] == t[i - 1];
      } else {
        assert t[j - 1] in t;
      }
    }
  }

  lemma InsertSortedMembers(x: Item, r: seq<Item>)
    ensures forall e :: e in InsertSorted(x, r) <==> e == x || e in r
  {
    InsertSortedMultiset(x, r);
    forall e
      ensures e in InsertSorted(x, r) <==> e == x || e in r
    {
      assert e in InsertSorted(x, r) <==> e in multiset(InsertSorted(x, r));
      assert e in r <==> e in multiset(r);
    }
  }

  lemma {:induction false} InsertSortedSorted(x: Item, r: seq<Item>)
    requires WellFormed(x) && forall i :: 0 <= i < |r| ==> WellFormed(r[i])
    requires SortedBySortFn(r)
    ensures SortedBySortFn(InsertSorted(x, r))
  {
    if |r| == 0 {
      assert InsertSorted(x, r) == [x];
    } else if SortFn(r[0], x) >= 0 {
      SortFnOrder(r[0], x);
      forall e | e in r
        ensures InOrder(x, e)
      {
        var k :| 0 <= k < |r| && r[k] == e;
        if k > 0 {
          InOrderTransitive(x, r[0], e);
        }
      }
      SortedCons(x, r);
    } else {
      var rest := r[1..];
      assert SortedBySortFn(rest);
      InsertSortedSorted(x, rest);
      SortFnOrder(r[0], x);
      InsertSortedMembers(x, rest);
      forall e | e in InsertSorted(x, rest)
        ensures InOrder(r[0], e)
      {
        if e != x {
          var k :| 0 <= k < |rest| && rest[k] == e;
          assert r[k + 1] == e;
        }
      }
      SortedCons(r[0], InsertSorted(x, rest));
    }
  }

  lemma {:induction false} SortEventsSorted(s: seq<Item>)
    requires forall i :: 0 <= i < |s| ==> WellFormed(s[i])
    ensures SortedBySortFn(SortEvents(s))
    ensures forall i :: 0 <= i < |SortEvents(s)| ==> WellFormed(SortEvents(s)[i])
  {
    if |s| > 0 {
      var r := SortEvents(s[1..]);
      SortEventsSorted(s[1..]);
      InsertSortedSorted(s[0], r);
      InsertSortedMultiset(s[0], r);
      var t := SortEvents(s);
      forall i | 0 <= i < |t|
        ensures WellFormed(t[i])
      {
        assert t[i] in multiset(t);
        if t[i] != s[0] {
          assert t[i] in multiset(r);
          var k :| 0 <= k < |r| && r[k] == t[i];
        }
      }
    }
  }

  /**
   * After sorting items as `parseICS` builds them, every all-day item
   * precedes every timed one, and timed items are in time order.
   */
  lemma SortedLayout(s: seq<Item>)
    requires forall i :: 0 <= i < |s| ==> WellFormed(s[i])
    ensures var r := SortEvents(s);
      (forall i, j :: 0 <= i < j < |r| && r[j].allDay ==> r[i].allDay) &&
      (forall i, j :: 0 <= i < j < |r| && Timed(r[i]) && Timed(r[j]) ==> !Less(r[j].time.value, r[i].time.value))
  {
    SortEventsSorted(s);
  }

  /** `finishCalendarUpdate` on one list: dedupe, then sort. */
  method FinishList(events: seq<Item>) returns (r: seq<Item>)
    ensures r == SortEvents(Deduped(events))
  {
    r := Dedupe(events);
    r := SortEvents(r);
  }

  // ---------------------------------------------------------------------
  // Brightness

  /** `settings.display`: schedule and levels, each possibly missing. */
  datatype DisplaySettings = DisplaySettings(
    dayStart: Option<string>,
    nightStart: Option<string>,
    dayBrightness: Option<int>,
    nightBrightness: Option<int>)

  /** `x || d` on an optional number: 0 is falsy. */
  function OrElseNumber(x: Option<int>, d: int): (r: int)
    ensures x.Some? && x.value != 0 ==> r == x.value
    ensures x.None? || x.value == 0 ==> r == d
  {
    if x.Some? && x.value != 0 then x.value else d
  }

  /** The `HH:MM` of `now`, at the display's offset once it is known, else at the server's. */
  function CurrentTime(now: int, clientTz: Option<int>, serverOffset: int): string {
    var f := LocalFields(ToClientTime(now, clientTz, serverOffset), serverOffset);
    TimeKey(f.hours, f.minutes)
  }

  /** `getCurrentBrightness()` with the clock reading `now`. */
  function CurrentBrightness(now: int, clientTz: Option<int>, serverOffset: int, display: DisplaySettings): int {
    var currentTime := CurrentTime(now, clientTz, serverOffset);
    var dayStart := OrElse(display.dayStart, "07:00");
    var nightStart := OrElse(display.nightStart, "22:00");
    if !Less(currentTime, dayStart) && Less(currentTime, nightStart) then OrElseNumber(display.dayBrightness, 100)
    else OrElseNumber(display.nightBrightness, 30)
  }

  /**
   * The day level exactly when `dayStart <= currentTime < nightStart` as
   * strings; otherwise the night level.
   */
  lemma BrightnessBySchedule(now: int, clientTz: Option<int>, serverOffset: int, display: DisplaySettings)
    ensures var t := CurrentTime(now, clientTz, serverOffset);
      var ds := OrElse(display.dayStart, "07:00");
      var ns := OrElse(display.nightStart, "22:00");
      var level := CurrentBrightness(now, clientTz, serverOffset, display);
      ((Less(ds, t) || ds == t) && Less(t, ns) ==> level == OrElseNumber(display.dayBrightness, 100)) &&
      (!((Less(ds, t) || ds == t) && Less(t, ns)) ==> level == OrElseNumber(display.nightBrightness, 30))
  {
    var t := CurrentTime(now, clientTz, serverOffset);
    var ds := OrElse(display.dayStart, "07:00");
    if t != ds {
      LessTotal(t, ds);
      if Less(ds, t) {
        LessAsymmetric(ds, t);
      }
    } else {
      LessIrreflexive(t);
    }
  }

  /** A schedule whose day start is not before its night start is always night. */
  lemma InvertedScheduleIsNight(now: int, clientTz: Option<int>, serverOffset: int, display: DisplaySettings)
    requires !Less(OrElse(display.dayStart, "07:00"), OrElse(display.nightStart, "22:00"))
    ensures CurrentBrightness(now, clientTz, serverOffset, display) == OrElseNumber(display.nightBrightness, 30)
  {
    var t := CurrentTime(now, clientTz, serverOffset);
    var ds := OrElse(display.dayStart, "07:00");
    var ns := OrElse(display.nightStart, "22:00");
    if !Less(t, ds) && Less(t, ns) {
      if t == ds {
      } else {
        LessTotal(t, ds);
        LessTransitive(ds, t, ns);
      }
    }
  }

  /** A configured level or time of 0 or `''` is the same as none: the default applies. */
  lemma FalsyFallsBack(now: int, clientTz: Option<int>, serverOffset: int, display: DisplaySettings)
    ensures CurrentBrightness(now, clientTz, serverOffset, display.(dayBrightness := Some(0))) ==
      CurrentBrightness(now, clientTz, serverOffset, display.(dayBrightness := None))
    ensures CurrentBrightness(now, clientTz, serverOffset, display.(nightBrightness := Some(0))) ==
      CurrentBrightness(now, clientTz, serverOffset, display.(nightBrightness := None))
    ensures CurrentBrightness(now, clientTz, serverOffset, display.(dayStart := Some(""))) ==
      CurrentBrightness(now, clientTz, serverOffset, display.(dayStart := None))
    ensures CurrentBrightness(now, clientTz, serverOffset, display.(nightStart := Some(""))) ==
      CurrentBrightness(now, clientTz, serverOffset, display.(nightStart := None))
  {
  }

  /**
   * With both bounds written `HH:MM`, the string test is the clock test:
   * the day level from the day start's minute up to, not including, the
   * night start's minute.
   */
  lemma BrightnessByMinutes(now: int, clientTz: Option<int>, serverOffset: int, display: DisplaySettings,
                            h1: nat, m1: nat, h2: nat, m2: nat)
    requires h1 < 24 && m1 < 60 && h2 < 24 && m2 < 60
    requires display.dayStart == Some(TimeKey(h1, m1)) && display.nightStart == Some(TimeKey(h2, m2))
    ensures var f := LocalFields(ToClientTime(now, clientTz, serverOffset), serverOffset);
      var minute := f.hours * 60 + f.minutes;
      var level := CurrentBrightness(now, clientTz, serverOffset, display);
      (h1 * 60 + m1 <= minute < h2 * 60 + m2 ==> level == OrElseNumber(display.dayBrightness, 100)) &&
      (!(h1 * 60 + m1 <= minute < h2 * 60 + m2) ==> level == OrElseNumber(display.nightBrightness, 30))
  {
    var f := LocalFields(ToClientTime(now, clientTz, serverOffset), serverOffset);
    TimeKeyShape(h1, m1);
    TimeKeyShape(h2, m2);
    TimeKeyOrder(h1, m1, f.hours, f.minutes);
    TimeKeyOrder(f.hours, f.minutes, h2, m2);
    BrightnessBySchedule(now, clientTz, serverOffset, display);
  }
}
