# liveboard, modelled in Dafny

liveboard is a wall display: a Node.js server gathers calendar feeds
(iCalendar) and weather, and pushes them as Server-Sent Events to a browser
page. The page draws date, weather and calendar widgets and dims itself on a
day/night schedule. This project models the core of that system and proves
properties of the model:

- **The two-day agenda resolver `parseICS`** (`calendar.dfy`). It takes the
  events of one feed and builds today's and tomorrow's lists in the
  display's timezone. Recurring events are walked occurrence by occurrence,
  and RECURRENCE-ID exceptions replace the occurrence they name. Timed
  entries of today that ended more than an hour ago are dropped. The two
  copies in the repository (`server/calendar.js` and the one inlined in
  `server/index.js`) differ only in a `Variant`: where the iterator is
  seeded, the iteration cap, and whether starts before the window are
  skipped. The loops are methods proved against the specification function
  `Resolved`. The scenario of the calendar test is worked out in
  `calendar_scenarios.dfy`.
- **The timezone adapter** (`timezone.dfy`, on top of the calendar
  arithmetic in `civil.dfy` and the string helpers in `text.dfy`):
  `toClientTime` and the Japanese date label `M月D日 (曜)`.
- **The server's aggregation and session state** (`aggregate.dfy`,
  `json.dfy`, `sse.dfy`, `server.dfy`). This covers the dedupe and stable
  sort of `finishCalendarUpdate` and the day/night brightness. It covers
  the registry of connected displays with connect, close and broadcast,
  the offset that is set once, and the calendar timer that starts once. It
  covers settings validation and the masked settings view. Each
  connection's stream is a string, and the event-stream parser of the WHATWG
  HTML standard (section 9.2.6, "Interpreting an event stream") reads it
  back: a display receives exactly the events it was sent, in order.
- **The display page's state machine** (`client.dfy`): the reconnect
  backoff, the widget map that `config` rebuilds and `update` patches, and
  the brightness shown (the server's level, or full brightness for a minute
  after a touch).

Instants are integer milliseconds since the epoch. The host's
`getTimezoneOffset()` is a constant `serverOffset` in minutes. The
iCalendar library is abstracted: each event arrives as the values the
library reports for it. For a recurring event, the input also holds the
finite run of occurrences its iterator yields, seeded at DTSTART and seeded
at the window start.

## Model

| member | source | states |
|---|---|---|
| Text.NatToString | server/calendar.js:32-34 | the decimal rendering of a number is non-empty and all digits, and is one digit exactly below 10 |
| Text.Pad2Digits | server/calendar.js:33-34 | below 100 the hand-padded `(n < 10 ? '0' : '') + n` is exactly the two digits of the number |
| Text.NatToStringInjective | server/calendar.js:32-34 | distinct numbers have distinct decimal renderings |
| Text.IntToStringInjective | server/calendar.js:32-34 | distinct integers, negative ones included, have distinct renderings |
| Text.LessIrreflexive | server/index.js:79 | JavaScript's `<` on strings is irreflexive |
| Text.LessAsymmetric | server/index.js:79 | string `<` is asymmetric |
| Text.LessTransitive | server/index.js:79 | string `<` is transitive |
| Text.LessTotal | server/index.js:79 | any two distinct strings are ordered one way or the other |
| Civil.Fields.CalendarDate | server/calendar.js:50-52 | the date the getters report has its month in 1..12 and its day in 1..31 |
| Civil.Fields.DayOfWeek | server/timezone.js:28 | `getDay()` lies in 0..6 |
| Civil.YearOfEra | server/calendar.js:61 | a day of a 400-year era is the start of the year found plus a day of that year (0..365) |
| Civil.CivilFromDays | server/calendar.js:50-52 | the civil date of a day number has a valid month and day |
| Civil.DaysFromCivilOfCivilFromDays | server/calendar.js:61 | round trip: `Date.UTC` of the civil date of day `z` is day `z` |
| Civil.DaysFromCivilNextDay | server/calendar.js:54-55 | a day of the month one past counts one day further, as `setDate` does |
| Civil.NextDateOfCivil | server/calendar.js:54-55 | `setDate(getDate() + 1)` on the date of day `z` gives the date of day `z + 1`, month and year ends included |
| Civil.CivilFromDaysInjective | server/calendar.js:50-52 | distinct day numbers have distinct civil dates |
| Civil.Weekday | server/timezone.js:28 | the weekday of a day number lies in 0..6 |
| Civil.UtcFields | server/calendar.js:24-27 | the hours are in 0..23, the minutes in 0..59, and the day number is the instant divided by a day |
| Civil.UtcFieldsAt | server/calendar.js:38-43 | an instant `ms` into day `z` reads day `z` at the hours and minutes of `ms` |
| Civil.UtcFieldsMidnight | server/calendar.js:61 | a whole number of days after the epoch reads 00:00 of that day |
| Civil.UtcFieldsNextDay | server/calendar.js:62 | 24 hours later reads the next day at the same hours and minutes |
| Civil.TimeKeyShape | server/calendar.js:38-43 | `timeStr` is five characters `HH:MM` made of the digits of the hours and minutes |
| Civil.DateKeyInjective | server/calendar.js:30-35 | distinct valid dates have distinct `YYYYMMDD` keys |
| Civil.TimeKeyOrder | server/index.js:71-80 | padded times compare as strings exactly as they compare in minutes since midnight, and are equal exactly when the times are |
| Timezone.ToClientTime | server/timezone.js:11-17 | no offset leaves the instant alone; with an offset the result is the instant moved by the host's offset minus the display's |
| Timezone.ClientTimeFields | server/timezone.js:11-17 | whatever the host's offset, the local getters of the shifted instant read the wall clock at the display's offset |
| Timezone.NumberThenSeparator | server/timezone.js:29 | a decimal number followed by a non-digit splits back into the number and the rest |
| Timezone.FormatDateJapaneseInjective | server/timezone.js:24-30 | the label `M月D日 (曜)` determines month, day and weekday |
| Timezone.JapaneseLabelInjective | server/timezone.js:24-30 | labels of distinct dates or weekdays differ |
| Timezone.UtcMidnightIsNineInTokyo | test/timezone.test.js:25-35 | midnight UTC on 15 January 2024 reads 09:00 the same day at offset -540 |
| Timezone.AfternoonUtcIsNextDayInTokyo | test/timezone.test.js:38-47 | 15:00 UTC reads midnight of the next day at offset -540 |
| Timezone.LabelOfMonday | test/timezone.test.js:58-64 | Monday 15 January 2024 is labelled `1月15日 (月)` |
| Timezone.LabelAcrossMidnight | test/timezone.test.js:76-89 | 23:00 UTC on 14 December 2024 is labelled `12月15日 (日)` at offset -540 |
| Calendar.ClientFieldsOnAnyHost | server/calendar.js:24-27 | the inner `toClientTime` reads the same fields on every host |
| Calendar.ClientDate | server/calendar.js:30-35 | the client-local date is a valid date |
| Calendar.MakeWindow | server/calendar.js:18-65 | the effective offset is the client's when given, else the server's; today is the client-local date of `now`, tomorrow the date after it; past events are hidden from an hour before `now` |
| Calendar.DateStrIs | server/calendar.js:30-35 | `dateStr(t)` equals the key of a valid date exactly when `t` falls on that client-local date |
| Calendar.ClientDateIsDay | server/calendar.js:30-35 | an instant falls on the date of day `z` exactly when it lies within that client-local day |
| Calendar.WindowDay | server/calendar.js:45-62 | the computed window is the window of the client-local day holding `now` |
| Calendar.WindowBounds | server/calendar.js:61-62 | `todayStart` is the client-local midnight of `now`'s day, and `dayAfterStart` is 48 hours later |
| Calendar.TodayKeyInWindow | server/calendar.js:50-61 | an instant has today's key exactly when it lies in the first 24 hours of the window |
| Calendar.TomorrowKeyInWindow | server/calendar.js:54-62 | an instant has tomorrow's key exactly when it lies in the last 24 hours of the window |
| Calendar.WindowShape | server/calendar.js:45-65 | the window is 48 hours from the client-local midnight of the day holding `now`; today's key is that midnight's, tomorrow's that of 24 hours later, and they differ |
| Calendar.BuildExceptions | server/calendar.js:72-81 | the first pass builds the table of RECURRENCE-ID exceptions |
| Calendar.ExceptionTableLookup | server/calendar.js:72-81 | the table has an entry for a UID and occurrence key exactly when some exception carries both, and the entry is the last such event |
| Calendar.Title | server/calendar.js:89 | the title is never empty, and is the summary when there is one |
| Calendar.StopIndex | server/calendar.js:100-110 | the loop processes a prefix within the cap whose starts are all before the window end, and stops early only at a start at or past it |
| Calendar.WalkLength | server/index.js:259-268 | each pass adds at most one occurrence, and exactly one when nothing is skipped |
| Calendar.WalkTitles | server/calendar.js:89-118 | the carried title, and so every occurrence's title, is never empty |
| Calendar.WalkPrefix | server/calendar.js:104-146 | later passes only append occurrences |
| Calendar.ExceptionReplacesOccurrence | server/calendar.js:113-122 | a reached occurrence with an exception takes the exception's start, all-day flag and end, and its title when it has one |
| Calendar.WalkStarts | server/index.js:265-268 | every occurrence starts before the window end (and, inline, not before its start) unless an exception moved it |
| Calendar.WalkAllSkipped | server/index.js:268 | when every reached occurrence starts before the window, the inline loop keeps none |
| Calendar.ExceptionCarriesOver | server/calendar.js:118-121 | an exception's title and all-day flag stay for later occurrences that have no exception of their own |
| Calendar.EventSlotsCount | server/calendar.js:83-176 | an exception contributes nothing, a single event one occurrence, a recurring one at most the cap (exactly as many as reached when nothing is skipped) |
| Calendar.ModuleVariantCap | server/calendar.js:100 | the module version yields at most 100 occurrences per recurring event |
| Calendar.InlineStaleRule | server/index.js:254-268 | inline, a rule whose first 1000 occurrences all start before the window contributes nothing |
| Calendar.EventSlotsStarts | server/calendar.js:96-146 | every occurrence of a recurring event lies before the window end unless an exception moved it |
| Calendar.PlaceOfDay | server/calendar.js:132-138 | an occurrence goes to today exactly when it starts in the first 24 hours and is all-day or has not ended before the cutoff, and to tomorrow exactly when it starts in the next 24 hours |
| Calendar.PlaceInWindow | server/calendar.js:132-138 | the same at the window computed at `now`, with the cutoff an hour before `now` |
| Calendar.ToItem | server/calendar.js:140-145 | the entry carries the title and all-day flag, a badge exactly when it is non-empty, and a five-character `HH:MM` time exactly when not all-day |
| Calendar.SelectMembership | server/calendar.js:137-145 | an entry is in a list exactly when it is the entry of an occurrence placed in that list |
| Calendar.SelectSingle | server/calendar.js:167-175 | one occurrence yields its entry exactly when placed in the list |
| Calendar.PushedAppend | server/calendar.js:83-177 | pushing the occurrences of one event after another is pushing them all in order |
| Calendar.SelectInWindow | server/calendar.js:132-145 | membership of each list in absolute time, within the window of a day |
| Calendar.ResolvedMembership | server/calendar.js:15-180 | an entry is in today's list exactly when it comes from an occurrence starting in the 24 hours from the client-local midnight of `now` that is all-day or ends no more than an hour before `now`, and in tomorrow's exactly when it starts in the following 24 hours |
| Calendar.AllSlotsContains | server/calendar.js:83 | every occurrence an event contributes is among the feed's |
| Calendar.ExceptionSlotInFeed | server/calendar.js:113-122 | the occurrence the loop reaches under an exception's key is taken from that exception |
| Calendar.SlotListedToday | server/calendar.js:132-144 | an occurrence of today not ended before the cutoff is listed today |
| Calendar.MovedExceptionInWindow | server/calendar.js:113-144 | a reached occurrence moved by its exception into today is listed today at the exception's time |
| Calendar.MovedExceptionListedToday | server/calendar.js:113-144 | the same at the window computed at `now`, with the exception's title when it has one |
| Calendar.Emit | server/calendar.js:132-145 | the cutoff test and the choice of list push exactly the entry of the occurrence in its list |
| Calendar.ApplyOccurrence | server/calendar.js:112-130 | the exception substitution or the duration end performs one step of the specification loop |
| Calendar.WalkPass | server/calendar.js:105-145 | one pass of the loop body for an occurrence inside the window takes the carried `summary` and `isAllDay` and the pushed lists from the specification walk's state after n occurrences to its state after n + 1 |
| Calendar.WalkOccurrences | server/calendar.js:96-146 | the loop over a recurring event pushes the occurrences of the specification walk, stopping where `StopIndex` says |
| Calendar.ProcessEvent | server/calendar.js:83-177 | the callback of one event pushes exactly its occurrences' entries |
| Calendar.ParseIcs | server/calendar.js:15-180 | `parseICS` returns the specification agenda `Resolved` for its variant |
| CalendarScenarios.FeedExceptions | test/calendar.test.js:88-136 | the only exception in the test feed is the rescheduled occurrence |
| CalendarScenarios.ScenarioWindow | test/calendar.test.js:88-136 | on 15 January at offset -540 the window is 15 and 16 January |
| CalendarScenarios.RescheduledFoundByModule | test/calendar.test.js:144-160 | the module version lists the rescheduled meeting today at 16:00 with badge `test` |
| CalendarScenarios.RescheduledLostInline | server/index.js:254-268 | the inline version skips both occurrences of the series, so the exception is never consulted and both lists are empty |
| CalendarScenarios.FeedSlots | test/calendar.test.js:88-136 | the feed's occurrences are the series' own; the exception adds none |
| Aggregate.OrElse | server/index.js:145 | the string fallback of the key: the value when present and non-empty, else the default |
| Aggregate.KeysMembership | server/index.js:145 | a key is among the keys of a list exactly when some item has it |
| Aggregate.Dedupe | server/index.js:142-150 | the `filter` with the `seen` table computes the specification `Deduped` |
| Aggregate.DedupedSubsequence | server/index.js:142-150 | deduplication only leaves items out and keeps the order of the rest |
| Aggregate.DedupedKeys | server/index.js:142-150 | every key of the input survives |
| Aggregate.DedupedDistinct | server/index.js:142-150 | no two kept items share a key |
| Aggregate.DedupedKeepsFirst | server/index.js:146-148 | an item is kept exactly when it is the first of its key |
| Aggregate.DedupedDistinctFixed | server/index.js:142-150 | a list with distinct keys is left unchanged |
| Aggregate.DedupedIdempotent | server/index.js:142-150 | deduplicating twice is deduplicating once |
| Aggregate.BadgesKeptApart | server/index.js:145 | items differing only in badge have different keys and are both kept |
| Aggregate.SeparatorCollision | server/index.js:145 | the key does not escape the separator: two different items can share a key and only the first is kept |
| Aggregate.LocaleCompare | server/index.js:158 | on the five-character `HH:MM` texts `sortFn` compares, the comparison is negative exactly when `a < b` and zero exactly when the texts are equal |
| Aggregate.SameClassEqual | server/index.js:155-160 | items of one class compare equal under `sortFn` |
| Aggregate.SortEventsPermutation | server/index.js:161-162 | sorting only reorders: same multiset |
| Aggregate.SortEventsStable | server/index.js:161-162 | items `sortFn` holds equal keep their input order |
| Aggregate.SortFnOrder | server/index.js:155-160 | on items as `parseICS` builds them, `sortFn(a, b) <= 0` exactly when `a` may precede `b` |
| Aggregate.InOrderTransitive | server/index.js:155-160 | that order is transitive |
| Aggregate.SortEventsSorted | server/index.js:161-162 | the sorted list is ordered by `sortFn` |
| Aggregate.SortedLayout | server/index.js:155-162 | after sorting, every all-day item precedes every timed one and timed items are in time order |
| Aggregate.FinishList | server/index.js:140-162 | `finishCalendarUpdate` on one list is dedupe, then sort |
| Aggregate.OrElseNumber | server/index.js:75-76 | the number fallback of the settings: the value when present and non-zero, else the default |
| Aggregate.BrightnessBySchedule | server/index.js:61-83 | the day level exactly when `dayStart <= currentTime < nightStart` as strings, else the night level |
| Aggregate.InvertedScheduleIsNight | server/index.js:80-83 | a schedule whose day start is not before its night start is always night |
| Aggregate.FalsyFallsBack | server/index.js:75-78 | a configured 0 or empty string counts as absent and the default applies |
| Aggregate.BrightnessByMinutes | server/index.js:61-83 | with `HH:MM` bounds, the day level from the day start's minute up to, not including, the night start's |
| Json.EscapeChar | server/index.js:578 | an escaped character is printable text, and it is the character itself exactly when that needs no escape |
| Json.StringifyNoControl | server/index.js:578 | `JSON.stringify` output holds no control character, so no line break |
| Json.UnescapeChar | server/index.js:578 | reading back one escaped character recovers it and leaves what follows alone |
| Json.UnescapeEscape | server/index.js:578 | round trip: every string is recovered from its escaped form |
| EventStream.FeedLine | server/index.js:576-579 | a line without a line feed is consumed whole and reading continues after it |
| EventStream.EventLineStep | server/index.js:577 | the `event:` line sets the event type |
| EventStream.DataLineStep | server/index.js:578 | the `data:` line appends the JSON text and a line feed to the data buffer |
| EventStream.BlankLineStep | server/index.js:578 | the blank line dispatches |
| EventStream.FrameRoundTrip | server/index.js:576-579 | reading the two writes of `sendEvent` dispatches one message with the event name and exactly the JSON text |
| EventStream.KeepaliveInvisible | server/index.js:494-496 | a keepalive is invisible to the reader |
| EventStream.SentStep | server/index.js:576-579 | one whole send read from between events dispatches its messages |
| EventStream.ReadRendered | server/index.js:494-496 | a stream of whole sends dispatches exactly their events, in order, whatever keepalives fall between |
| EventStream.ParseRendered | server/index.js:576-579 | the events of a stream of whole sends are the events sent |
| Server.Validated | server/index.js:549-552 | the body is accepted exactly when it has a calendars array, a weather block and a display block, and then unchanged |
| Server.Last20 | server/index.js:532 | `slice(-20)` is the last 20 characters, or the whole of a shorter string |
| Server.MaskCalendar | server/index.js:528-534 | the masked entry keeps the name, `hasUrl` is `!!url`, and the url is empty or eight bullets then the URL's last 20 characters |
| Server.SafeView | server/index.js:524-537 | every calendar is masked in order; weather and display are unchanged |
| Server.MaskedUrlReveals | server/index.js:532 | the masked view shows at most the last 20 characters of a URL, the whole URL behind the bullets when it is short |
| Server.WithoutMembers | server/index.js:501 | closing drops exactly the entries carrying the closed connection's id |
| Server.WithoutKeepsOrder | server/index.js:501 | the entries that stay keep their order |
| Server.WithoutIdempotent | server/index.js:501 | closing twice is closing once |
| Server.CollidingIdsBothRemoved | server/index.js:438-440 | two displays that connected in the same millisecond share an id, and closing either drops both |
| Server.WithoutDistinct | server/index.js:501 | removing entries keeps the registered connections distinct |
| Server.FourMessages | server/index.js:472-491 | four events are read back as four messages with their names and JSON texts |
| Server.UrlCount | server/index.js:105-109 | at most as many calendars are requested as are configured |
| Server.UrlCountPositive | server/index.js:105-109 | some calendar is requested exactly when some calendar has a URL |
| Server.CountDown | server/index.js:94-137 | when every request ends in one callback, the `pending` countdown calls `finishCalendarUpdate` once when some calendar has a URL and never otherwise |
| Server.CountDownAsWritten | server/index.js:94-137 | the `forEach` throws exactly when some calendar has a URL that is not `https:`, and then `finishCalendarUpdate` never runs; otherwise it runs once when some calendar has a URL |
| Server.WebcalThrows | server/index.js:105-111 | a calendar with a `webcal:` URL has a URL and makes `https.get` throw |
| Server.ResolveFeeds | server/index.js:115-119 | each answered feed's agenda is resolved by the inline `parseICS` at the time that feed answered and appended list by list |
| Server.Server.constructor | server/index.js:33-58 | start-up: loaded settings, no client, no offset, no calendar timer, `--` weather, empty agenda, one weather fetch and no calendar fetch |
| Server.Server.Received | server/index.js:576-579 | every display reads from its stream exactly the events it was sent, in order |
| Server.Server.SendEvent | server/index.js:576-579 | `sendEvent` appends the event line and the data block to that stream only, and records the event |
| Server.Server.Broadcast | server/index.js:347-349 | every registered connection is sent the event once, and no other stream changes |
| Server.Server.StartCalendarFetching | server/index.js:618-623 | the first call fetches and starts the timer; later calls change nothing |
| Server.Server.Register | server/index.js:428-441 | the first reported offset is kept for good, the first one starts the calendar fetch, and the new connection is appended to the registry under id `now` |
| Server.Server.SendAll | server/index.js:472-491 | a list of events is sent to one connection in order; other streams are unchanged |
| Server.Server.Connect | server/index.js:420-496 | a new display reads exactly config, date, weather and brightness from its stream; no other stream changes |
| Server.Server.Close | server/index.js:499-503 | the keepalive stops and every entry with the connection's id leaves the registry |
| Server.Server.Keepalive | server/index.js:494-496 | the keepalive comment is appended to that connection's stream only |
| Server.Server.Status | server/index.js:507-513 | the status reports the number of registered clients |
| Server.Server.BroadcastBrightness | server/index.js:86-91 | every registered display is sent the current level |
| Server.Server.BroadcastCalendar | server/index.js:341-350 | every registered display is sent the cached agenda |
| Server.Server.BroadcastWeather | server/index.js:402-417 | every registered display is sent the cached weather |
| Server.Server.BroadcastDate | server/index.js:582-608 | every registered display is sent the server-local date label and the lunar text |
| Server.Server.Reload | server/index.js:516-521 | every registered display is sent `reload`, and the reply counts them |
| Server.Server.FinishCalendarUpdate | server/index.js:140-167 | the cached agenda becomes both lists deduped and sorted, and is broadcast |
| Server.Server.RefreshCalendars | server/index.js:94-167 | a refresh resolves every answered feed with the remembered offset at that feed's own answer time, concatenates them, keeps the deduped and sorted lists, and sends them as one `update` to every registered display and to no other stream |
| Server.Server.UpdateSettings | server/index.js:545-573 | an invalid body changes nothing; a valid one replaces settings and weather location, starts both fetches and broadcasts the brightness |
| App.Get | client/scripts/app.js:56 | a property read finds a member of the object with that key |
| App.LastMember | client/scripts/app.js:56 | a key is found exactly when some member has it, with that member's value |
| App.OrText | client/scripts/app.js:233-280 | the text fallback of a widget field: an absent field shows the fallback |
| App.OrTextOfString | client/scripts/app.js:233-280 | on a string, the fallback exactly when the string is empty |
| App.RowsOf | client/scripts/app.js:203-225 | the rows of the events before the first `null` event, one per event; complete exactly when no event is `null` |
| App.RenderList | client/scripts/app.js:192-227 | an empty list shows the placeholder; otherwise one row per event, and rendering throws exactly on a `null` event |
| App.LastMemberUnique | client/scripts/app.js:56 | a key held by one member is found with its value |
| App.ItemShown | client/scripts/app.js:203-225 | a server entry is shown with `終日` or its time, its summary, and its badge when not empty |
| App.ItemLookups | client/scripts/app.js:210-221 | the page reads back each field of the server's entry objects |
| App.AgendaShown | client/scripts/app.js:192-227 | a day of server entries shows as the placeholder or as their rows in order, without throwing |
| App.CreateWidget | client/scripts/app.js:94-128 | a `null` config throws; a weather or calendar config makes a widget of that kind |
| App.BuiltStep | client/scripts/app.js:85-90 | a complete run is the run before the last config, plus that config's widget under its id |
| App.BuiltComplete | client/scripts/app.js:85-90 | the loop runs to the end exactly when every widget could be created |
| App.BuiltKeys | client/scripts/app.js:81-91 | after a complete run the map holds exactly the configs' ids |
| App.BuiltLastWins | client/scripts/app.js:89 | the widget under an id is the one made from the last config with that id |
| App.SetText | client/scripts/app.js:305-344 | writing an element changes that element only, and only when the widget has it |
| App.SetAllEffect | client/scripts/app.js:305-344 | writing distinct elements in turn gives each its update's text and leaves the rest |
| App.PatchList | client/scripts/app.js:294-302 | redrawing a list changes only that list, and nothing when the field is absent |
| App.PatchTextsEffect | client/scripts/app.js:304-344 | each element shows the update's text where the update carries the field, and its old text elsewhere |
| App.PatchOnlyTouched | client/scripts/app.js:290-345 | an update changes only the elements whose field it carries, and no list when it carries none |
| App.TomorrowPairRedrawn | client/scripts/app.js:325-330 | an update carrying only one of the tomorrow pair redraws both, the missing one as `--` |
| App.Delay | client/scripts/app.js:69 | the reconnect delay is between one and thirty seconds, and is the cap or `1000 * 2^attempts` |
| App.DelaySchedule | client/scripts/app.js:68-72 | the delays run 1000, 2000, 4000, 8000, 16000, then stay at 30000 |
| App.DelayMonotone | client/scripts/app.js:69 | the delays never shrink as the attempts grow |
| App.Board.ApplyBrightness | client/scripts/app.js:354-358 | the overlay shows 100 while boosted, else the server's level |
| App.Board.Connect | client/scripts/app.js:21-28 | the latest source is closed, and a new one announcing the offset becomes the only open source |
| App.Board.constructor | client/scripts/app.js:375-382 | the page starts boosted with the dim timer running and one open source |
| App.Board.OnOpen | client/scripts/app.js:30-33 | opening resets the backoff |
| App.Board.ScheduleReconnect | client/scripts/app.js:68-72 | one timer with the current delay is queued, and the attempt count grows by one |
| App.Board.OnError | client/scripts/app.js:35-39 | an error closes the source and leaves exactly one reconnect timer pending |
| App.Board.FireReconnect | client/scripts/app.js:21-28 | the reconnect timer opens a new source as the only open one, with no timer left |
| App.Board.RenderWidgets | client/scripts/app.js:81-91 | the widget map is the one the configs build in turn, up to the first that throws |
| App.Board.OnConfig | client/scripts/app.js:42-45 | `config` rebuilds the widget map from its widgets |
| App.Board.OnUpdate | client/scripts/app.js:48-51 | `update` patches the widget with its id, and changes nothing for an unknown id |
| App.Board.SetBrightness | client/scripts/app.js:348-351 | the server's level is stored and shown unless boosted |
| App.Board.OnDisplay | client/scripts/app.js:54-59 | a message with a brightness sets the server's level; others change nothing |
| App.Board.ResetDimTimer | client/scripts/app.js:361-372 | a touch shows full brightness and restarts the dim timer |
| App.Board.DimTimeout | client/scripts/app.js:367-371 | after the timeout the overlay shows the server's level again |
| App.Board.Dispatch | client/scripts/app.js:42-64 | `config` leaves the widgets its listener builds, `update` the widgets its listener patches, `display` the server's level its listener sets (and the overlay shows the effective level); `reload` counts exactly one reload; any other name changes none of these |
| App.StoppedStays | client/scripts/app.js:85-90 | once a config throws, later configs change nothing |

## Left out

- The iCalendar library: parsing, time zones inside the feed and RRULE expansion. Each event arrives as the values the library reports for it, with its iterator runs.
- Network and files: the HTTPS fetches, Express routing and headers, and loading and saving `settings.json`. `GET /api/settings/full` returns the settings as they are, so it has no logic to model.
- `server/weather.js` and the weather fetch: the weather cache is only changed by its location in `UpdateSettings`.
- The order in which feed answers arrive: `RefreshCalendars` takes the answered feeds in arrival order, each with the instant it answered. A feed whose request fails, or whose `parseICS` throws, contributes nothing. The offset is read once for the whole refresh: a first display that connects while a refresh started by `POST /api/settings` is under way would change it between two answers, and that is not modelled.
- Server.CountDown: assumes every request ends in one callback, which is the corrected behaviour of the finding below. The refresh methods (`RefreshCalendars`, `Register`, `Connect`, `UpdateSettings`) follow the same assumption: as written, a URL that is not `https:` makes `fetchCalendar` throw, so `POST /api/settings` answers 500 after saving and skips the brightness broadcast, and `GET /events` fails before the calendar timer is set.
- Server.Requestable: only the literal lower-case `https:` prefix is tested. An upper-case scheme, which the URL parser accepts, and an `https:` URL that fails to parse are not distinguished.
- A `null` entry in `settings.calendars`: it passes the shape check but throws at `cal.url` in `fetchCalendar` and at `cal.name` in the masked view. Calendar entries are always objects here.
- Timers: the 15-second keepalive, the one-minute date and brightness ticks, the five- and ten-minute fetches, the page's one-minute dim and the reconnect delays. Each is an operation that fires when called (`Keepalive`, `BroadcastDate`, `BroadcastBrightness`, `DimTimeout`, `FireReconnect`).
- The clock: each handler takes one reading `now`. The page's offset is a parameter of `Connect` and `FireReconnect`.
- The host's time zone is a constant offset with no daylight-saving change, and instants stay within `Date`'s range.
- The lunar date text is a parameter: it comes from a library.
- `parseInt` of the `tz` query parameter: the offset is an integer or absent, never `NaN`.
- Floating point: JSON numbers are integers, and the overlay's opacity `1 - level / 100` is kept as the level it is computed from.
- The DOM: markup, class names, the `今日`/`明日` titles, status text, `scrollTo` and `window.location.reload`. A widget is the text of the elements `updateWidget` can reach plus its lists, and a reload is counted.
- `JSON.parse` on the page: handlers receive parsed values. A property named like an `Object.prototype` member (`__proto__`) is not distinguished.
- The browser's own `EventSource` retry, and events from a source that is no longer open. `OnOpen` and `OnError` require the latest source to be open.
- Of the event-stream format, only what the server writes: carriage-return line endings, `id`, `retry` and the byte-order mark are not read.
- Array sort in place: `SortEvents` is the resulting order, as a function.
- The two `res.write` calls of `sendEvent` are appended as one step; nothing can write to the same stream between them.
- Aggregate.SortFnOrder: proved only for items as `parseICS` builds them, with a time exactly when not all-day.
- App.CreateWidget: its contract names the kind only for the weather and calendar types; the date, message and default widgets are built but their contents are not stated in the contract.

## Findings

| source | as written | input that shows it | evidently intended | confidence | as-written member | corrected member |
|---|---|---|---|---|---|---|
| server/index.js:104-111 | `https.get(cal.url, …)` throws at once for a URL whose scheme is not `https:`. The `forEach` stops there, that calendar's `pending` count is never taken off, and `finishCalendarUpdate` never runs, so the whole refresh is lost and the exception escapes to the handler or timer that started it | a calendar whose URL is the `webcal://` subscription link a calendar application hands out (`Server.WebcalThrows`) | such a calendar fails like a request that errors: the count drops once for it and the refresh finishes with the other feeds | high for the lost refresh (`https.get` refuses any other protocol); not executed | Server.CountDownAsWritten | Server.CountDown |
