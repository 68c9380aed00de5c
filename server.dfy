/**
 * The server's module state and request handlers: the registry of
 * connected displays and the broadcasts to it, the set-once display
 * offset and the start-once calendar refresh, the settings with their
 * validation and the masked view of them, and the aggregation of the
 * feeds' agendas (`finishCalendarUpdate`).
 *
 * Connections are numbered in the order they opened; each one's response
 * stream is the text written to it so far, and a ghost record keeps what
 * it was sent. The clock is a parameter `now` of each handler, read once
 * per handler.
 */
module Server {
  import opened Wrappers
  import opened Text
  import opened Civil
  import opened Timezone
  import opened Calendar
  import opened Aggregate
  import opened Json
  import opened EventStream

  // ---------------------------------------------------------------------
  // Settings

  /** One entry of `settings.calendars`. */
  datatype CalendarConfig = CalendarConfig(name: Option<string>, url: Option<string>, badge: Option<string>)

  /** `settings.weather` */
  datatype WeatherSettings = WeatherSettings(location: Option<string>, tenkiPath: Option<string>)

  /** A settings document that passed validation. */
  datatype Settings = Settings(calendars: seq<CalendarConfig>, weather: WeatherSettings, display: DisplaySettings)

  /**
   * The body of `POST /api/settings`: each part is `None` when it is
   * missing or falsy, and `calendars` is `None` when it is not an array.
   */
  datatype SettingsBody = SettingsBody(
    calendars: Option<seq<CalendarConfig>>,
    weather: Option<WeatherSettings>,
    display: Option<DisplaySettings>)

  /** The structural check of `POST /api/settings`: a calendars array, a weather block and a display block. */
  function Validated(body: SettingsBody): (r: Option<Settings>)
    ensures r.Some? <==> body.calendars.Some? && body.weather.Some? && body.display.Some?
    ensures r.Some? ==> (r.value.calendars == body.calendars.value &&
      r.value.weather == body.weather.value && r.value.display == body.display.value)
  {
    if body.calendars.Some? && body.weather.Some? && body.display.Some? then
      Some(Settings(body.calendars.value, body.weather.value, body.display.value))
    else None
  }

  /** A calendar as `GET /api/settings` shows it. */
  datatype MaskedCalendar = MaskedCalendar(name: Option<string>, hasUrl: bool, url: string)

  /** The settings as `GET /api/settings` shows them. */
  datatype SafeSettings = SafeSettings(calendars: seq<MaskedCalendar>, weather: WeatherSettings, display: DisplaySettings)

  /** The eight bullets put in front of the visible end of a URL. */
  const Bullets: string := "••••••••"

  /** `s.slice(-20)`: the last 20 characters, or all of a shorter string. */
  function Last20(s: string): (r: string)
    ensures |r| == if |s| < 20 then |s| else 20
    ensures r == s[|s| - |r|..]
  {
    if |s| <= 20 then s else s[|s| - 20..]
  }

  /** `!!cal.url` */
  predicate HasUrl(cal: CalendarConfig) {
    cal.url.Some? && cal.url.value != ""
  }

  /** `{name, hasUrl, url}` of one calendar. */
  function MaskCalendar(cal: CalendarConfig): (m: MaskedCalendar)
    ensures m.name == cal.name
    ensures m.hasUrl <==> HasUrl(cal)
    ensures !HasUrl(cal) ==> m.url == ""
    ensures HasUrl(cal) ==> (|Bullets| <= |m.url| <= |Bullets| + 20 && m.url[..|Bullets|] == Bullets &&
      m.url[|Bullets|..] == Last20(cal.url.value))
  {
    if HasUrl(cal) then MaskedCalendar(cal.name, true, Bullets + Last20(cal.url.value))
    else MaskedCalendar(cal.name, false, "")
  }

  /** `safeSettings`: the calendars masked, the rest as it is. */
  function SafeView(s: Settings): (v: SafeSettings)
    ensures |v.calendars| == |s.calendars|
    ensures forall i :: 0 <= i < |s.calendars| ==> v.calendars[i] == MaskCalendar(s.calendars[i])
    ensures v.weather == s.weather && v.display == s.display
  {
    SafeSettings(seq(|s.calendars|, i requires 0 <= i < |s.calendars| => MaskCalendar(s.calendars[i])), s.weather, s.display)
  }

  /**
   * The masked view reveals at most the last 20 characters of a URL; a URL
   * of 20 characters or fewer is shown whole behind the bullets.
   */
  lemma MaskedUrlReveals(s: Settings, i: nat)
    requires i < |s.calendars| && HasUrl(s.calendars[i])
    ensures var u := s.calendars[i].url.value;
      var shown := SafeView(s).calendars[i].url[|Bullets|..];
      |shown| <= 20 && shown == u[|u| - |shown|..] &&
      (|u| <= 20 ==> shown == u)
  {
  }

  // ---------------------------------------------------------------------
  // Payloads

  /** The weather cache; `location` is absent when the settings have none. */
  datatype WeatherData = WeatherData(
    temp: string, high: string, low: string, condition: string,
    tomorrowHigh: string, tomorrowLow: string, tomorrowCondition: string,
    location: Option<string>)

  /** The cache before the first weather fetch: `--` everywhere. */
  function InitialWeather(s: Settings): WeatherData {
    WeatherData("--", "--", "--", "--", "--", "--", "--", s.weather.location)
  }

  /** An agenda entry as an object: `summary`, `allDay`, then `badge` and `time` when set. */
  function ItemJson(it: Item): Json {
    JObject([Member("summary", JString(it.summary)), Member("allDay", JBool(it.allDay))] +
      (if it.badge.Some? then [Member("badge", JString(it.badge.value))] else []) +
      (if it.time.Some? then [Member("time", JString(it.time.value))] else []))
  }

  function ItemsJson(items: seq<Item>): Json {
    JArray(seq(|items|, i requires 0 <= i < |items| => ItemJson(items[i])))
  }

  /** The weather fields in the order the server lists them; an undefined location is left out. */
  function WeatherMembers(w: WeatherData): seq<Member> {
    [Member("temp", JString(w.temp)), Member("high", JString(w.high)), Member("low", JString(w.low)),
     Member("condition", JString(w.condition)), Member("tomorrowHigh", JString(w.tomorrowHigh)),
     Member("tomorrowLow", JString(w.tomorrowLow)), Member("tomorrowCondition", JString(w.tomorrowCondition))] +
    (if w.location.Some? then [Member("location", JString(w.location.value))] else [])
  }

  /** The `update` of the weather widget. */
  function WeatherUpdate(w: WeatherData): Json {
    JObject([Member("id", JString("weather"))] + WeatherMembers(w))
  }

  /** The `update` of the calendar widget. */
  function CalendarUpdate(a: Agenda): Json {
    JObject([Member("id", JString("calendar")), Member("today", ItemsJson(a.today)), Member("tomorrow", ItemsJson(a.tomorrow))])
  }

  /** The `config` baseline: the date, weather and calendar widgets with the cached values. */
  function ConfigJson(w: WeatherData, a: Agenda): Json {
    JObject([
      Member("layout", JString("single")),
      Member("widgets", JArray([
        JObject([Member("id", JString("date")), Member("type", JString("date")), Member("value", JString(""))]),
        JObject([Member("id", JString("weather")), Member("type", JString("weather"))] + WeatherMembers(w)),
        JObject([Member("id", JString("calendar")), Member("type", JString("calendar")),
                 Member("today", ItemsJson(a.today)), Member("tomorrow", ItemsJson(a.tomorrow))])]))])
  }

  /**
   * `sendDateUpdate`: the server's own local date (not the display's) as
   * `M月D日 (曜)`; the lunar text is computed by a library and is a parameter.
   */
  function DateUpdate(now: int, serverOffset: int, lunar: string): Json {
    JObject([Member("id", JString("date")),
             Member("value", JString(FormatDateJapanese(LocalFields(now, serverOffset)))),
             Member("lunar", JString(lunar))])
  }

  /** The `display` payload. */
  function DisplayJson(level: int): Json {
    JObject([Member("brightness", JNumber(level))])
  }


  // ---------------------------------------------------------------------
  // The registry

  /** A registry entry: the id taken from `Date.now()` and the connection it writes to. */
  datatype Client = Client(id: int, conn: nat)

  /** The connections of a registry. */
  function Conns(cs: seq<Client>): set<nat> {
    set i | 0 <= i < |cs| :: cs[i].conn
  }

  /** No connection is registered twice. */
  predicate DistinctConns(cs: seq<Client>) {
    forall i, j :: 0 <= i < j < |cs| ==> cs[i].conn != cs[j].conn
  }

  /** `clients.filter(c => c.id !== id)` */
  function Without(cs: seq<Client>, id: int): seq<Client> {
    if |cs| == 0 then []
    else
      Without(cs[..|cs| - 1], id) + (if cs[|cs| - 1].id != id then [cs[|cs| - 1]] else [])
  }

  /** Closing drops exactly the entries carrying the id. */
  lemma {:induction false} WithoutMembers(cs: seq<Client>, id: int)
    ensures forall x :: x in Without(cs, id) <==> x in cs && x.id != id
  {
    if |cs| > 0 {
      WithoutMembers(cs[..|cs| - 1], id);
      assert cs == cs[..|cs| - 1] + [cs[|cs| - 1]];
    }
  }

  /** `a` is `b` with some entries left out, the rest in their order. */
  predicate SubsequenceOf(a: seq<Client>, b: seq<Client>)
    decreases |b|
  {
    if |a| == 0 then true
    else if |b| == 0 then false
    else (a[|a| - 1] == b[|b| - 1] && SubsequenceOf(a[..|a| - 1], b[..|b| - 1])) || SubsequenceOf(a, b[..|b| - 1])
  }

  /** The entries that stay keep their order. */
  lemma {:induction false} WithoutKeepsOrder(cs: seq<Client>, id: int)
    ensures SubsequenceOf(Without(cs, id), cs)
  {
    if |cs| > 0 {
      var p := cs[..|cs| - 1];
      WithoutKeepsOrder(p, id);
      var r := Without(cs, id);
      if cs[|cs| - 1].id != id {
        assert r[..|r| - 1] == Without(p, id);
      } else {
        assert r == Without(p, id);
        SubsequenceGrow(r, p, cs[|cs| - 1]);
      }
    }
  }

  lemma {:induction false} SubsequenceGrow(a: seq<Client>, b: seq<Client>, x: Client)
    requires SubsequenceOf(a, b)
    ensures SubsequenceOf(a, b + [x])
  {
    if |a| > 0 {
      assert (b + [x])[..|b|] == b;
    }
  }

  /** Closing twice is closing once. */
  lemma {:induction false} WithoutIdempotent(cs: seq<Client>, id: int)
    ensures Without(Without(cs, id), id) == Without(cs, id)
  {
    if |cs| > 0 {
      var p := cs[..|cs| - 1];
      WithoutIdempotent(p, id);
      var r := Without(cs, id);
      if cs[|cs| - 1].id != id {
        assert r[..|r| - 1] == Without(p, id);
      } else {
        assert r == Without(p, id);
      }
    }
  }

  /** Two displays that connected in the same millisecond share an id: closing either drops both. */
  lemma CollidingIdsBothRemoved(id: int, a: nat, b: nat)
    ensures Without([Client(id, a), Client(id, b)], id) == []
  {
    assert [Client(id, a), Client(id, b)][..1] == [Client(id, a)];
    assert [Client(id, a)][..0] == [];
    assert Without([Client(id, a)], id) == [];
  }

  /** Removing entries keeps the remaining connections distinct. */
  lemma {:induction false} WithoutDistinct(cs: seq<Client>, id: int)
    requires DistinctConns(cs)
    ensures DistinctConns(Without(cs, id))
  {
    if |cs| > 0 {
      var p := cs[..|cs| - 1];
      var last := cs[|cs| - 1];
      assert DistinctConns(p);
      WithoutDistinct(p, id);
      WithoutMembers(p, id);
      var w := Without(p, id);
      if last.id != id {
        var r := w + [last];
        forall i, j | 0 <= i < j < |r|
          ensures r[i].conn != r[j].conn
        {
          if j == |w| {
            assert r[i] == w[i] && w[i] in p;
            var k :| 0 <= k < |p| && p[k] == w[i];
            assert cs[k] == p[k];
          } else {
            assert r[i] == w[i] && r[j] == w[j];
          }
        }
      }
    }
  }

  /** Growing a prefix of the registry by one entry adds that entry's connection. */
  lemma ConnsSnoc(cs: seq<Client>, k: nat)
    requires k < |cs|
    ensures Conns(cs[..k + 1]) == Conns(cs[..k]) + {cs[k].conn}
  {
    var a := cs[..k];
    var b := cs[..k + 1];
    assert forall i :: 0 <= i < k ==> b[i] == a[i];
    assert b[k] == cs[k];
  }

  /** The entries before `k` carry other connections than entry `k`. */
  lemma ConnsBefore(cs: seq<Client>, k: nat)
    requires k < |cs| && DistinctConns(cs)
    ensures cs[k].conn !in Conns(cs[..k])
  {
    forall i | 0 <= i < k
      ensures cs[..k][i].conn != cs[k].conn
    {
      assert cs[..k][i] == cs[i];
    }
  }

  // ---------------------------------------------------------------------
  // Streams

  lemma RenderSnoc(ss: seq<Sent>, s: Sent)
    ensures Render(ss + [s]) == Render(ss) + SentText(s)
    ensures AllGoodNames(ss) && (s.Event? ==> GoodName(s.name)) ==> AllGoodNames(ss + [s])
  {
    assert (ss + [s])[..|ss|] == ss;
    assert forall k :: 0 <= k < |ss| ==> (ss + [s])[k] == ss[k];
  }

  /** What the display reads from four events. */
  lemma FourMessages(b: seq<Sent>)
    requires |b| == 4 && b[0].Event? && b[1].Event? && b[2].Event? && b[3].Event?
    ensures Messages(b) == [
      Message(b[0].name, Stringify(b[0].payload)), Message(b[1].name, Stringify(b[1].payload)),
      Message(b[2].name, Stringify(b[2].payload)), Message(b[3].name, Stringify(b[3].payload))]
  {
    MessagesSnoc([], b[0]);
    MessagesSnoc([b[0]], b[1]);
    MessagesSnoc([b[0], b[1]], b[2]);
    MessagesSnoc([b[0], b[1], b[2]], b[3]);
    assert [] + [b[0]] == [b[0]];
    assert [b[0]] + [b[1]] == [b[0], b[1]];
    assert [b[0], b[1]] + [b[2]] == [b[0], b[1], b[2]];
    assert b == [b[0], b[1], b[2]] + [b[3]];
  }

  /** Each stream is the rendering of what its connection was sent, every event name readable. */
  ghost predicate Consistent(streams: seq<string>, sent: seq<seq<Sent>>) {
    |sent| == |streams| &&
    forall c :: 0 <= c < |streams| ==> StreamOf(streams, sent, c)
  }

  /** Stream `c` is the rendering of what connection `c` was sent, every event name readable. */
  ghost predicate StreamOf(streams: seq<string>, sent: seq<seq<Sent>>, c: nat)
    requires c < |streams| && c < |sent|
  {
    streams[c] == Render(sent[c]) && AllGoodNames(sent[c])
  }

  /** Writing one more send to a connection keeps every stream consistent. */
  lemma ConsistentAppend(streams: seq<string>, sent: seq<seq<Sent>>, conn: nat, s: Sent)
    requires Consistent(streams, sent) && conn < |streams|
    requires s.Event? ==> GoodName(s.name)
    ensures Consistent(streams[conn := streams[conn] + SentText(s)], sent[conn := sent[conn] + [s]])
  {
    var streams', sent' := streams[conn := streams[conn] + SentText(s)], sent[conn := sent[conn] + [s]];
    forall c | 0 <= c < |streams'|
      ensures StreamOf(streams', sent', c)
    {
      assert StreamOf(streams, sent, c);
      if c == conn {
        RenderSnoc(sent[conn], s);
      }
    }
  }

  /** A new connection starts with an empty stream, having been sent nothing. */
  lemma ConsistentGrow(streams: seq<string>, sent: seq<seq<Sent>>)
    requires Consistent(streams, sent)
    ensures Consistent(streams + [""], sent + [[]])
  {
    forall c | 0 <= c < |streams| + 1
      ensures StreamOf(streams + [""], sent + [[]], c)
    {
      if c < |streams| {
        assert StreamOf(streams, sent, c);
      }
    }
  }

  lemma MessagesSnoc(ss: seq<Sent>, s: Sent)
    ensures Messages(ss + [s]) == Messages(ss) + SentMessages(s)
  {
    assert (ss + [s])[..|ss|] == ss;
  }

  // ---------------------------------------------------------------------
  // The server

  /**
   * Appending `f` to entry `x`, not yet among the entries `before` that
   * already have it, extends the set of entries that have it by `x`.
   */
  lemma AppendToOne<T>(s0: seq<seq<T>>, s: seq<seq<T>>, before: set<nat>, x: nat, f: seq<T>)
    requires |s| == |s0| && x < |s| && x !in before
    requires forall c :: 0 <= c < |s| ==> s[c] == s0[c] + (if c in before then f else [])
    ensures forall c :: 0 <= c < |s| ==> s[x := s[x] + f][c] == s0[c] + (if c in before + {x} then f else [])
  {
    assert s[x] == s0[x];
  }

  /** One more of a list of events recorded for one connection. */
  lemma SentExtend(sent: seq<seq<Sent>>, conn: nat, events: seq<Sent>, k: nat)
    requires conn < |sent| && k < |events|
    ensures sent[conn := sent[conn] + events[..k]][conn := sent[conn] + events[..k] + [events[k]]] ==
      sent[conn := sent[conn] + events[..k + 1]]
  {
    var b := sent[conn] + events[..k + 1];
    assert events[..k + 1] == events[..k] + [events[k]];
    assert sent[conn] + events[..k] + [events[k]] == b;
    assert sent[conn := sent[conn] + events[..k]][conn := b] == sent[conn := b];
  }

  /**
   * One feed's answer: its events as the iCalendar library reports them,
   * its badge, and the instant its `end` callback ran, which is the `now`
   * its `parseICS` reads.
   */
  datatype Feed = Feed(events: seq<VEvent>, badge: string, at: int)

  /** The resolved agendas of the feeds, each at its own answer time, concatenated list by list. */
  function Concatenated(feeds: seq<Feed>, tz: Option<int>, serverOffset: int): Agenda {
    if |feeds| == 0 then Agenda([], [])
    else
      var acc := Concatenated(feeds[..|feeds| - 1], tz, serverOffset);
      var last := feeds[|feeds| - 1];
      var a := Resolved(last.events, last.badge, tz, serverOffset, last.at, InlineVariant);
      Agenda(acc.today + a.today, acc.tomorrow + a.tomorrow)
  }

  /** The number of calendars with a URL, counted from the end of the list. */
  function UrlCount(calendars: seq<CalendarConfig>): (n: nat)
    ensures n <= |calendars|
  {
    if |calendars| == 0 then 0
    else UrlCount(calendars[..|calendars| - 1]) + (if HasUrl(calendars[|calendars| - 1]) then 1 else 0)
  }

  /** Some calendar is requested exactly when some calendar has a URL. */
  lemma {:induction false} UrlCountPositive(calendars: seq<CalendarConfig>)
    ensures UrlCount(calendars) > 0 <==> exists i :: 0 <= i < |calendars| && HasUrl(calendars[i])
  {
    if |calendars| > 0 {
      var p := calendars[..|calendars| - 1];
      UrlCountPositive(p);
      if exists i :: 0 <= i < |p| && HasUrl(p[i]) {
        var i :| 0 <= i < |p| && HasUrl(p[i]);
        assert calendars[i] == p[i];
      }
      if exists i :: 0 <= i < |calendars| && HasUrl(calendars[i]) {
        var i :| 0 <= i < |calendars| && HasUrl(calendars[i]);
        if i < |p| {
          assert p[i] == calendars[i];
        }
      }
    }
  }

  /**
   * Whether `https.get(url, …)` accepts the URL and reports its outcome
   * through a callback: the scheme must be `https:`. Any other scheme
   * (`http:`, the `webcal:` of calendar subscriptions) makes the call throw
   * before it returns.
   */
  predicate Requestable(url: string) {
    |url| >= 6 && url[..6] == "https:"
  }

  /** A calendar whose `https.get` throws at once: it has a URL that is not requestable. */
  predicate ThrowsAtRequest(cal: CalendarConfig) {
    HasUrl(cal) && !Requestable(cal.url.value)
  }

  /**
   * The `pending` countdown of `fetchCalendar` as written: the `forEach`
   * issues the requests in list order, and the first calendar whose
   * `https.get` throws aborts it. That calendar's count is never taken
   * off, so the answers of the requests already issued cannot bring
   * `pending` to zero: `finishCalendarUpdate` never runs and the
   * exception escapes to the caller (`threw`).
   */
  method CountDownAsWritten(calendars: seq<CalendarConfig>) returns (finishes: nat, threw: bool)
    ensures threw <==> exists i :: 0 <= i < |calendars| && ThrowsAtRequest(calendars[i])
    ensures finishes == if !threw && exists i :: 0 <= i < |calendars| && HasUrl(calendars[i]) then 1 else 0
  {
    finishes, threw := 0, false;
    UrlCountPositive(calendars);
    if |calendars| == 0 {
      return;
    }
    var pending := |calendars|;
    var requests := 0;
    var i := 0;
    while i < |calendars| && !ThrowsAtRequest(calendars[i])
      invariant i <= |calendars|
      invariant requests == UrlCount(calendars[..i]) && pending == |calendars| - i + requests
      invariant forall j :: 0 <= j < i ==> !ThrowsAtRequest(calendars[j])
    {
      assert calendars[..i + 1][..i] == calendars[..i];
      if HasUrl(calendars[i]) {
        requests := requests + 1;
      } else {
        pending := pending - 1;
      }
      i := i + 1;
    }
    threw := i < |calendars|;
    if !threw {
      assert calendars[..i] == calendars;
    }
    // The requests issued before the loop stopped answer later, one by one.
    var k := 0;
    while k < requests
      invariant k <= requests && pending == |calendars| - i + requests - k
      invariant finishes == if k > 0 && pending == 0 then 1 else 0
    {
      pending := pending - 1;
      if pending == 0 {
        finishes := finishes + 1;
      }
      k := k + 1;
    }
  }

  /** A `webcal:` subscription link, as calendar applications hand them out, makes the refresh throw. */
  lemma WebcalThrows(name: Option<string>, badge: Option<string>)
    ensures var cal := CalendarConfig(name, Some("webcal://calendar.example/family.ics"), badge);
      HasUrl(cal) && ThrowsAtRequest(cal)
  {
    var url := "webcal://calendar.example/family.ics";
    assert url[..6] != "https:" by {
      assert url[0] == 'w';
    }
  }

  /**
   * The `pending` countdown of `fetchCalendar`: nothing for an empty list;
   * otherwise the count starts at the number of calendars, drops at once
   * for each calendar without URL (without looking for zero), then drops
   * once per request when its answer or its error arrives, and the request
   * that brings it to zero calls `finishCalendarUpdate`. The result is how
   * many times that call happens: once when some calendar has a URL, never
   * otherwise, so the previous agenda stays when no feed is configured.
   * Every request here ends in exactly one callback, as it does when a
   * URL `https.get` refuses is reported like a failed request instead of
   * being thrown (compare `CountDownAsWritten`).
   */
  method CountDown(calendars: seq<CalendarConfig>) returns (finishes: nat)
    ensures finishes == if exists i :: 0 <= i < |calendars| && HasUrl(calendars[i]) then 1 else 0
  {
    finishes := 0;
    UrlCountPositive(calendars);
    if |calendars| == 0 {
      return;
    }
    var pending := |calendars|;
    var i := 0;
    while i < |calendars|
      invariant i <= |calendars|
      invariant pending == |calendars| - i + UrlCount(calendars[..i])
    {
      assert calendars[..i + 1][..i] == calendars[..i];
      if !HasUrl(calendars[i]) {
        pending := pending - 1;
      }
      i := i + 1;
    }
    assert calendars[..i] == calendars;
    var requests := pending;
    var k := 0;
    while k < requests
      invariant k <= requests && pending == requests - k
      invariant finishes == if k > 0 && pending == 0 then 1 else 0
    {
      pending := pending - 1;
      if pending == 0 {
        finishes := finishes + 1;
      }
      k := k + 1;
    }
  }

  /** Each feed's agenda resolved in turn and appended to the running lists. */
  method ResolveFeeds(feeds: seq<Feed>, tz: Option<int>, serverOffset: int) returns (all: Agenda)
    ensures all == Concatenated(feeds, tz, serverOffset)
  {
    all := Agenda([], []);
    var k := 0;
    while k < |feeds|
      invariant k <= |feeds|
      invariant all == Concatenated(feeds[..k], tz, serverOffset)
    {
      var events := ParseIcs(feeds[k].events, feeds[k].badge, tz, serverOffset, feeds[k].at, InlineVariant);
      all := Agenda(all.today + events.today, all.tomorrow + events.tomorrow);
      assert feeds[..k + 1][..k] == feeds[..k];
      k := k + 1;
    }
    assert feeds[..k] == feeds;
  }

  class Server {
    /** The host's `getTimezoneOffset()`, constant. */
    const serverOffset: int

    var settings: Settings
    var clients: seq<Client>
    var clientTzOffset: Option<int>
    /** `calendarInterval !== null` */
    var calendarInterval: bool
    /** How many times `fetchCalendar` and `fetchWeather` were started. */
    var calendarFetches: nat
    var weatherFetches: nat
    var weatherData: WeatherData
    var calendarEvents: Agenda
    /**
     * Everything written to each response stream so far; the connections
     * opened so far are numbered `0 .. |streams| - 1`.
     */
    var streams: seq<string>
    /** The `clientId` each connection's handlers captured. */
    var connIds: seq<int>
    /** Connections whose `close` has not happened yet (their keepalive timer still runs). */
    var live: set<nat>
    /** What each connection has been sent. */
    ghost var sent: seq<seq<Sent>>

    /**
     * Every registered client is a live connection under the id its
     * handlers captured, and no connection is registered twice.
     */
    ghost predicate RegistryValid()
      reads this`clients, this`live, this`connIds
    {
      (forall c :: c in live ==> c < |connIds|) &&
      (forall i :: 0 <= i < |clients| ==>
        clients[i].conn in live && clients[i].id == connIds[clients[i].conn]) &&
      DistinctConns(clients)
    }

    /** Every stream is a sequence of whole events and keepalives. */
    ghost predicate StreamsValid()
      reads this`streams, this`sent
    {
      Consistent(streams, sent)
    }

    /** The invariant of the server's state; the calendar timer runs once an offset is known. */
    ghost predicate Valid()
      reads this
    {
      RegistryValid() && StreamsValid() && |connIds| == |streams| &&
      (calendarInterval <==> clientTzOffset.Some?)
    }

    /**
     * Start-up with the loaded settings: the weather is fetched once at
     * load, and the calendar not until a display reports its offset.
     */
    constructor (loaded: Settings, hostOffset: int)
      ensures Valid()
      ensures serverOffset == hostOffset && settings == loaded
      ensures clients == [] && clientTzOffset == None && !calendarInterval
      ensures calendarFetches == 0 && weatherFetches == 1
      ensures weatherData == InitialWeather(loaded) && calendarEvents == Agenda([], [])
      ensures streams == [] && live == {}
    {
      serverOffset := hostOffset;
      settings := loaded;
      clients := [];
      clientTzOffset := None;
      calendarInterval := false;
      calendarFetches := 0;
      weatherFetches := 1;
      weatherData := InitialWeather(loaded);
      calendarEvents := Agenda([], []);
      streams := [];
      connIds := [];
      live := {};
      sent := [];
    }

    /** A display reads from its stream exactly the events it was sent, in order. */
    lemma Received(c: nat)
      requires Valid() && c < |streams|
      ensures Parse(streams[c]) == Messages(sent[c])
    {
      assert StreamOf(streams, sent, c);
      ParseRendered(sent[c]);
    }

    /** `sendEvent(res, event, data)`: the event line, then the data line and the blank line. */
    method SendEvent(conn: nat, event: string, data: Json)
      requires StreamsValid() && conn < |streams| && GoodName(event)
      modifies this`streams, this`sent
      ensures StreamsValid()
      ensures streams == old(streams)[conn := old(streams)[conn] + Frame(event, data)]
      ensures sent == old(sent)[conn := old(sent)[conn] + [Event(event, data)]]
    {
      ConsistentAppend(streams, sent, conn, Event(event, data));
      var written := streams[conn] + EventLine(event);
      written := written + DataBlock(data);
      assert written == streams[conn] + SentText(Event(event, data));
      streams := streams[conn := written];
      sent := sent[conn := sent[conn] + [Event(event, data)]];
    }

    /** `clients.forEach(client => sendEvent(client.res, event, data))` */
    method Broadcast(event: string, data: Json)
      requires Valid() && GoodName(event)
      modifies this`streams, this`sent
      ensures Valid() && |streams| == |old(streams)|
      ensures forall c :: 0 <= c < |streams| ==>
        streams[c] == old(streams)[c] + (if c in Conns(clients) then Frame(event, data) else "")
      ensures forall c :: 0 <= c < |streams| ==>
        sent[c] == old(sent)[c] + (if c in Conns(clients) then [Event(event, data)] else [])
    {
      var k := 0;
      while k < |clients|
        invariant k <= |clients| && StreamsValid() && |streams| == |old(streams)|
        invariant DistinctConns(clients)
        invariant forall c :: 0 <= c < |streams| ==>
          streams[c] == old(streams)[c] + (if c in Conns(clients[..k]) then Frame(event, data) else "")
        invariant forall c :: 0 <= c < |streams| ==>
          sent[c] == old(sent)[c] + (if c in Conns(clients[..k]) then [Event(event, data)] else [])
      {
        ConnsBefore(clients, k);
        ConnsSnoc(clients, k);
        AppendToOne(old(streams), streams, Conns(clients[..k]), clients[k].conn, Frame(event, data));
        AppendToOne(old(sent), sent, Conns(clients[..k]), clients[k].conn, [Event(event, data)]);
        SendEvent(clients[k].conn, event, data);
        k := k + 1;
      }
      assert clients[..k] == clients;
    }

    /** `startCalendarFetching()`: the first call fetches and starts the 5-minute timer; later calls return. */
    method StartCalendarFetching()
      modifies this`calendarInterval, this`calendarFetches
      ensures calendarInterval
      ensures calendarFetches == old(calendarFetches) + (if old(calendarInterval) then 0 else 1)
    {
      if calendarInterval {
        return;
      }
      calendarFetches := calendarFetches + 1;
      calendarInterval := true;
    }

    /** `getCurrentBrightness()` at `now`. */
    function Brightness(now: int): int
      reads this
    {
      CurrentBrightness(now, clientTzOffset, serverOffset, settings.display)
    }

    /** The four events a new display is sent first. */
    function Baseline(now: int, lunar: string): seq<Sent>
      reads this
    {
      [Event("config", ConfigJson(weatherData, calendarEvents)),
       Event("update", DateUpdate(now, serverOffset, lunar)),
       Event("update", WeatherUpdate(weatherData)),
       Event("display", DisplayJson(Brightness(now)))]
    }

    /**
     * The first half of `GET /events`: remember the first reported offset
     * and start the calendar refresh, then register the new connection.
     */
    method Register(tz: Option<int>, now: int) returns (conn: nat)
      requires Valid()
      modifies this`clientTzOffset, this`calendarInterval, this`calendarFetches,
        this`clients, this`streams, this`connIds, this`live, this`sent
      ensures Valid()
      ensures conn == |old(streams)| && streams == old(streams) + [""] && sent == old(sent) + [[]]
      ensures live == old(live) + {conn} && connIds == old(connIds) + [now]
      ensures clients == old(clients) + [Client(now, conn)]
      ensures clientTzOffset == if old(clientTzOffset).None? then tz else old(clientTzOffset)
      ensures calendarFetches == old(calendarFetches) + (if old(clientTzOffset).None? && tz.Some? then 1 else 0)
    {
      if tz.Some? && clientTzOffset.None? {
        clientTzOffset := tz;
        StartCalendarFetching();
      }
      conn := |streams|;
      ConsistentGrow(streams, sent);
      streams := streams + [""];
      connIds := connIds + [now];
      sent := sent + [[]];
      live := live + {conn};
      clients := clients + [Client(now, conn)];
      assert DistinctConns(clients) by {
        assert forall i :: 0 <= i < |clients| - 1 ==> clients[i] == old(clients)[i];
      }
    }

    /** `sendEvent` of each of a list of events in turn to one connection. */
    method SendAll(conn: nat, events: seq<Sent>)
      requires Valid() && conn < |streams|
      requires forall k :: 0 <= k < |events| ==> events[k].Event? && GoodName(events[k].name)
      modifies this`streams, this`sent
      ensures Valid() && |streams| == |old(streams)|
      ensures forall c :: 0 <= c < |streams| && c != conn ==> streams[c] == old(streams)[c]
      ensures sent == old(sent)[conn := old(sent)[conn] + events]
    {
      var k := 0;
      assert old(sent)[conn] + events[..0] == old(sent)[conn];
      while k < |events|
        invariant k <= |events| && StreamsValid() && conn < |streams| && |streams| == |old(streams)|
        invariant forall c :: 0 <= c < |streams| && c != conn ==> streams[c] == old(streams)[c]
        invariant sent == old(sent)[conn := old(sent)[conn] + events[..k]]
      {
        SendEvent(conn, events[k].name, events[k].payload);
        SentExtend(old(sent), conn, events, k);
        k := k + 1;
      }
      assert events[..k] == events;
    }

    /**
     * `GET /events`: the new display reads exactly the four baseline
     * events from its stream, and no other stream changes.
     */
    method Connect(tz: Option<int>, now: int, lunar: string) returns (conn: nat)
      requires Valid()
      modifies this`clientTzOffset, this`calendarInterval, this`calendarFetches,
        this`clients, this`streams, this`connIds, this`live, this`sent
      ensures Valid()
      ensures conn == |old(streams)| && |streams| == conn + 1 && live == old(live) + {conn}
      ensures clients == old(clients) + [Client(now, conn)]
      ensures clientTzOffset == if old(clientTzOffset).None? then tz else old(clientTzOffset)
      ensures calendarFetches == old(calendarFetches) + (if old(clientTzOffset).None? && tz.Some? then 1 else 0)
      ensures forall c :: 0 <= c < conn ==> streams[c] == old(streams)[c]
      ensures sent[conn] == Baseline(now, lunar)
      ensures Parse(streams[conn]) == [
        Message("config", Stringify(ConfigJson(weatherData, calendarEvents))),
        Message("update", Stringify(DateUpdate(now, serverOffset, lunar))),
        Message("update", Stringify(WeatherUpdate(weatherData))),
        Message("display", Stringify(DisplayJson(Brightness(now))))]
    {
      conn := Register(tz, now);
      SendAll(conn, Baseline(now, lunar));
      assert sent[conn] == [] + Baseline(now, lunar);
      Received(conn);
      FourMessages(Baseline(now, lunar));
    }

    /** The `close` handler of connection `conn`: stop its keepalive and drop every entry with its id. */
    method Close(conn: nat)
      requires Valid() && conn in live
      modifies this`clients, this`live
      ensures Valid()
      ensures clients == Without(old(clients), connIds[conn])
      ensures live == old(live) - {conn}
      ensures conn !in Conns(clients)
    {
      WithoutMembers(clients, connIds[conn]);
      WithoutDistinct(clients, connIds[conn]);
      clients := Without(clients, connIds[conn]);
      live := live - {conn};
    }

    /** The 15-second keepalive of a connection that has not closed. */
    method Keepalive(conn: nat)
      requires Valid() && conn in live
      modifies this`streams, this`sent
      ensures Valid()
      ensures streams == old(streams)[conn := old(streams)[conn] + KeepaliveText]
      ensures sent == old(sent)[conn := old(sent)[conn] + [Sent.Keepalive]]
    {
      ConsistentAppend(streams, sent, conn, Sent.Keepalive);
      streams := streams[conn := streams[conn] + KeepaliveText];
      sent := sent[conn := sent[conn] + [Sent.Keepalive]];
    }

    /** `GET /status`: the number of registered clients. */
    method Status() returns (count: nat)
      ensures count == |clients|
    {
      count := |clients|;
    }

    /** `broadcastBrightness()` */
    method BroadcastBrightness(now: int)
      requires Valid()
      modifies this`streams, this`sent
      ensures Valid() && |streams| == |old(streams)|
      ensures forall c :: 0 <= c < |streams| ==>
        streams[c] == old(streams)[c] + (if c in Conns(clients) then Frame("display", DisplayJson(Brightness(now))) else "")
    {
      var brightness := Brightness(now);
      Broadcast("display", DisplayJson(brightness));
    }

    /** `broadcastCalendar()` */
    method BroadcastCalendar()
      requires Valid()
      modifies this`streams, this`sent
      ensures Valid() && |streams| == |old(streams)|
      ensures forall c :: 0 <= c < |streams| ==>
        streams[c] == old(streams)[c] + (if c in Conns(clients) then Frame("update", CalendarUpdate(calendarEvents)) else "")
    {
      Broadcast("update", CalendarUpdate(calendarEvents));
    }

    /** `broadcastWeather()` */
    method BroadcastWeather()
      requires Valid()
      modifies this`streams, this`sent
      ensures Valid() && |streams| == |old(streams)|
      ensures forall c :: 0 <= c < |streams| ==>
        streams[c] == old(streams)[c] + (if c in Conns(clients) then Frame("update", WeatherUpdate(weatherData)) else "")
    {
      Broadcast("update", WeatherUpdate(weatherData));
    }

    /** The minute tick: `sendDateUpdate` to every client. */
    method BroadcastDate(now: int, lunar: string)
      requires Valid()
      modifies this`streams, this`sent
      ensures Valid() && |streams| == |old(streams)|
      ensures forall c :: 0 <= c < |streams| ==>
        streams[c] == old(streams)[c] + (if c in Conns(clients) then Frame("update", DateUpdate(now, serverOffset, lunar)) else "")
    {
      Broadcast("update", DateUpdate(now, serverOffset, lunar));
    }

    /** `POST /reload`: a `reload` event to every client; the reply counts them. */
    method Reload() returns (reloaded: nat)
      requires Valid()
      modifies this`streams, this`sent
      ensures Valid() && |streams| == |old(streams)|
      ensures reloaded == |clients|
      ensures forall c :: 0 <= c < |streams| ==>
        streams[c] == old(streams)[c] + (if c in Conns(clients) then Frame("reload", JObject([])) else "")
    {
      Broadcast("reload", JObject([]));
      reloaded := |clients|;
    }

    /** `finishCalendarUpdate(allEvents)`: dedupe and sort both lists, keep them, broadcast them. */
    method FinishCalendarUpdate(allEvents: Agenda)
      requires Valid()
      modifies this`calendarEvents, this`streams, this`sent
      ensures Valid() && |streams| == |old(streams)|
      ensures calendarEvents == Agenda(SortEvents(Deduped(allEvents.today)), SortEvents(Deduped(allEvents.tomorrow)))
      ensures forall c :: 0 <= c < |streams| ==>
        streams[c] == old(streams)[c] + (if c in Conns(clients) then Frame("update", CalendarUpdate(calendarEvents)) else "")
    {
      var today := FinishList(allEvents.today);
      var tomorrow := FinishList(allEvents.tomorrow);
      calendarEvents := Agenda(today, tomorrow);
      BroadcastCalendar();
    }

    /**
     * The calendar refresh once every feed has answered: each feed's
     * agenda, resolved with the remembered offset at its own answer time by
     * the version of `parseICS` the server runs, concatenated in the order
     * the answers arrived, then finished and broadcast to every display.
     */
    method RefreshCalendars(feeds: seq<Feed>)
      requires Valid()
      modifies this`calendarEvents, this`streams, this`sent
      ensures Valid() && |streams| == |old(streams)|
      ensures var all := Concatenated(feeds, clientTzOffset, serverOffset);
        calendarEvents == Agenda(SortEvents(Deduped(all.today)), SortEvents(Deduped(all.tomorrow)))
      ensures forall c :: 0 <= c < |streams| ==>
        streams[c] == old(streams)[c] + (if c in Conns(clients) then Frame("update", CalendarUpdate(calendarEvents)) else "")
    {
      var allEvents := ResolveFeeds(feeds, clientTzOffset, serverOffset);
      FinishCalendarUpdate(allEvents);
    }

    /**
     * `POST /api/settings`: an invalid body is refused and changes nothing;
     * a valid one replaces the settings and the weather location, starts
     * both fetches and broadcasts the brightness under the new schedule.
     */
    method UpdateSettings(body: SettingsBody, now: int) returns (ok: bool)
      requires Valid()
      modifies this`settings, this`weatherData, this`weatherFetches, this`calendarFetches, this`streams, this`sent
      ensures Valid() && |streams| == |old(streams)|
      ensures ok <==> Validated(body).Some?
      ensures !ok ==> (settings == old(settings) && streams == old(streams) && weatherData == old(weatherData) &&
        calendarFetches == old(calendarFetches) && weatherFetches == old(weatherFetches))
      ensures ok ==> settings == Validated(body).value && weatherData == old(weatherData).(location := settings.weather.location)
      ensures ok ==> calendarFetches == old(calendarFetches) + 1 && weatherFetches == old(weatherFetches) + 1
      ensures ok ==> forall c :: 0 <= c < |streams| ==>
        streams[c] == old(streams)[c] + (if c in Conns(clients) then Frame("display", DisplayJson(Brightness(now))) else "")
    {
      var valid := Validated(body);
      if valid.None? {
        return false;
      }
      settings := valid.value;
      weatherData := weatherData.(location := settings.weather.location);
      weatherFetches := weatherFetches + 1;
      calendarFetches := calendarFetches + 1;
      BroadcastBrightness(now);
      ok := true;
    }
  }
}
