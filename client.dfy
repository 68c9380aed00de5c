/**
 * The display page: the connection to the event stream with its
 * reconnect backoff, the map of widgets that `config` rebuilds and
 * `update` patches, and the brightness level shown (the server's level,
 * or full brightness for a minute after a touch).
 *
 * The page handles parsed JSON values; the clock's offset and the firing
 * of timers are parameters and calls. Each widget is the text of the
 * elements `updateWidget` can find in it, keyed by class name, and its
 * event lists.
 */
module App {
  import opened Wrappers
  import opened Text
  import opened Calendar
  import opened Json
  import Server

  // ---------------------------------------------------------------------
  // JavaScript conversions on parsed values

  /** `obj[key]` on a parsed value: the last member with that key (as `JSON.parse` keeps it), `None` for `undefined`. */
  function Get(j: Json, key: string): (r: Option<Json>)
    ensures r.Some? ==> j.JObject? && exists i :: 0 <= i < |j.members| && j.members[i] == Member(key, r.value)
  {
    if j.JObject? then LastMember(j.members, key) else None
  }

  function LastMember(ms: seq<Member>, key: string): (r: Option<Json>)
    ensures r.Some? <==> exists i :: 0 <= i < |ms| && ms[i].key == key
    ensures r.Some? ==> exists i :: 0 <= i < |ms| && ms[i] == Member(key, r.value)
  {
    if |ms| == 0 then None
    else if ms[|ms| - 1].key == key then Some(ms[|ms| - 1].value)
    else
      var r := LastMember(ms[..|ms| - 1], key);
      assert forall i :: 0 <= i < |ms| - 1 ==> ms[..|ms| - 1][i] == ms[i];
      r
  }

  /** JavaScript truthiness. */
  predicate Truthy(j: Json) {
    match j
    case JNull => false
    case JBool(b) => b
    case JNumber(n) => n != 0
    case JString(s) => s != ""
    case JArray(_) => true
    case JObject(_) => true
  }

  /** `String(value)`: how a value reads when concatenated into a string. */
  function JsString(j: Json): string
    decreases j
  {
    match j
    case JNull => "null"
    case JBool(b) => if b then "true" else "false"
    case JNumber(n) => IntToString(n)
    case JString(s) => s
    case JArray(items) =>
      Join(seq(|items|, i requires 0 <= i < |items| => if items[i].JNull? then "" else JsString(items[i])))
    case JObject(_) => "[object Object]"
  }

  /** `el.textContent = value`: `null` clears the element. */
  function TextContent(j: Json): string {
    if j.JNull? then "" else JsString(j)
  }

  /** `value || fallback` written into an element. */
  function OrText(v: Option<Json>, fallback: string): (r: string)
    ensures v.None? ==> r == fallback
  {
    if v.Some? && Truthy(v.value) then JsString(v.value) else fallback
  }

  /** The property name a value stands for in `widgets[id]`. */
  function PropertyKey(v: Option<Json>): string {
    if v.None? then "undefined" else JsString(v.value)
  }

  lemma OrTextOfString(s: string, fallback: string)
    ensures OrText(Some(JString(s)), fallback) == if s == "" then fallback else s
  {
  }

  /** `value.length` and `value[i]` as the loops of the page read them; `None` where reading the length throws. */
  function Elements(j: Json): Option<seq<Json>> {
    match j
    case JNull => None
    case JArray(items) => Some(items)
    case JString(s) => Some(seq(|s|, i requires 0 <= i < |s| => JString([s[i]])))
    case _ => Some([])
  }

  // ---------------------------------------------------------------------
  // Event lists

  /** One `li.calendar-event`: its time cell, its summary and its badge, when shown. */
  datatype Row = Row(time: string, summary: string, badge: Option<string>)

  /** A `ul.calendar-events`: the "No events today" placeholder, or its rows. */
  datatype ListView = NoEvents | Entries(rows: seq<Row>)

  /** The row of one event object: `終日` for an all-day event, else its time. */
  function RowOf(evt: Json): Row {
    var allDay := Get(evt, "allDay");
    var badge := Get(evt, "badge");
    Row(if allDay.Some? && Truthy(allDay.value) then "終日" else OrText(Get(evt, "time"), ""),
        OrText(Get(evt, "summary"), ""),
        if badge.Some? && Truthy(badge.value) then Some(JsString(badge.value)) else None)
  }

  /** The position of the first `null` event, or the length when there is none. */
  function FirstNull(items: seq<Json>): (n: nat)
    ensures n <= |items|
    ensures forall i :: 0 <= i < n ==> !items[i].JNull?
    ensures n < |items| ==> items[n].JNull?
  {
    if |items| == 0 then 0
    else if items[0].JNull? then 0
    else
      var n := 1 + FirstNull(items[1..]);
      assert forall i :: 1 <= i < n ==> items[i] == items[1..][i - 1];
      n
  }

  /** The rows of the events before the first `null` one, whose `evt.allDay` throws; `complete` when there is none. */
  function RowsOf(items: seq<Json>): (r: (seq<Row>, bool))
    ensures r.1 <==> forall i :: 0 <= i < |items| ==> !items[i].JNull?
    ensures r.1 ==> |r.0| == |items|
    ensures forall i :: 0 <= i < |r.0| ==> i < |items| && r.0[i] == RowOf(items[i])
  {
    var n := FirstNull(items);
    (seq(n, i requires 0 <= i < n => RowOf(items[i])), n == |items|)
  }

  /**
   * `renderCalendarEvents(container, events)`: the container is cleared,
   * then shows the placeholder for an empty list or one row per event;
   * the flag is false when the rendering throws part way.
   */
  function RenderList(events: Json): (r: (ListView, bool))
    ensures events.JArray? && |events.items| == 0 ==> r == (NoEvents, true)
    ensures events.JArray? ==> (r.1 <==> forall i :: 0 <= i < |events.items| ==> !events.items[i].JNull?)
    ensures events.JArray? && r.1 && |events.items| > 0 ==>
      r.0 == Entries(seq(|events.items|, i requires 0 <= i < |events.items| => RowOf(events.items[i])))
    ensures events.JNull? ==> !r.1
  {
    match events
    case JNull => (Entries([]), false)
    case JArray(items) =>
      if |items| == 0 then (NoEvents, true)
      else
        var rows := RowsOf(items);
        assert rows.1 ==> rows.0 == seq(|items|, i requires 0 <= i < |items| => RowOf(items[i]));
        (Entries(rows.0), rows.1)
    case JString(s) =>
      if |s| == 0 then (NoEvents, true)
      else (Entries(seq(|s|, i requires 0 <= i < |s| => RowOf(JString([s[i]])))), true)
    case _ => (Entries([]), true)
  }

  /** How the page shows one agenda entry the server produced. */
  function ShownItem(it: Item): Row {
    Row(if it.allDay then "終日" else if it.time.Some? then it.time.value else "",
        it.summary,
        if it.badge.Some? && it.badge.value != "" then it.badge else None)
  }

  /** A key held by exactly one member is found with that member's value. */
  lemma {:induction false} LastMemberUnique(ms: seq<Member>, i: nat, key: string)
    requires i < |ms| && ms[i].key == key
    requires forall j :: 0 <= j < |ms| && j != i ==> ms[j].key != key
    ensures LastMember(ms, key) == Some(ms[i].value)
  {
    if i < |ms| - 1 {
      var p := ms[..|ms| - 1];
      assert forall j :: 0 <= j < |p| ==> p[j] == ms[j];
      LastMemberUnique(p, i, key);
    }
  }

  /**
   * The server's entry objects read back on the page: the time cell
   * shows `終日` or the time, the summary is the summary, and the badge
   * shows when it is not empty.
   */
  lemma ItemShown(it: Item)
    ensures RowOf(Server.ItemJson(it)) == ShownItem(it)
  {
    ItemLookups(it);
  }

  /** The members of an entry object, looked up by key. */
  lemma ItemLookups(it: Item)
    ensures Get(Server.ItemJson(it), "summary") == Some(JString(it.summary))
    ensures Get(Server.ItemJson(it), "allDay") == Some(JBool(it.allDay))
    ensures Get(Server.ItemJson(it), "badge") == if it.badge.Some? then Some(JString(it.badge.value)) else None
    ensures Get(Server.ItemJson(it), "time") == if it.time.Some? then Some(JString(it.time.value)) else None
  {
    var ms := Server.ItemJson(it).members;
    var n := |ms|;
    assert ms[0] == Member("summary", JString(it.summary)) && ms[1] == Member("allDay", JBool(it.allDay));
    assert n == 2 + (if it.badge.Some? then 1 else 0) + (if it.time.Some? then 1 else 0);
    assert it.badge.Some? ==> ms[2] == Member("badge", JString(it.badge.value));
    assert it.time.Some? ==> ms[n - 1] == Member("time", JString(it.time.value));
    LastMemberUnique(ms, 0, "summary");
    LastMemberUnique(ms, 1, "allDay");
    if it.badge.Some? {
      LastMemberUnique(ms, 2, "badge");
    } else {
      assert forall j :: 0 <= j < n ==> ms[j].key != "badge";
    }
    if it.time.Some? {
      LastMemberUnique(ms, n - 1, "time");
    } else {
      assert forall j :: 0 <= j < n ==> ms[j].key != "time";
    }
  }

  /** A day of the server's entries is shown as the placeholder or as their rows, in order. */
  lemma AgendaShown(items: seq<Item>)
    ensures RenderList(Server.ItemsJson(items)) ==
      (if |items| == 0 then NoEvents else Entries(seq(|items|, i requires 0 <= i < |items| => ShownItem(items[i]))), true)
  {
    var j := Server.ItemsJson(items);
    forall i | 0 <= i < |items|
      ensures RowOf(j.items[i]) == ShownItem(items[i]) && !j.items[i].JNull?
    {
      ItemShown(items[i]);
    }
    if |items| > 0 {
      assert seq(|j.items|, i requires 0 <= i < |j.items| => RowOf(j.items[i])) ==
        seq(|items|, i requires 0 <= i < |items| => ShownItem(items[i]));
    }
  }

  // ---------------------------------------------------------------------
  // Widgets

  datatype Kind = WeatherWidget | MessageWidget | CalendarWidget | DateWidget | ValueWidget

  /** A widget: its kind, the text of its elements by class name, and its event lists by class name. */
  datatype Widget = Widget(kind: Kind, texts: map<string, string>, lists: map<string, ListView>)

  /** The inner markup of the tomorrow high/low pair. */
  function HighLow(high: string, low: string): string {
    "<span class=\"weather-high\">↑" + high + "°</span> <span class=\"weather-low\">↓" + low + "°</span>"
  }

  /** `createWeatherWidget`: every missing or empty field shows `--`. */
  function WeatherOf(config: Json): Widget {
    Widget(WeatherWidget, map[
      "weather-location" := OrText(Get(config, "location"), "--"),
      "weather-temp" := OrText(Get(config, "temp"), "--"),
      "weather-condition" := OrText(Get(config, "condition"), "--"),
      "weather-high" := "↑ " + OrText(Get(config, "high"), "--") + "°",
      "weather-low" := "↓ " + OrText(Get(config, "low"), "--") + "°",
      "weather-tomorrow-condition" := OrText(Get(config, "tomorrowCondition"), "--") + " ",
      "weather-tomorrow-highlow" := HighLow(OrText(Get(config, "tomorrowHigh"), "--"), OrText(Get(config, "tomorrowLow"), "--"))],
      map[])
  }

  /** `config.today || []` */
  function OrEmpty(v: Option<Json>): Json {
    if v.Some? && Truthy(v.value) then v.value else JArray([])
  }

  /** `createCalendarWidget`: the two lists; `None` when rendering one of them throws. */
  function CalendarOf(config: Json): Option<Widget> {
    var today := RenderList(OrEmpty(Get(config, "today")));
    var tomorrow := RenderList(OrEmpty(Get(config, "tomorrow")));
    if !today.1 || !tomorrow.1 then None
    else Some(Widget(CalendarWidget, map[],
      map["calendar-today-events" := today.0, "calendar-tomorrow-events" := tomorrow.0]))
  }

  /**
   * `createWidget(config)` by `config.type`; `None` when it throws (a
   * `null` config, or an event list that cannot be rendered).
   */
  function CreateWidget(config: Json): (r: Option<Widget>)
    ensures config.JNull? ==> r.None?
    ensures r.Some? && Get(config, "type") == Some(JString("weather")) ==> r.value.kind == WeatherWidget
    ensures r.Some? && Get(config, "type") == Some(JString("calendar")) ==> r.value.kind == CalendarWidget
  {
    if config.JNull? then None
    else
      var t := Get(config, "type");
      if t == Some(JString("weather")) then Some(WeatherOf(config))
      else if t == Some(JString("message")) then
        Some(Widget(MessageWidget, map["message-text" := OrText(Get(config, "text"), "")], map[]))
      else if t == Some(JString("calendar")) then CalendarOf(config)
      else if t == Some(JString("date")) then
        Some(Widget(DateWidget, map["widget-value" := OrText(Get(config, "value"), "--"),
                                    "widget-lunar" := OrText(Get(config, "lunar"), "")], map[]))
      else
        var title := Get(config, "title");
        Some(Widget(ValueWidget,
          map["widget-value" := OrText(Get(config, "value"), "--:--:--")] +
          (if title.Some? && Truthy(title.value) then map["widget-title" := JsString(title.value)] else map[]),
          map[]))
  }

  /** `widgets[config.id]` */
  function IdOf(config: Json): string {
    PropertyKey(Get(config, "id"))
  }

  /**
   * The widget map after creating the widgets of the configs in turn, and
   * whether the loop ran to the end (it stops at the first `createWidget`
   * that throws).
   */
  function Built(configs: seq<Json>): (map<string, Widget>, bool) {
    if |configs| == 0 then (map[], true)
    else
      var before := Built(configs[..|configs| - 1]);
      var last := configs[|configs| - 1];
      if !before.1 then before
      else match CreateWidget(last)
        case None => (before.0, false)
        case Some(w) => (before.0[IdOf(last) := w], true)
  }

  /** A complete run is the run before the last config, then that config's widget stored under its id. */
  lemma BuiltStep(configs: seq<Json>)
    requires |configs| > 0 && Built(configs).1
    ensures var p := configs[..|configs| - 1]; var last := configs[|configs| - 1];
      Built(p).1 && CreateWidget(last).Some? &&
      Built(configs).0 == Built(p).0[IdOf(last) := CreateWidget(last).value]
  {
  }

  /** A run completes exactly when the run before the last config did and that config's widget was created. */
  lemma BuiltRuns(configs: seq<Json>)
    requires |configs| > 0
    ensures Built(configs).1 <==> Built(configs[..|configs| - 1]).1 && CreateWidget(configs[|configs| - 1]).Some?
  {
  }

  /** The loop runs to the end exactly when every widget could be created. */
  lemma {:induction false} BuiltComplete(configs: seq<Json>)
    ensures Built(configs).1 <==> forall i :: 0 <= i < |configs| ==> CreateWidget(configs[i]).Some?
  {
    if |configs| > 0 {
      var p := configs[..|configs| - 1];
      BuiltComplete(p);
      BuiltRuns(configs);
      assert forall i :: 0 <= i < |p| ==> p[i] == configs[i];
      assert (forall i :: 0 <= i < |configs| ==> CreateWidget(configs[i]).Some?) <==>
        (forall i :: 0 <= i < |p| ==> CreateWidget(p[i]).Some?) && CreateWidget(configs[|configs| - 1]).Some?;
    }
  }

  /** After a complete run the map holds exactly the configs' ids. */
  lemma {:induction false} BuiltKeys(configs: seq<Json>)
    requires Built(configs).1
    ensures Built(configs).0.Keys == set i | 0 <= i < |configs| :: IdOf(configs[i])
  {
    if |configs| > 0 {
      var p := configs[..|configs| - 1];
      BuiltStep(configs);
      BuiltKeys(p);
      assert forall i :: 0 <= i < |p| ==> p[i] == configs[i];
      var all := set i | 0 <= i < |configs| :: IdOf(configs[i]);
      var before := set i | 0 <= i < |p| :: IdOf(p[i]);
      forall x | x in all
        ensures x in before || x == IdOf(configs[|configs| - 1])
      {
        var i :| 0 <= i < |configs| && x == IdOf(configs[i]);
        if i < |p| {
          assert x == IdOf(p[i]);
        }
      }
      forall x | x in before
        ensures x in all
      {
        var i :| 0 <= i < |p| && x == IdOf(p[i]);
        assert x == IdOf(configs[i]);
      }
      assert all == before + {IdOf(configs[|configs| - 1])};
    }
  }

  /** The widget stored under an id is the one made from the last config with that id. */
  lemma {:induction false} BuiltLastWins(configs: seq<Json>, j: nat)
    requires Built(configs).1 && j < |configs|
    requires forall k :: j < k < |configs| ==> IdOf(configs[k]) != IdOf(configs[j])
    ensures IdOf(configs[j]) in Built(configs).0
    ensures Some(Built(configs).0[IdOf(configs[j])]) == CreateWidget(configs[j])
  {
    var p := configs[..|configs| - 1];
    var last := configs[|configs| - 1];
    BuiltStep(configs);
    if j < |configs| - 1 {
      assert p[j] == configs[j];
      assert forall k :: j < k < |p| ==> p[k] == configs[k];
      BuiltLastWins(p, j);
    }
  }

  /** The keys in the updates' patch order and the fields that drive them. */
  function TextField(element: string): string {
    if element == "weather-temp" then "temp"
    else if element == "weather-condition" then "condition"
    else if element == "weather-high" then "high"
    else if element == "weather-low" then "low"
    else if element == "weather-tomorrow-condition" then "tomorrowCondition"
    else if element == "widget-value" then "value"
    else if element == "widget-lunar" then "lunar"
    else ""
  }

  /** An update sets the elements whose field it carries; the tomorrow pair follows either of its two fields. */
  function Touched(data: Json): set<string> {
    (set e | e in ["weather-temp", "weather-condition", "weather-high", "weather-low",
                   "weather-tomorrow-condition", "widget-value", "widget-lunar"] && Get(data, TextField(e)).Some?) +
    (if Get(data, "tomorrowHigh").Some? || Get(data, "tomorrowLow").Some? then {"weather-tomorrow-highlow"} else {})
  }

  /** `el.textContent = text` when the update carries the field and the widget has the element. */
  function SetText(w: Widget, element: string, text: Option<string>): (r: Widget)
    ensures r.kind == w.kind && r.lists == w.lists && r.texts.Keys == w.texts.Keys
    ensures forall e :: e in w.texts && e != element ==> r.texts[e] == w.texts[e]
    ensures element in w.texts ==> r.texts[element] == if text.Some? then text.value else w.texts[element]
  {
    if text.Some? && element in w.texts then w.(texts := w.texts[element := text.value]) else w
  }

  /** `Some(f(v))` for a present field. */
  function Shown(v: Option<Json>, prefix: string, suffix: string): Option<string> {
    if v.Some? then Some(prefix + JsString(v.value) + suffix) else None
  }

  function Content(v: Option<Json>): Option<string> {
    if v.Some? then Some(TextContent(v.value)) else None
  }

  /** The text an update writes into an element, when it writes one. */
  function NewText(data: Json, element: string): Option<string> {
    if element == "weather-temp" then Content(Get(data, "temp"))
    else if element == "weather-condition" then Content(Get(data, "condition"))
    else if element == "weather-high" then Shown(Get(data, "high"), "↑ ", "°")
    else if element == "weather-low" then Shown(Get(data, "low"), "↓ ", "°")
    else if element == "weather-tomorrow-condition" then Shown(Get(data, "tomorrowCondition"), "", " ")
    else if element == "weather-tomorrow-highlow" then
      if Get(data, "tomorrowHigh").Some? || Get(data, "tomorrowLow").Some? then
        Some(HighLow(OrText(Get(data, "tomorrowHigh"), "--"), OrText(Get(data, "tomorrowLow"), "--")))
      else None
    else if element == "widget-value" then Content(Get(data, "value"))
    else if element == "widget-lunar" then Content(Get(data, "lunar"))
    else None
  }

  /** The elements an update may write, in the order `updateWidget` writes them. */
  const TextElements: seq<string> := ["weather-temp", "weather-condition", "weather-high", "weather-low",
    "weather-tomorrow-condition", "weather-tomorrow-highlow", "widget-value", "widget-lunar"]

  /** Writing the elements in turn. */
  function SetAll(w: Widget, data: Json, elements: seq<string>): Widget
    decreases |elements|
  {
    if |elements| == 0 then w
    else SetAll(SetText(w, elements[0], NewText(data, elements[0])), data, elements[1..])
  }

  /** The text half of `updateWidget`. */
  function PatchTexts(w: Widget, data: Json): Widget {
    SetAll(w, data, TextElements)
  }

  /** Writing distinct elements in turn: each listed element gets its update's text, the rest stay. */
  lemma {:induction false} SetAllEffect(w: Widget, data: Json, elements: seq<string>)
    requires forall i, j :: 0 <= i < j < |elements| ==> elements[i] != elements[j]
    ensures SetAll(w, data, elements).kind == w.kind && SetAll(w, data, elements).lists == w.lists
    ensures SetAll(w, data, elements).texts.Keys == w.texts.Keys
    ensures forall e :: e in w.texts ==> (SetAll(w, data, elements).texts[e] ==
      if e in elements && NewText(data, e).Some? then NewText(data, e).value else w.texts[e])
    decreases |elements|
  {
    if |elements| > 0 {
      var w1 := SetText(w, elements[0], NewText(data, elements[0]));
      var rest := elements[1..];
      assert forall i, j :: 0 <= i < j < |rest| ==> rest[i] == elements[i + 1] && rest[j] == elements[j + 1];
      SetAllEffect(w1, data, rest);
      assert elements[0] !in rest;
      assert forall e :: e in elements <==> e == elements[0] || e in rest;
    }
  }

  /** Rendering one list of an update; false when it throws. */
  function PatchList(w: Widget, data: Json, field: string, element: string): (r: (Widget, bool))
    ensures r.0.kind == w.kind && r.0.texts == w.texts && r.0.lists.Keys == w.lists.Keys
    ensures forall e :: e in w.lists && e != element ==> r.0.lists[e] == w.lists[e]
    ensures Get(data, field).None? ==> r == (w, true)
  {
    var v := Get(data, field);
    if v.None? || element !in w.lists then (w, true)
    else
      var shown := RenderList(v.value);
      (w.(lists := w.lists[element := shown.0]), shown.1)
  }

  /**
   * `updateWidget(id, data)` on an existing widget: the two lists, then
   * the texts; a list that throws ends the handler with what was already
   * changed.
   */
  function Patch(w: Widget, data: Json): Widget {
    var today := PatchList(w, data, "today", "calendar-today-events");
    if !today.1 then today.0
    else
      var tomorrow := PatchList(today.0, data, "tomorrow", "calendar-tomorrow-events");
      if !tomorrow.1 then tomorrow.0
      else PatchTexts(tomorrow.0, data)
  }

  /**
   * Each element's text after the text half of a patch: the update's
   * text where it carries the field, the old text elsewhere; no element
   * is added or removed.
   */
  lemma PatchTextsEffect(w: Widget, data: Json)
    ensures PatchTexts(w, data).kind == w.kind && PatchTexts(w, data).lists == w.lists
    ensures PatchTexts(w, data).texts.Keys == w.texts.Keys
    ensures forall e :: e in w.texts ==>
      PatchTexts(w, data).texts[e] == if NewText(data, e).Some? then NewText(data, e).value else w.texts[e]
  {
    assert forall i, j :: 0 <= i < j < |TextElements| ==> TextElements[i] != TextElements[j] by {
      DistinctTextElements();
    }
    SetAllEffect(w, data, TextElements);
    forall e | NewText(data, e).Some?
      ensures e in TextElements
    {
      NewTextListed(data, e);
    }
  }

  /** Only the listed elements are ever written. */
  lemma NewTextListed(data: Json, e: string)
    requires NewText(data, e).Some?
    ensures e in TextElements
  {
  }

  lemma DistinctTextElements()
    ensures forall i, j :: 0 <= i < j < |TextElements| ==> TextElements[i] != TextElements[j]
  {
  }

  /** An update changes only the elements whose field it carries. */
  lemma PatchOnlyTouched(w: Widget, data: Json)
    ensures Patch(w, data).kind == w.kind
    ensures Patch(w, data).texts.Keys == w.texts.Keys && Patch(w, data).lists.Keys == w.lists.Keys
    ensures forall e :: e in w.texts && e !in Touched(data) ==> Patch(w, data).texts[e] == w.texts[e]
    ensures Get(data, "today").None? && Get(data, "tomorrow").None? ==> Patch(w, data).lists == w.lists
  {
    var today := PatchList(w, data, "today", "calendar-today-events");
    if today.1 {
      var tomorrow := PatchList(today.0, data, "tomorrow", "calendar-tomorrow-events");
      if tomorrow.1 {
        PatchTextsEffect(tomorrow.0, data);
        forall e | e in w.texts && e !in Touched(data)
          ensures NewText(data, e).None?
        {
          NotTouched(data, e);
        }
      }
    }
  }

  lemma NotTouched(data: Json, e: string)
    requires e !in Touched(data)
    ensures NewText(data, e).None?
  {
    var fields := ["weather-temp", "weather-condition", "weather-high", "weather-low",
                   "weather-tomorrow-condition", "widget-value", "widget-lunar"];
    if e in fields {
      assert Get(data, TextField(e)).None?;
    }
  }

  /**
   * An update with only one of the tomorrow pair redraws both: the missing
   * one shows `--` again.
   */
  lemma TomorrowPairRedrawn(w: Widget, data: Json, high: Json)
    requires Get(data, "today").None? && Get(data, "tomorrow").None?
    requires Get(data, "tomorrowHigh") == Some(high) && Get(data, "tomorrowLow").None?
    requires "weather-tomorrow-highlow" in w.texts
    ensures "weather-tomorrow-highlow" in Patch(w, data).texts
    ensures Patch(w, data).texts["weather-tomorrow-highlow"] ==
      HighLow(if Truthy(high) then JsString(high) else "--", "--")
  {
    PatchTextsEffect(w, data);
  }

  // ---------------------------------------------------------------------
  // The page

  /** Reconnect delays grow from one second and are capped at thirty. */
  const MaxReconnectDelay := 30000

  function Pow2(n: nat): (r: nat)
    ensures r >= 1
  {
    if n == 0 then 1 else 2 * Pow2(n - 1)
  }

  /** `Math.min(1000 * Math.pow(2, attempts), maxReconnectDelay)` */
  function Delay(attempts: nat): (d: int)
    ensures 1000 <= d <= MaxReconnectDelay
    ensures d == MaxReconnectDelay || d == 1000 * Pow2(attempts)
  {
    if 1000 * Pow2(attempts) < MaxReconnectDelay then 1000 * Pow2(attempts) else MaxReconnectDelay
  }

  lemma {:induction false} Pow2AtLeast(n: nat)
    requires n >= 5
    ensures Pow2(n) >= 32
  {
    if n > 5 {
      Pow2AtLeast(n - 1);
    }
  }

  /** The delays run 1000, 2000, 4000, 8000, 16000 and then stay at 30000. */
  lemma DelaySchedule(attempts: nat)
    ensures attempts < 5 ==> Delay(attempts) == 1000 * Pow2(attempts)
    ensures attempts >= 5 ==> Delay(attempts) == 30000
    ensures seq(7, i requires 0 <= i < 7 => Delay(i)) == [1000, 2000, 4000, 8000, 16000, 30000, 30000]
  {
    if attempts >= 5 {
      Pow2AtLeast(attempts);
    }
    assert Pow2(5) == 32 && Pow2(6) == 64;
  }

  /** The delays never shrink as the attempts grow. */
  lemma {:induction false} DelayMonotone(a: nat, b: nat)
    requires a <= b
    ensures Delay(a) <= Delay(b)
  {
    if a < b {
      DelayMonotone(a, b - 1);
      assert Pow2(b) == 2 * Pow2(b - 1);
    }
  }

  /** One `EventSource`: the offset it announced and whether it is still open. */
  datatype Source = Source(tz: int, open: bool)

  /** `isBoosted ? 100 : serverBrightness` */
  function EffectiveLevel(isBoosted: bool, serverBrightness: Json): Json {
    if isBoosted then JNumber(100) else serverBrightness
  }

  /**
   * The widgets after the `config` listener: reading `config.widgets` throws
   * on a `null` message, a missing or `null` list empties the map, and
   * otherwise the map is built from the list until the first throw.
   */
  function Configured(widgets: map<string, Widget>, data: Json): map<string, Widget> {
    if data.JNull? then widgets
    else
      var list := Get(data, "widgets");
      if list.None? || list.value.JNull? then map[] else Built(Elements(list.value).value).0
  }

  /** The widgets after the `update` listener: only the widget with the message's id is patched. */
  function Updated(widgets: map<string, Widget>, data: Json): map<string, Widget> {
    if data.JNull? || IdOf(data) !in widgets then widgets
    else widgets[IdOf(data) := Patch(widgets[IdOf(data)], data)]
  }

  /** The server's level after the `display` listener: set only when the message has a `brightness`. */
  function Displayed(serverBrightness: Json, data: Json): Json {
    if !data.JNull? && Get(data, "brightness").Some? then Get(data, "brightness").value else serverBrightness
  }

  class Board {
    /** Every source the page opened, in order. */
    var sources: seq<Source>
    /** `eventSource`: the index of the latest source. */
    var eventSource: Option<nat>
    var reconnectAttempts: nat
    /** The delays of the reconnect timers that have not fired yet. */
    var pending: seq<int>
    var widgets: map<string, Widget>
    var serverBrightness: Json
    var isBoosted: bool
    /** Whether the dim timer is running. */
    var dimPending: bool
    /** The level the overlay is set to show. */
    var shownLevel: Json
    /** How many `reload` events asked the page to reload. */
    var reloads: nat

    /** Only the latest source may be open. */
    ghost predicate OneSource()
      reads this
    {
      (eventSource.Some? ==> eventSource.value < |sources|) &&
      (forall i :: 0 <= i < |sources| && sources[i].open ==> eventSource == Some(i))
    }

    /**
     * The page is either connected through its latest source or waiting
     * for exactly one reconnect timer, never both; the overlay shows the
     * effective level.
     */
    ghost predicate Valid()
      reads this
    {
      OneSource() && eventSource.Some? && |pending| <= 1 &&
      (|pending| == 0 <==> sources[eventSource.value].open) &&
      shownLevel == EffectiveLevel(isBoosted, serverBrightness)
    }

    /** `applyBrightness()` */
    method ApplyBrightness()
      modifies this`shownLevel
      ensures shownLevel == EffectiveLevel(isBoosted, serverBrightness)
    {
      shownLevel := if isBoosted then JNumber(100) else serverBrightness;
    }

    /** `connect()`: close the latest source, if any, then open a new one announcing the offset `tz`. */
    method Connect(tz: int)
      requires OneSource()
      modifies this`sources, this`eventSource
      ensures OneSource() && eventSource == Some(|old(sources)|)
      ensures sources == (if old(eventSource).Some?
        then old(sources)[old(eventSource).value := old(sources)[old(eventSource).value].(open := false)]
        else old(sources)) + [Source(tz, true)]
    {
      if eventSource.Some? {
        sources := sources[eventSource.value := sources[eventSource.value].(open := false)];
      }
      sources := sources + [Source(tz, true)];
      eventSource := Some(|sources| - 1);
    }

    /** The page's start: the dim timer, then the first connection. */
    constructor (tz: int)
      ensures Valid()
      ensures sources == [Source(tz, true)] && eventSource == Some(0) && pending == [] && reconnectAttempts == 0
      ensures widgets == map[] && serverBrightness == JNumber(100) && isBoosted && dimPending
    {
      sources := [];
      eventSource := None;
      reconnectAttempts := 0;
      pending := [];
      widgets := map[];
      serverBrightness := JNumber(100);
      isBoosted := false;
      dimPending := false;
      shownLevel := JNumber(100);
      reloads := 0;
      new;
      ResetDimTimer();
      Connect(tz);
    }

    /** `onopen` of the open source: the backoff starts again from one second. */
    method OnOpen()
      requires Valid() && sources[eventSource.value].open
      modifies this`reconnectAttempts
      ensures Valid() && reconnectAttempts == 0
    {
      reconnectAttempts := 0;
    }

    /** `scheduleReconnect()` */
    method ScheduleReconnect()
      modifies this`pending, this`reconnectAttempts
      ensures pending == old(pending) + [Delay(old(reconnectAttempts))]
      ensures reconnectAttempts == old(reconnectAttempts) + 1
    {
      var delay := Delay(reconnectAttempts);
      reconnectAttempts := reconnectAttempts + 1;
      pending := pending + [delay];
    }

    /** `onerror` of the open source: close it and schedule exactly one reconnect. */
    method OnError()
      requires Valid() && sources[eventSource.value].open
      modifies this`sources, this`pending, this`reconnectAttempts
      ensures Valid()
      ensures sources == old(sources)[eventSource.value := old(sources)[eventSource.value].(open := false)]
      ensures pending == [Delay(old(reconnectAttempts))]
      ensures reconnectAttempts == old(reconnectAttempts) + 1
    {
      sources := sources[eventSource.value := sources[eventSource.value].(open := false)];
      ScheduleReconnect();
    }

    /** The reconnect timer fires: `connect()` with the offset read then. */
    method FireReconnect(tz: int)
      requires Valid() && |pending| == 1
      modifies this`pending, this`sources, this`eventSource
      ensures Valid() && pending == []
      ensures eventSource == Some(|old(sources)|) && sources == old(sources) + [Source(tz, true)]
    {
      pending := [];
      Connect(tz);
      assert sources == old(sources)[old(eventSource).value := old(sources)[old(eventSource).value]] + [Source(tz, true)];
    }

    /** `renderWidgets(widgetConfigs)`: a fresh map filled by the configs in turn. */
    method RenderWidgets(configs: seq<Json>)
      modifies this`widgets
      ensures (widgets, true) == Built(configs) || (widgets, false) == Built(configs)
    {
      widgets := map[];
      var i := 0;
      while i < |configs|
        invariant i <= |configs| && Built(configs[..i]) == (widgets, true)
      {
        var w := CreateWidget(configs[i]);
        assert configs[..i + 1][..i] == configs[..i];
        if w.None? {
          StoppedStays(configs, i + 1);
          return;
        }
        widgets := widgets[IdOf(configs[i]) := w.value];
        i := i + 1;
      }
      assert configs[..i] == configs;
    }

    /** The `config` listener: `renderWidgets(config.widgets)`. */
    method OnConfig(data: Json)
      modifies this`widgets
      ensures widgets == Configured(old(widgets), data)
    {
      if data.JNull? {
        return;
      }
      var list := Get(data, "widgets");
      if list.None? || list.value.JNull? {
        widgets := map[];
        return;
      }
      RenderWidgets(Elements(list.value).value);
    }

    /** The `update` listener: `updateWidget(update.id, update)`; an unknown id changes nothing. */
    method OnUpdate(data: Json)
      modifies this`widgets
      ensures widgets == Updated(old(widgets), data)
    {
      if data.JNull? {
        return;
      }
      var id := IdOf(data);
      if id !in widgets {
        return;
      }
      widgets := widgets[id := Patch(widgets[id], data)];
    }

    /** `setBrightness(level)` */
    method SetBrightness(level: Json)
      requires Valid()
      modifies this`serverBrightness, this`shownLevel
      ensures Valid() && serverBrightness == level
      ensures shownLevel == if isBoosted then JNumber(100) else level
    {
      serverBrightness := level;
      ApplyBrightness();
    }

    /** The `display` listener: a message with a `brightness` sets the server's level. */
    method OnDisplay(data: Json)
      requires Valid()
      modifies this`serverBrightness, this`shownLevel
      ensures Valid() && serverBrightness == Displayed(old(serverBrightness), data)
    {
      if data.JNull? {
        return;
      }
      var level := Get(data, "brightness");
      if level.Some? {
        SetBrightness(level.value);
      }
    }

    /** `resetDimTimer()` on a touch or a click: full brightness, and the dim timer starts again. */
    method ResetDimTimer()
      modifies this`isBoosted, this`shownLevel, this`dimPending
      ensures isBoosted && dimPending && shownLevel == JNumber(100)
    {
      isBoosted := true;
      ApplyBrightness();
      dimPending := true;
    }

    /** The dim timer fires a minute after the last touch: back to the server's level. */
    method DimTimeout()
      requires Valid() && dimPending
      modifies this`isBoosted, this`shownLevel, this`dimPending
      ensures Valid() && !isBoosted && !dimPending && shownLevel == serverBrightness
    {
      isBoosted := false;
      ApplyBrightness();
      dimPending := false;
    }

    /**
     * The listeners by event name: `config`, `update` and `display` run
     * their handlers, `reload` asks for one reload, and any other name has
     * no listener and changes nothing.
     */
    method Dispatch(name: string, data: Json)
      requires Valid()
      modifies this`widgets, this`serverBrightness, this`shownLevel, this`reloads
      ensures Valid()
      ensures widgets == match name
        case "config" => Configured(old(widgets), data)
        case "update" => Updated(old(widgets), data)
        case _ => old(widgets)
      ensures serverBrightness == if name == "display" then Displayed(old(serverBrightness), data) else old(serverBrightness)
      ensures shownLevel == EffectiveLevel(isBoosted, serverBrightness)
      ensures reloads == old(reloads) + (if name == "reload" then 1 else 0)
    {
      if name == "config" {
        OnConfig(data);
      } else if name == "update" {
        OnUpdate(data);
      } else if name == "display" {
        OnDisplay(data);
      } else if name == "reload" {
        reloads := reloads + 1;
      }
    }
  }

  /** A run that stopped stays stopped whatever configs follow. */
  lemma {:induction false} StoppedStays(configs: seq<Json>, n: nat)
    requires n <= |configs| && !Built(configs[..n]).1
    ensures !Built(configs).1 && Built(configs).0 == Built(configs[..n]).0
    decreases |configs| - n
  {
    if n < |configs| {
      assert configs[..n + 1][..n] == configs[..n];
      StoppedStays(configs, n + 1);
    } else {
      assert configs[..n] == configs;
    }
  }
}
