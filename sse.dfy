/**
 * The server-sent-event framing of `sendEvent`, and the reading of it by
 * the display's `EventSource` as section 9.2.6 "Interpreting an event
 * stream" of the WHATWG HTML Living Standard describes it: lines ended by
 * LF, comment lines beginning with `:`, the `event` and `data` fields, and
 * dispatch on a blank line.
 */
module EventStream {
  import opened Json

  /** The first write of `sendEvent(res, event, data)`. */
  function EventLine(event: string): string {
    "event: " + event + "\n"
  }

  /** The second write of `sendEvent(res, event, data)`. */
  function DataBlock(data: Json): string {
    DataText(Stringify(data))
  }

  /** The data line and the blank line ending the event. */
  function DataText(json: string): string {
    "data: " + json + "\n\n"
  }

  /** Both writes of `sendEvent` as they arrive on the stream. */
  function Frame(event: string, data: Json): string {
    EventLine(event) + DataBlock(data)
  }

  /** What the keepalive timer writes every 15 seconds. */
  const KeepaliveText: string := ":keepalive\n\n"

  /** An event as the display receives it: its type and its data text. */
  datatype Message = Message(eventType: string, data: string)

  /** The reader's buffers and the events it has dispatched so far. */
  datatype Reader = Reader(eventType: string, data: string, dispatched: seq<Message>)

  /** A reader between events: both buffers empty. */
  predicate Idle(r: Reader) {
    r.eventType == "" && r.data == ""
  }

  /** The position of the first `c` in `s`. */
  function FirstIndex(s: string, c: char): (i: nat)
    requires c in s
    ensures i < |s| && s[i] == c && c !in s[..i]
  {
    if s[0] == c then 0
    else
      assert c in s[1..] by {
        var k :| 0 <= k < |s| && s[k] == c;
        assert s[1..][k - 1] == c;
      }
      var i := 1 + FirstIndex(s[1..], c);
      assert s[..i] == [s[0]] + s[1..][..i - 1];
      i
  }

  /** A blank line: dispatch the buffered event, if it has data, and clear the buffers. */
  function Dispatch(r: Reader): Reader {
    if r.data == "" then Reader("", "", r.dispatched)
    else
      var data := if r.data[|r.data| - 1] == '\n' then r.data[..|r.data| - 1] else r.data;
      var eventType := if r.eventType == "" then "message" else r.eventType;
      Reader("", "", r.dispatched + [Message(eventType, data)])
  }

  /** A field with its value; `id`, `retry` and unknown fields change nothing this model keeps. */
  function ProcessField(r: Reader, field: string, value: string): Reader {
    if field == "event" then r.(eventType := value)
    else if field == "data" then r.(data := r.data + value + "\n")
    else r
  }

  /** One line: blank, comment, `field: value` (one leading space dropped from the value) or a bare field name. */
  function ProcessLine(r: Reader, line: string): Reader {
    if line == "" then Dispatch(r)
    else if line[0] == ':' then r
    else if ':' in line then
      var i := FirstIndex(line, ':');
      var value := line[i + 1..];
      ProcessField(r, line[..i], if |value| > 0 && value[0] == ' ' then value[1..] else value)
    else ProcessField(r, line, "")
  }

  /** The reader after every complete line of `s`; an unterminated last line waits for more input. */
  function Feed(r: Reader, s: string): Reader
    decreases |s|
  {
    if '\n' !in s then r
    else
      var i := FirstIndex(s, '\n');
      Feed(ProcessLine(r, s[..i]), s[i + 1..])
  }

  /** The events a display reads from a whole stream. */
  function Parse(s: string): seq<Message> {
    Feed(Reader("", "", []), s).dispatched
  }

  /** No line feed anywhere in `s`. */
  predicate NoLF(s: string) {
    forall j :: 0 <= j < |s| ==> s[j] != '\n'
  }

  /** The first `c` is at `k` when `c` is at `k` and nowhere before it. */
  lemma {:induction false} FirstIndexAt(s: string, c: char, k: nat)
    requires k < |s| && s[k] == c
    requires forall j :: 0 <= j < k ==> s[j] != c
    ensures c in s && FirstIndex(s, c) == k
  {
    if k > 0 {
      assert s[1..][k - 1] == c;
      FirstIndexAt(s[1..], c, k - 1);
    }
  }

  /** A line without LF is consumed whole, and reading continues after its LF. */
  lemma FeedLine(r: Reader, line: string, rest: string)
    requires NoLF(line)
    ensures Feed(r, line + "\n" + rest) == Feed(ProcessLine(r, line), rest)
  {
    var s := line + "\n" + rest;
    FirstIndexAt(s, '\n', |line|);
    assert s[..|line|] == line && s[|line| + 1..] == rest;
  }

  /** The field name is what comes before the first colon. */
  lemma FieldLine(r: Reader, name: string, value: string)
    requires name != "" && forall j :: 0 <= j < |name| ==> name[j] != ':'
    ensures ProcessLine(r, name + ": " + value) == ProcessField(r, name, value)
  {
    var line := name + ": " + value;
    FirstIndexAt(line, ':', |name|);
    assert line[..|name|] == name;
    assert line[|name| + 1..] == " " + value;
    assert line[0] == name[0];
  }

  lemma PrefixedNoLF(prefix: string, s: string)
    requires NoLF(prefix) && NoLF(s)
    ensures NoLF(prefix + s)
  {
    forall j | 0 <= j < |prefix + s|
      ensures (prefix + s)[j] != '\n'
    {
      if j >= |prefix| {
        assert (prefix + s)[j] == s[j - |prefix|];
      }
    }
  }

  /** The first line of a frame sets the event type. */
  lemma EventLineStep(r: Reader, event: string, rest: string)
    requires NoLF(event)
    ensures Feed(r, EventLine(event) + rest) == Feed(r.(eventType := event), rest)
  {
    PrefixedNoLF("event: ", event);
    assert EventLine(event) + rest == ("event" + ": " + event) + "\n" + rest;
    FeedLine(r, "event" + ": " + event, rest);
    FieldLine(r, "event", event);
  }

  /** The second line of a frame appends the data and a LF to the data buffer. */
  lemma DataLineStep(r: Reader, json: string, rest: string)
    requires NoLF(json)
    ensures Feed(r, "data: " + json + "\n" + rest) == Feed(r.(data := r.data + json + "\n"), rest)
  {
    PrefixedNoLF("data: ", json);
    assert "data: " + json + "\n" + rest == ("data" + ": " + json) + "\n" + rest;
    FeedLine(r, "data" + ": " + json, rest);
    FieldLine(r, "data", json);
  }

  /** A blank line dispatches. */
  lemma BlankLineStep(r: Reader, rest: string)
    ensures Feed(r, "\n" + rest) == Feed(Dispatch(r), rest)
  {
    assert "\n" + rest == "" + "\n" + rest;
    FeedLine(r, "", rest);
  }

  lemma StringifyNoLF(data: Json)
    ensures NoLF(Stringify(data))
  {
    StringifyNoControl(data);
  }

  /**
   * Round trip of `sendEvent`: from between events, one frame makes the
   * reader dispatch exactly one event with that type and the serialised
   * data, and leaves it between events again.
   */
  lemma FrameRoundTrip(r: Reader, event: string, data: Json, rest: string)
    requires Idle(r)
    requires event != "" && NoLF(event)
    ensures Feed(r, Frame(event, data) + rest) ==
      Feed(Reader("", "", r.dispatched + [Message(event, Stringify(data))]), rest)
  {
    var json := Stringify(data);
    StringifyNoLF(data);
    var tail := "\n" + rest;
    var afterEvent := "data: " + json + "\n" + tail;
    var r1 := r.(eventType := event);
    var r2 := r1.(data := r1.data + json + "\n");
    assert r2 == Reader(event, json + "\n", r.dispatched) by {
      assert r1.data + json + "\n" == json + "\n";
    }
    calc {
      Feed(r, Frame(event, data) + rest);
      { FrameText(event, json, rest); }
      Feed(r, EventLine(event) + afterEvent);
      { EventLineStep(r, event, afterEvent); }
      Feed(r1, afterEvent);
      { DataLineStep(r1, json, tail); }
      Feed(r2, tail);
      { BlankLineStep(r2, rest); }
      Feed(Dispatch(r2), rest);
      { DispatchOne(event, json, r.dispatched); }
      Feed(Reader("", "", r.dispatched + [Message(event, json)]), rest);
    }
  }

  lemma FrameText(event: string, json: string, rest: string)
    ensures EventLine(event) + DataText(json) + rest == EventLine(event) + ("data: " + json + "\n" + ("\n" + rest))
  {
  }

  lemma DispatchOne(event: string, json: string, d: seq<Message>)
    requires event != ""
    ensures Dispatch(Reader(event, json + "\n", d)) == Reader("", "", d + [Message(event, json)])
  {
    assert (json + "\n")[..|json|] == json;
  }

  /** A keepalive is a comment and an empty dispatch: the display sees nothing. */
  lemma KeepaliveInvisible(r: Reader, rest: string)
    requires Idle(r)
    ensures Feed(r, KeepaliveText + rest) == Feed(r, rest)
  {
    assert KeepaliveText + rest == ":keepalive" + "\n" + ("\n" + rest);
    FeedLine(r, ":keepalive", "\n" + rest);
    BlankLineStep(r, rest);
  }

  /** What a session's stream carries: events and keepalives. */
  datatype Sent = Event(name: string, payload: Json) | Keepalive

  /** An event name the reader reads back unchanged. */
  predicate GoodName(name: string) {
    name != "" && NoLF(name)
  }

  /** The text of one send. */
  function SentText(s: Sent): string {
    match s
    case Event(n, d) => Frame(n, d)
    case Keepalive => KeepaliveText
  }

  /** What the display dispatches for one send. */
  function SentMessages(s: Sent): seq<Message> {
    match s
    case Event(n, d) => [Message(n, Stringify(d))]
    case Keepalive => []
  }

  /** The text of a sequence of sends. */
  function Render(ss: seq<Sent>): string {
    if |ss| == 0 then "" else Render(ss[..|ss| - 1]) + SentText(ss[|ss| - 1])
  }

  /** The events among the sends, as the display reads them. */
  function Messages(ss: seq<Sent>): seq<Message> {
    if |ss| == 0 then [] else Messages(ss[..|ss| - 1]) + SentMessages(ss[|ss| - 1])
  }

  predicate AllGoodNames(ss: seq<Sent>) {
    forall k :: 0 <= k < |ss| && ss[k].Event? ==> GoodName(ss[k].name)
  }

  /** One whole send, read from between events. */
  lemma SentStep(r: Reader, x: Sent, rest: string)
    requires Idle(r) && (x.Event? ==> GoodName(x.name))
    ensures Feed(r, SentText(x) + rest) == Feed(Reader("", "", r.dispatched + SentMessages(x)), rest)
  {
    if x.Event? {
      FrameRoundTrip(r, x.name, x.payload, rest);
    } else {
      KeepaliveInvisible(r, rest);
      assert r == Reader("", "", r.dispatched + []);
    }
  }

  /**
   * Reading a whole session stream: the display dispatches exactly the
   * events written to it, in order, whatever keepalives fall in between.
   */
  lemma {:induction false} ReadRendered(ss: seq<Sent>, r: Reader, rest: string)
    requires Idle(r) && AllGoodNames(ss)
    ensures Feed(r, Render(ss) + rest) == Feed(Reader("", "", r.dispatched + Messages(ss)), rest)
  {
    if |ss| == 0 {
      assert Render(ss) + rest == rest;
      assert r == Reader("", "", r.dispatched + Messages(ss));
    } else {
      var last := ss[|ss| - 1];
      var before := ss[..|ss| - 1];
      assert AllGoodNames(before) by {
        assert forall k :: 0 <= k < |before| ==> before[k] == ss[k];
      }
      var r1 := Reader("", "", r.dispatched + Messages(before));
      RenderLast(ss, rest);
      ReadRendered(before, r, SentText(last) + rest);
      SentStep(r1, last, rest);
      MessagesLast(ss, r.dispatched);
    }
  }

  /** The text of the sends, split before the last one. */
  lemma RenderLast(ss: seq<Sent>, rest: string)
    requires |ss| > 0
    ensures Render(ss) + rest == Render(ss[..|ss| - 1]) + (SentText(ss[|ss| - 1]) + rest)
  {
    ConcatAssociative(Render(ss[..|ss| - 1]), SentText(ss[|ss| - 1]), rest);
  }

  lemma ConcatAssociative(a: string, b: string, c: string)
    ensures (a + b) + c == a + (b + c)
  {
  }

  /** The events of the sends, split before the last one. */
  lemma MessagesLast(ss: seq<Sent>, d: seq<Message>)
    requires |ss| > 0
    ensures (d + Messages(ss[..|ss| - 1])) + SentMessages(ss[|ss| - 1]) == d + Messages(ss)
  {
  }

  /** The events of a stream made only of whole sends. */
  lemma ParseRendered(ss: seq<Sent>)
    requires AllGoodNames(ss)
    ensures Parse(Render(ss)) == Messages(ss)
  {
    ReadRendered(ss, Reader("", "", []), "");
    assert Render(ss) + "" == Render(ss);
    assert Feed(Reader("", "", Messages(ss)), "") == Reader("", "", Messages(ss));
  }
}
