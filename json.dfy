/**
 * The values the server serialises with `JSON.stringify` (objects, arrays,
 * strings, booleans, `null` and integral numbers) and their serialisation:
 * members in insertion order, no white space, strings quoted with the
 * escapes of the ECMAScript `QuoteJSONString` operation.
 */
module Json {
  import opened Wrappers
  import opened Text

  datatype Json =
    | JNull
    | JBool(b: bool)
    | JNumber(n: int)
    | JString(s: string)
    | JArray(items: seq<Json>)
    | JObject(members: seq<Member>)

  /** One `key: value` member of an object; members whose value is `undefined` are simply absent. */
  datatype Member = Member(key: string, value: Json)

  /** A character `JSON.stringify` writes as itself. */
  predicate Printable(c: char) {
    c >= ' ' && c != '"' && c != '\\'
  }

  /** A lower-case hexadecimal digit. */
  function HexDigit(d: nat): (c: char)
    requires d < 16
    ensures c >= '0'
  {
    if d < 10 then Digit(d) else ('a' as int + d - 10) as char
  }

  /** How one character of a string is written inside the quotes. */
  function EscapeChar(c: char): (r: string)
    ensures |r| >= 1
    ensures forall i :: 0 <= i < |r| ==> r[i] >= ' '
    ensures Printable(c) <==> r == [c]
  {
    if c == '"' then "\\\""
    else if c == '\\' then "\\\\"
    else if c == (8 as char) then "\\b"
    else if c == '\t' then "\\t"
    else if c == '\n' then "\\n"
    else if c == (12 as char) then "\\f"
    else if c == '\r' then "\\r"
    else if c < ' ' then "\\u00" + [HexDigit(c as int / 16), HexDigit(c as int % 16)]
    else [c]
  }

  /** The characters of a string, each escaped. */
  function Escape(s: string): (r: string)
    ensures |r| >= |s|
  {
    if |s| == 0 then "" else EscapeChar(s[0]) + Escape(s[1..])
  }

  /** A string literal. */
  function Quote(s: string): string {
    "\"" + Escape(s) + "\""
  }

  /** Parts separated by commas. */
  function Join(parts: seq<string>): string {
    if |parts| == 0 then ""
    else if |parts| == 1 then parts[0]
    else parts[0] + "," + Join(parts[1..])
  }

  /** `JSON.stringify(value)` */
  function Stringify(j: Json): string
    decreases j
  {
    match j
    case JNull => "null"
    case JBool(b) => if b then "true" else "false"
    case JNumber(n) => IntToString(n)
    case JString(s) => Quote(s)
    case JArray(items) =>
      "[" + Join(seq(|items|, i requires 0 <= i < |items| => Stringify(items[i]))) + "]"
    case JObject(ms) =>
      "{" + Join(seq(|ms|, i requires 0 <= i < |ms| => Quote(ms[i].key) + ":" + Stringify(ms[i].value))) + "}"
  }

  /** No character below U+0020 (in particular no line break). */
  predicate NoControl(s: string) {
    forall i :: 0 <= i < |s| ==> s[i] >= ' '
  }

  lemma NoControlAppend(a: string, b: string)
    requires NoControl(a) && NoControl(b)
    ensures NoControl(a + b)
  {
    forall i | 0 <= i < |a + b|
      ensures (a + b)[i] >= ' '
    {
      if i >= |a| {
        assert (a + b)[i] == b[i - |a|];
      }
    }
  }

  lemma {:induction false} EscapeNoControl(s: string)
    ensures NoControl(Escape(s))
  {
    if |s| > 0 {
      EscapeNoControl(s[1..]);
      NoControlAppend(EscapeChar(s[0]), Escape(s[1..]));
    }
  }

  lemma QuoteNoControl(s: string)
    ensures NoControl(Quote(s))
  {
    EscapeNoControl(s);
    NoControlAppend("\"", Escape(s));
    NoControlAppend("\"" + Escape(s), "\"");
  }

  lemma {:induction false} JoinNoControl(parts: seq<string>)
    requires forall i :: 0 <= i < |parts| ==> NoControl(parts[i])
    ensures NoControl(Join(parts))
  {
    if |parts| > 1 {
      JoinNoControl(parts[1..]);
      NoControlAppend(parts[0], ",");
      NoControlAppend(parts[0] + ",", Join(parts[1..]));
    }
  }

  lemma NatToStringNoControl(n: nat)
    ensures NoControl(NatToString(n))
  {
  }

  /**
   * The serialisation of any value is a single line: `JSON.stringify`
   * escapes every control character, so no line feed or carriage return
   * can appear in it.
   */
  lemma {:induction false} StringifyNoControl(j: Json)
    ensures NoControl(Stringify(j))
    ensures '\n' !in Stringify(j) && '\r' !in Stringify(j)
    decreases j
  {
    match j
    case JNull =>
    case JBool(b) =>
    case JNumber(n) =>
      NatToStringNoControl(if n < 0 then -n else n);
      if n < 0 {
        NoControlAppend("-", NatToString(-n));
      }
    case JString(s) =>
      QuoteNoControl(s);
    case JArray(items) =>
      var parts := seq(|items|, i requires 0 <= i < |items| => Stringify(items[i]));
      forall i | 0 <= i < |items|
        ensures NoControl(parts[i])
      {
        StringifyNoControl(items[i]);
      }
      JoinNoControl(parts);
      NoControlAppend("[", Join(parts));
      NoControlAppend("[" + Join(parts), "]");
    case JObject(ms) =>
      var parts := seq(|ms|, i requires 0 <= i < |ms| => Quote(ms[i].key) + ":" + Stringify(ms[i].value));
      forall i | 0 <= i < |ms|
        ensures NoControl(parts[i])
      {
        QuoteNoControl(ms[i].key);
        StringifyNoControl(ms[i].value);
        NoControlAppend(Quote(ms[i].key), ":");
        NoControlAppend(Quote(ms[i].key) + ":", Stringify(ms[i].value));
      }
      JoinNoControl(parts);
      NoControlAppend("{", Join(parts));
      NoControlAppend("{" + Join(parts), "}");
  }

  /** Reading an escaped string back: the inverse of `Escape`. */
  function Unescape(s: string): Option<string>
    decreases |s|
  {
    if |s| == 0 then Some("")
    else if s[0] != '\\' then
      match Unescape(s[1..]) case Some(r) => Some([s[0]] + r) case None => None
    else if |s| >= 2 && s[1] in EscapeLetters then
      match Unescape(s[2..]) case Some(r) => Some([EscapeLetters[s[1]]] + r) case None => None
    else if |s| >= 6 && s[1] == 'u' && s[2] == '0' && s[3] == '0' && s[4] in {'0', '1'} && IsHex(s[5]) then
      match Unescape(s[6..]) case Some(r) => Some([((if s[4] == '1' then 16 else 0) + HexValue(s[5])) as char] + r) case None => None
    else None
  }

  /** The two-character escapes and the character each stands for. */
  const EscapeLetters: map<char, char> :=
    map['"' := '"', '\\' := '\\', 'b' := (8 as char), 't' := '\t', 'n' := '\n', 'f' := (12 as char), 'r' := '\r']

  predicate IsHex(c: char) {
    '0' <= c <= '9' || 'a' <= c <= 'f'
  }

  function HexValue(c: char): (v: nat)
    requires IsHex(c)
    ensures v < 16
  {
    if c <= '9' then c as int - '0' as int else c as int - 'a' as int + 10
  }

  lemma HexRoundTrip(d: nat)
    requires d < 16
    ensures IsHex(HexDigit(d)) && HexValue(HexDigit(d)) == d
  {
  }

  /** Escaping one character and reading it back gives the character and leaves what follows alone. */
  lemma UnescapeChar(c: char, rest: string)
    ensures Unescape(EscapeChar(c) + rest) ==
      match Unescape(rest) case Some(r) => Some([c] + r) case None => None
  {
    var e := EscapeChar(c) + rest;
    if Printable(c) {
      assert e[0] == c && e[1..] == rest;
    } else if c == '"' || c == '\\' || c == (8 as char) || c == '\t' || c == '\n' || c == (12 as char) || c == '\r' {
      assert e[0] == '\\' && e[2..] == rest;
    } else {
      HexRoundTrip(c as int / 16);
      HexRoundTrip(c as int % 16);
      assert e[0] == '\\' && e[1] == 'u' && e[2] == '0' && e[3] == '0';
      assert e[6..] == rest;
      assert c as int / 16 <= 1;
    }
  }

  /** Round trip: every string is recovered from its escaped form. */
  lemma {:induction false} UnescapeEscape(s: string)
    ensures Unescape(Escape(s)) == Some(s)
  {
    if |s| > 0 {
      UnescapeEscape(s[1..]);
      UnescapeChar(s[0], Escape(s[1..]));
      assert [s[0]] + s[1..] == s;
    }
  }
}
