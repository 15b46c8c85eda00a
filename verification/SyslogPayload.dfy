/** The message the syslog producer publishes: the escaped line between the quotes of a JSON object,
    printed into a buffer of fixed size. */
module SyslogPayload {
  import opened Characters
  import opened Options
  import opened EscapeJson
  import opened JsonReader

  const MAX_MESSAGE_SIZE := 4096
  const MAX_BUFFER := 2048
  const DEVICE_MAX := 63

  function Head(device: string): string {
    "{\"device\":\"" + device + "\",\"message\":\""
  }

  function Payload(device: string, message: string): string {
    Head(device) + message + "\"}"
  }

  /** snprintf into size bytes, the last of them for the terminator. */
  function Printed(s: string, size: nat): string
    requires size >= 1
  {
    if |s| < size then s else s[..size - 1]
  }

  /** What is published for a line received: escaped, then printed. */
  function Published(device: string, line: string): string {
    var text := CText(line);
    Printed(Payload(device, Escape(text[..Taken(text, 2 * MAX_BUFFER)])), MAX_MESSAGE_SIZE)
  }

  /** The text of an address. */
  predicate IsDevice(device: string) {
    |device| <= DEVICE_MAX && forall k | 0 <= k < |device| :: IsDigit(device[k]) || device[k] == '.'
  }

  /** A character that stands for itself in a JSON string. */
  predicate Plain(c: char) {
    c >= ' ' && c != '"' && c != '\\'
  }

  predicate AllPlain(s: string) {
    forall k | 0 <= k < |s| :: Plain(s[k])
  }

  predicate Escapable(s: string) {
    forall k | 0 <= k < |s| :: !Unescapable(s[k])
  }

  const TEXT := At(Str(false), [InObject])

  lemma {:induction false} PlainStays(isKey: bool, nest: seq<Nest>, s: string)
    requires AllPlain(s)
    ensures Read(At(Str(isKey), nest), s) == At(Str(isKey), nest)
    decreases |s|
  {
    if s != [] {
      PlainStays(isKey, nest, s[1..]);
    }
  }

  lemma ReadLast(q: Reader, c: char)
    ensures Read(q, [c]) == Next(q, c)
  {
    hide Next;
    assert [c][1..] == [];
  }

  /** A member of an object, from where its key may stand to where its text starts. */
  lemma MemberReads(q: Reader, key: string)
    requires q == At(KeyOrEnd, [InObject]) || q == At(Key, [InObject])
    requires AllPlain(key)
    ensures Read(q, "\"" + key + "\":\"") == TEXT
  {
    hide Next;
    KeySteps(q);
    assert "\"" + key + "\":\"" == "\"" + key + "\"" + ":" + "\"";
    ReadSplit(q, "\"" + key + "\"" + ":", "\"");
    ReadSplit(q, "\"" + key + "\"", ":");
    ReadSplit(q, "\"" + key, "\"");
    ReadSplit(q, "\"", key);
    ReadLast(q, '"');
    PlainStays(true, [InObject], key);
    ReadLast(At(Str(true), [InObject]), '"');
    ReadLast(At(Colon, [InObject]), ':');
    ReadLast(At(Value, [InObject]), '"');
  }

  lemma KeySteps(q: Reader)
    requires q == At(KeyOrEnd, [InObject]) || q == At(Key, [InObject])
    ensures Next(q, '"') == At(Str(true), [InObject])
    ensures Next(At(Str(true), [InObject]), '"') == At(Colon, [InObject])
    ensures Next(At(Colon, [InObject]), ':') == At(Value, [InObject])
    ensures Next(At(Value, [InObject]), '"') == TEXT
  {
  }

  lemma ObjectSteps()
    ensures Next(START, '{') == At(KeyOrEnd, [InObject])
    ensures Next(TEXT, '"') == At(After, [InObject])
    ensures Next(At(After, [InObject]), ',') == At(Key, [InObject])
    ensures Next(At(After, [InObject]), '}') == At(After, [])
  {
    assert [] + [InObject] == [InObject];
  }

  /** The head leaves the reader at the start of the message. */
  lemma HeadReads(device: string)
    requires IsDevice(device)
    ensures Read(START, Head(device)) == TEXT && |Head(device)| == 24 + |device|
  {
    hide Next;
    ObjectSteps();
    var one, two := "\"" + "device" + "\":\"", "\"" + "message" + "\":\"";
    assert Head(device) == "{" + one + device + "\"" + "," + two;
    ReadSplit(START, "{" + one + device + "\"" + ",", two);
    ReadSplit(START, "{" + one + device + "\"", ",");
    ReadSplit(START, "{" + one + device, "\"");
    ReadSplit(START, "{" + one, device);
    ReadSplit(START, "{", one);
    ReadLast(START, '{');
    MemberReads(At(KeyOrEnd, [InObject]), "device");
    PlainStays(false, [InObject], device);
    ReadLast(TEXT, '"');
    ReadLast(At(After, [InObject]), ',');
    MemberReads(At(Key, [InObject]), "message");
  }

  /** One escape read in a string: it ends in the string, unless the character has no escape. */
  lemma EscapeCharReads(c: char)
    ensures Read(TEXT, EscapeChar(c)) == if Unescapable(c) then Bad else TEXT
    ensures |EscapeChar(c)| == 2 ==> Read(TEXT, EscapeChar(c)[..1]) == At(Esc(false), [InObject])
  {
    var e := EscapeChar(c);
    ReadLast(TEXT, e[0]);
    if |e| == 2 {
      assert e == [e[0]] + [e[1]] && e[..1] == [e[0]];
      ReadSplit(TEXT, [e[0]], [e[1]]);
      ReadLast(At(Esc(false), [InObject]), e[1]);
    } else {
      assert e == [e[0]];
    }
  }

  lemma {:induction false} EscapeReads(s: string)
    ensures Read(TEXT, Escape(s)) == if Escapable(s) then TEXT else Bad
    decreases |s|
  {
    hide Next, EscapeChar, Unescapable;
    if s != [] {
      var front, c := s[..|s| - 1], s[|s| - 1];
      EscapeReads(front);
      ReadSplit(TEXT, Escape(front), EscapeChar(c));
      EscapeCharReads(c);
      BadStays(EscapeChar(c));
      assert s == front + [c];
    }
  }

  predicate InMessage(q: Reader) {
    q == Bad || q == TEXT || q == At(Esc(false), [InObject])
  }

  /** Cut anywhere, an escaped text leaves the reader inside the string, or nowhere. */
  lemma {:induction false} CutReads(s: string, n: nat)
    requires n <= |Escape(s)|
    ensures InMessage(Read(TEXT, Escape(s)[..n]))
    decreases |s|
  {
    hide Next, EscapeChar, Read;
    if s == [] || n == |Escape(s)| {
      assert Escape(s)[..n] == Escape(s);
      EscapeReads(s);
    } else {
      var front, c := s[..|s| - 1], s[|s| - 1];
      var all, e := Escape(front), EscapeChar(c);
      if n <= |all| {
        CutReads(front, n);
        assert (all + e)[..n] == all[..n];
      } else {
        assert |e| == 2 && (all + e)[..n] == all + e[..1];
        EscapeReads(front);
        ReadSplit(TEXT, all, e[..1]);
        EscapeCharReads(c);
        BadStays(e[..1]);
      }
    }
  }

  /** The object that fits is JSON exactly when every control character of the text has an escape. */
  lemma WholeReads(device: string, s: string)
    requires IsDevice(device)
    ensures Json(Payload(device, Escape(s))) <==> Escapable(s)
  {
    hide Next, Read, Escape, Head;
    var full := Payload(device, Escape(s));
    HeadReads(device);
    EscapeReads(s);
    ObjectSteps();
    ReadSplit(START, Head(device) + Escape(s), "\"}");
    ReadSplit(START, Head(device), Escape(s));
    assert "\"}" == ['"'] + ['}'];
    ReadSplit(TEXT, ['"'], ['}']);
    ReadLast(TEXT, '"');
    ReadLast(At(After, [InObject]), '}');
    BadStays("\"}");
  }

  /** Cut short in or behind its message, the object is not JSON. */
  lemma CutIsBroken(device: string, s: string, n: nat)
    requires IsDevice(device) && |Head(device)| <= n < |Payload(device, Escape(s))|
    ensures !Json(Payload(device, Escape(s))[..n])
  {
    hide Next, Read, Escape, Head;
    var head, text := Head(device), Escape(s);
    HeadReads(device);
    ObjectSteps();
    if n <= |head| + |text| {
      assert Payload(device, text)[..n] == head + text[..n - |head|];
      ReadSplit(START, head, text[..n - |head|]);
      CutReads(s, n - |head|);
    } else {
      assert Payload(device, text)[..n] == head + text + ['"'];
      ReadSplit(START, head + text, ['"']);
      ReadSplit(START, head, text);
      EscapeReads(s);
      ReadLast(TEXT, '"');
      BadStays(['"']);
    }
  }

  /** What is published for a line is a JSON object exactly when the whole of it fits, and the line has
      no control character but newline, carriage return and tab. */
  lemma PublishedIsJson(device: string, line: string)
    requires IsDevice(device) && |line| < 2048
    ensures Json(Published(device, line))
            <==> 26 + |device| + |Escape(CText(line))| < 4096 && Escapable(CText(line))
  {
    hide Json, Escape, Head, CText, Escapable, HasRoom;
    var text := CText(line);
    WholeTextIsTaken(text, 2 * MAX_BUFFER);
    assert text[..|text|] == text;
    HeadReads(device);
    var full := Payload(device, Escape(text));
    assert |full| == 26 + |device| + |Escape(text)|;
    if |full| < MAX_MESSAGE_SIZE {
      WholeReads(device, text);
    } else {
      CutIsBroken(device, text, MAX_MESSAGE_SIZE - 1);
    }
  }

  /** When it fits, what is published carries the device and the escape of the whole line, and unescaping
      gives the line back. */
  lemma PublishedReadsBack(device: string, line: string)
    requires IsDevice(device) && |line| < 2048 && 26 + |device| + |Escape(CText(line))| < 4096
    ensures Published(device, line)
            == "{\"device\":\"" + device + "\",\"message\":\"" + Escape(CText(line)) + "\"}"
    ensures Unescape(Escape(CText(line))) == Some(CText(line))
  {
    hide Escape, CText, HasRoom, Unescape;
    var text := CText(line);
    WholeTextIsTaken(text, 2 * MAX_BUFFER);
    assert text[..|text|] == text;
    UnescapeUndoes(text);
  }

  function Quotes(n: nat): (s: string)
    ensures |s| == n && forall k | 0 <= k < n :: s[k] == '"'
  {
    seq(n, _ => '"')
  }

  lemma {:induction false} QuotesDouble(s: string)
    requires forall k | 0 <= k < |s| :: s[k] == '"'
    ensures |Escape(s)| == 2 * |s| && Escapable(s) && '\0' !in s
    decreases |s|
  {
    if s != [] {
      QuotesDouble(s[..|s| - 1]);
    }
  }

  /** The longest line received, all quotes: whatever the device, what is published is no JSON. */
  lemma QuotesBreak(device: string)
    requires IsDevice(device)
    ensures !Json(Published(device, Quotes(MAX_BUFFER - 1)))
  {
    hide Json, Escape, Published, CText, Escapable;
    var line := Quotes(MAX_BUFFER - 1);
    QuotesDouble(line);
    assert CText(line) == line;
    PublishedIsJson(device, line);
  }
}
