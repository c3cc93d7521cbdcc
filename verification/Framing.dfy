/** Newline-delimited frames with a length limit and strict keys (src/net/framing.rs). */
module Framing {
  import opened Wrappers
  import opened Json
  import opened JsonOrder
  import opened JsonText
  import opened JsonRoundTrip
  import opened Text
  import opened Utf8
  import opened Messages

  const RECV_BUFFER_LIMIT: nat := 512 * 1024

  function Utf8Width(c: char): (n: nat)
    ensures 1 <= n <= 4
  {
    if c as int < 0x80 then 1 else if c as int < 0x800 then 2 else if c as int < 0x1_0000 then 3 else 4
  }

  /** Length in bytes. */
  function Utf8Len(s: string): nat {
    if s == "" then 0 else Utf8Width(s[0]) + Utf8Len(s[1..])
  }

  lemma {:induction false} Utf8LenIsBytes(s: string)
    ensures Utf8Len(s) == |EncodeAll(s)|
  {
    if s != "" {
      Utf8LenIsBytes(s[1..]);
    }
  }

  /** `read_line`: up to and including the first newline, or everything. */
  function FirstLine(s: string): (line: string)
    ensures |line| <= |s| && line == s[..|line|] && (s != "" ==> line != "")
  {
    if s == "" then ""
    else if s[0] == '\n' then "\n"
    else [s[0]] + FirstLine(s[1..])
  }

  /** The longest beginning of at most `limit` bytes. */
  function Within(s: string, limit: nat): (r: string)
    ensures |r| <= |s| && r == s[..|r|]
  {
    if s == "" || Utf8Width(s[0]) > limit then "" else [s[0]] + Within(s[1..], limit - Utf8Width(s[0]))
  }

  function AllowedKeys(tag: string): set<string> {
    if tag == "Hello" then {"type", "port", "user_agent"}
    else if tag == "GetPeers" then {"type"}
    else if tag == "Peers" then {"type", "peers"}
    else if tag == "Error" then {"type", "name", "msg"}
    else {"type"}
  }

  /** What a complete line holds. */
  function DecodeLine(line: string): Result<Message, ProtocolError> {
    if Trim(line) == "" then Err(ConnectionClosed) else
    var raw := FromStr(line);
    if raw.None? || !raw.value.Obj? then Err(InvalidFormat) else
    var fields := raw.value.fields;
    var tag := AsString(Lookup(fields, "type"));
    if tag.None? || !OnlyKeys(fields, AllowedKeys(tag.value)) then Err(InvalidFormat) else
    match DecodeMessage(tag.value, fields)
    case None => Err(InvalidFormat)
    case Some(m) => Ok(m)
  }

  /** One read: its result and the input that is left. When the limit cuts a character in two, the
      line is not valid UTF-8 and the read is an I/O error; the connection is then dropped. */
  function NextFrame(input: string): (r: (Result<Message, ProtocolError>, string))
    ensures |r.1| <= |input| && (r.0.Ok? ==> |r.1| < |input|)
  {
    var line := FirstLine(input);
    if Utf8Len(line) < RECV_BUFFER_LIMIT then (DecodeLine(line), input[|line|..])
    else
      var taken := Within(input, RECV_BUFFER_LIMIT);
      (Err(if Utf8Len(taken) == RECV_BUFFER_LIMIT then OversizedFrame else Io), input[|taken|..])
  }

  /** `write_frame` appends this. */
  function Frame(m: Message): string {
    MessageText(m) + "\n"
  }

  class FrameReader {
    var input: string

    constructor (received: string)
      ensures input == received
    {
      input := received;
    }

    method ReadFrame() returns (r: Result<Message, ProtocolError>)
      modifies this
      ensures (r, input) == NextFrame(old(input))
    {
      var line := FirstLine(input);
      if Utf8Len(line) >= RECV_BUFFER_LIMIT {
        var taken := Within(input, RECV_BUFFER_LIMIT);
        input := input[|taken|..];
        return Err(if Utf8Len(taken) == RECV_BUFFER_LIMIT then OversizedFrame else Io);
      }
      input := input[|line|..];
      if Trim(line) == "" {
        return Err(ConnectionClosed);
      }
      var raw := FromStr(line);
      if raw.None? || !raw.value.Obj? {
        return Err(InvalidFormat);
      }
      var fields := raw.value.fields;
      var tag := AsString(Lookup(fields, "type"));
      if tag.None? {
        return Err(InvalidFormat);
      }
      var allowed := AllowedKeys(tag.value);
      for i := 0 to |fields|
        invariant forall j | 0 <= j < i :: fields[j].key in allowed
      {
        if fields[i].key !in allowed {
          return Err(InvalidFormat);
        }
      }
      var msg := DecodeMessage(tag.value, fields);
      if msg.None? {
        return Err(InvalidFormat);
      }
      r := Ok(msg.value);
    }
  }

  class FrameWriter {
    var output: string

    constructor ()
      ensures output == ""
    {
      output := "";
    }

    method WriteFrame(m: Message, write: Write) returns (r: Result<(), ProtocolError>)
      modifies this
      ensures output == old(output) + Kept(Frame(m), write)
      ensures r == if write.Whole? then Ok(()) else Err(Io)
    {
      var line := MessageText(m);
      line := line + "\n";
      output := output + Kept(line, write);
      r := if write.Broken? then Err(Io) else Ok(());
    }
  }

  // ---------- no newline inside a frame ----------

  predicate NoControl(s: string) {
    forall c | c in s :: c >= ' '
  }

  lemma {:induction false} EscapedNoControl(s: string)
    ensures NoControl(Quote(s))
  {
    if s != "" {
      EscapedNoControl(s[1..]);
      assert forall c | c in EscapeAll(s[1..]) :: c in Quote(s[1..]);
      assert NoControl(Escape(s[0]));
    }
  }

  lemma {:induction false} CompactNoControl(v: Value)
    ensures NoControl(Compact(v))
    decreases v, 1
  {
    match v
    case Str(s) => EscapedNoControl(s);
    case Num(n) => DigitsOnly(if n < 0 then -n else n);
    case Arr(items) => ItemsNoControl(items);
    case Obj(fields) => FieldsNoControl(fields);
    case _ =>
  }

  lemma {:induction false} ItemsNoControl(items: seq<Value>)
    ensures NoControl(ItemsText(items))
    decreases items, 0
  {
    if items != [] {
      CompactNoControl(items[0]);
      ItemsNoControl(items[1..]);
    }
  }

  lemma {:induction false} FieldsNoControl(fs: seq<Field>)
    ensures NoControl(FieldsText(fs))
    decreases fs, 0
  {
    if fs != [] {
      EscapedNoControl(fs[0].key);
      CompactNoControl(fs[0].value);
      FieldsNoControl(fs[1..]);
    }
  }

  /** The text of a message is one line, unless a raw value brings its own newlines. */
  lemma MessageIsOneLine(m: Message)
    ensures !m.Object? ==> NoControl(MessageText(m))
    ensures '\n' in MessageText(m) <==> m.Object? && '\n' in m.raw
  {
    if m.Object? {
      ObjectHeadOneLine(m.objectId);
      InConcat(ObjectHead(m.objectId), m.raw + "}", '\n');
      InConcat(m.raw, "}", '\n');
    } else {
      CompactNoControl(Obj(MessageFields(m)));
    }
  }

  lemma InConcat(a: string, b: string, c: char)
    ensures c in a + b <==> c in a || c in b
  {
  }

  lemma {:induction false} FirstLineStops(text: string, rest: string)
    requires '\n' !in text
    ensures FirstLine(text + "\n" + rest) == text + "\n"
  {
    var s := text + "\n" + rest;
    if text != "" {
      assert s[0] == text[0] && text[0] in text;
      assert s[1..] == text[1..] + "\n" + rest;
      FirstLineStops(text[1..], rest);
    }
  }

  // ---------- round trips ----------

  lemma TagsDiffer()
    ensures "Hello" != "GetPeers" && "Hello" != "Peers" && "Hello" != "Error" && "Hello" != "GetObject"
    ensures "Hello" != "GotObject" && "Hello" != "Object" && "Hello" != "Unknown"
    ensures "GetPeers" != "Peers" && "GetPeers" != "Error" && "GetPeers" != "GetObject"
    ensures "GetPeers" != "GotObject" && "GetPeers" != "Object" && "GetPeers" != "Unknown"
    ensures "Peers" != "Error" && "Peers" != "GetObject" && "Peers" != "GotObject" && "Peers" != "Object"
    ensures "Peers" != "Unknown"
    ensures "Error" != "GetObject" && "Error" != "GotObject" && "Error" != "Object" && "Error" != "Unknown"
    ensures "GetObject" != "GotObject" && "GetObject" != "Object" && "GetObject" != "Unknown"
    ensures "GotObject" != "Object" && "GotObject" != "Unknown" && "Object" != "Unknown"
  {
    assert "Hello"[0] == 'H' && "Peers"[0] == 'P' && "Error"[0] == 'E' && "Object"[0] == 'O' && "Unknown"[0] == 'U';
    assert "GetPeers"[3] == 'P' && "GetObject"[3] == 'O' && "GotObject"[3] == 'O';
    assert "GetObject"[1] == 'e' && "GotObject"[1] == 'o';
    assert "GetPeers"[0] == 'G' && "GetObject"[0] == 'G' && "GotObject"[0] == 'G';
  }

  /** The line of a message parses to its fields, sorted. */
  lemma LineParses(m: Message)
    requires !m.Object?
    ensures FromStr(Frame(m)) == Some(Obj(SortedFields(MessageFields(m))))
    ensures Trim(Frame(m)) != ""
  {
    MessageFieldsFacts(m);
    ValueParses(Obj(MessageFields(m)), "\n", RECURSION_LIMIT);
    assert SkipWs("\n") == "";
    assert Frame(m)[0] == '{';
    TrimKeepsHead(Frame(m));
  }

  lemma TagSurvives(m: Message)
    requires !m.Object?
    ensures Lookup(SortedFields(MessageFields(m)), "type") == Some(MessageFields(m)[0].value)
    ensures MessageFields(m)[0].value.Str?
  {
    MessageFieldsFacts(m);
    SortedMessageFields(m);
    var fs := MessageFields(m);
    assert fs[0].key == "type" && Lookup(fs, fs[0].key) == Some(fs[0].value);
  }

  lemma KeysAllowed(m: Message)
    requires !CarriesObject(m)
    ensures OnlyKeys(SortedFields(MessageFields(m)), AllowedKeys(MessageFields(m)[0].value.s))
  {
    MessageFieldsFacts(m);
    SortedMessageFields(m);
    TagsDiffer();
    var fs, allowed := MessageFields(m), AllowedKeys(MessageFields(m)[0].value.s);
    assert OnlyKeys(fs, allowed);
    SameOnlyKeys(SortedFields(fs), fs, allowed);
  }

  lemma SortedAt(m: Message, i: nat)
    requires !m.Object? && i < |MessageFields(m)|
    ensures Lookup(SortedFields(MessageFields(m)), MessageFields(m)[i].key) == Some(Sorted(MessageFields(m)[i].value))
  {
    MessageFieldsFacts(m);
    SortedMessageFields(m);
    var fs := MessageFields(m);
    assert Lookup(fs, fs[i].key) == Some(fs[i].value);
  }

  lemma FieldsDecode(m: Message)
    requires !CarriesObject(m)
    ensures DecodeMessage(MessageFields(m)[0].value.s, SortedFields(MessageFields(m))) == Some(m)
  {
    TagsDiffer();
    match m
    case Hello(_, _) =>
      SortedAt(m, 1);
      SortedAt(m, 2);
    case Peers(peers) =>
      SortedAt(m, 1);
      SortedPeers(peers);
    case Error(_, _) =>
      SortedAt(m, 1);
      SortedAt(m, 2);
    case _ =>
  }

  /** A key that is not allowed for any tag. */
  lemma ObjectIdNeverAllowed(fs: seq<Field>, tag: string)
    requires HasKey(fs, "object_id")
    ensures !OnlyKeys(fs, AllowedKeys(tag))
  {
    assert "object_id"[0] == 'o' && "type"[0] == 't' && "port"[0] == 'p' && "user_agent"[0] == 'u';
    assert "peers"[0] == 'p' && "name"[0] == 'n' && "msg"[0] == 'm';
    OnlyKeysByLookup(fs, AllowedKeys(tag));
  }

  /** Fields that start with a quoted key contain that key, if they parse at all. */
  lemma FirstKeyKept(key: string, tail: string, depth: nat)
    ensures var r := ParseFields(Quote(key) + tail, depth); r.Some? ==> HasKey(r.value.0, key)
  {
    var text := Quote(key) + tail;
    QuoteParses(key, tail);
    assert SkipWs(text) == text;
    var r := ParseFields(text, depth);
    if r.Some? {
      var colon := SkipWs(tail);
      var (v, after) := ParseValue(colon[1..], depth).value;
      var rest := SkipWs(after);
      if rest[0] == ',' {
        var fields := ParseFields(rest[1..], depth).value.0;
        if !HasKey(fields, key) {
          LookupInsert(Field(key, v), fields, key);
        }
      }
    }
  }

  /** The same for the key after a string field. */
  lemma SecondKeyKept(f: Field, key: string, tail: string, depth: nat)
    requires f.value.Str?
    ensures var r := ParseFields(FieldText(f) + ("," + (Quote(key) + tail)), depth);
            r.Some? ==> HasKey(r.value.0, key)
  {
    var second := Quote(key) + tail;
    var rest := "," + second;
    var value := Compact(f.value) + rest;
    var colon := ":" + value;
    FieldHeadParses(f, rest);
    ScalarParses(f.value, rest, depth);
    assert SkipWs(colon) == colon && colon[1..] == value && SkipWs(rest) == rest && rest[1..] == second;
    FirstKeyKept(key, tail, depth);
    var inner := ParseFields(second, depth);
    if inner.Some? && !HasKey(inner.value.0, f.key) {
      LookupInsert(Field(f.key, f.value), inner.value.0, key);
    }
  }

  lemma BodyKeepsKey(body: string, key: string)
    requires body != "" && body[0] == '"'
    requires var r := ParseFields(body, RECURSION_LIMIT - 1); r.Some? ==> HasKey(r.value.0, key)
    ensures var v := FromStr("{" + body); v.Some? ==> v.value.Obj? && HasKey(v.value.fields, key)
  {
    ContainerStep('{', body, RECURSION_LIMIT);
    assert SkipWs(body) == body;
  }

  lemma OpenTextSplits(f: Field, g: Field, key: string, tail: string)
    ensures var end := "," + (Quote(key) + ":");
            OpenText(f, g, key) + tail ==
            "{" + (FieldText(f) + ("," + (Quote(g.key) + (":" + (Compact(g.value) + (end + tail))))))
  {
    RegroupOpen(FieldText(f), Quote(g.key), Compact(g.value), "," + (Quote(key) + ":"), tail);
  }

  lemma RegroupOpen(first: string, key: string, value: string, end: string, tail: string)
    ensures "{" + (first + ("," + ((key + ":" + value) + end))) + tail ==
            "{" + (first + ("," + (key + (":" + (value + (end + tail))))))
  {
    Regroup(key + ":", value, end + tail);
    Regroup(key + ":" + value, end, tail);
    assert (key + ":" + value) + end + tail == key + (":" + (value + (end + tail)));
  }

  /** What starts as an object with a string field and a second key has that key, if it parses. */
  lemma OpenTextKeepsKey(f: Field, g: Field, key: string, tail: string)
    requires f.value.Str?
    ensures var line := OpenText(f, g, key) + tail;
            && Trim(line) != ""
            && var v := FromStr(line); v.Some? ==> v.value.Obj? && HasKey(v.value.fields, g.key)
  {
    var line := OpenText(f, g, key) + tail;
    var end := "," + (Quote(key) + ":");
    var afterKey := ":" + (Compact(g.value) + (end + tail));
    var body := FieldText(f) + ("," + (Quote(g.key) + afterKey));
    OpenTextSplits(f, g, key, tail);
    TrimKeepsHead(line);
    SecondKeyKept(f, g.key, afterKey, RECURSION_LIMIT - 1);
    assert body[0] == FieldText(f)[0] == '"';
    BodyKeepsKey(body, g.key);
  }

  /** A line that starts as an object message is no frame, whatever follows. */
  lemma ObjectLineRejected(objectId: string, tail: string)
    ensures DecodeLine(ObjectHead(objectId) + tail) == Err(InvalidFormat)
  {
    var line := ObjectHead(objectId) + tail;
    OpenTextKeepsKey(Field("type", Str("Object")), Field("object_id", Str(objectId)), "object", tail);
    var parsed := FromStr(line);
    if parsed.Some? && AsString(Lookup(parsed.value.fields, "type")).Some? {
      ObjectIdNeverAllowed(parsed.value.fields, AsString(Lookup(parsed.value.fields, "type")).value);
    }
  }

  lemma ObjectIdLineRejected(m: Message)
    requires m.GetObject? || m.GotObject?
    ensures DecodeLine(Frame(m)) == Err(InvalidFormat)
  {
    LineParses(m);
    TagSurvives(m);
    SortedAt(m, 1);
    ObjectIdNeverAllowed(SortedFields(MessageFields(m)), MessageFields(m)[0].value.s);
  }

  lemma {:induction false} FirstLinePrefix(s: string, rest: string)
    requires '\n' in s
    ensures FirstLine(s + rest) == FirstLine(s) && Utf8Len(FirstLine(s)) <= Utf8Len(s)
  {
    assert (s + rest)[0] == s[0];
    if s[0] != '\n' {
      assert (s + rest)[1..] == s[1..] + rest;
      FirstLinePrefix(s[1..], rest);
      assert FirstLine(s)[1..] == FirstLine(s[1..]);
    } else {
      assert "\n"[1..] == "";
    }
  }

  lemma {:induction false} FirstLineAfter(head: string, tail: string)
    requires NoControl(head)
    ensures FirstLine(head + tail) == head + FirstLine(tail)
  {
    if head == "" {
      assert head + tail == tail;
    } else {
      assert head[0] in head && (head + tail)[1..] == head[1..] + tail;
      assert forall c | c in head[1..] :: c in head;
      FirstLineAfter(head[1..], tail);
    }
  }

  lemma OpenTextOneLine(f: Field, g: Field, key: string)
    ensures NoControl(OpenText(f, g, key))
  {
    EscapedNoControl(f.key);
    CompactNoControl(f.value);
    EscapedNoControl(g.key);
    CompactNoControl(g.value);
    EscapedNoControl(key);
    assert NoControl(FieldText(f)) && NoControl(FieldText(g));
  }

  lemma SendableLine(m: Message)
    requires !CarriesObject(m)
    ensures DecodeLine(Frame(m)) == Ok(m)
  {
    LineParses(m);
    TagSurvives(m);
    KeysAllowed(m);
    FieldsDecode(m);
  }

  lemma ObjectHeadOneLine(objectId: string)
    ensures NoControl(ObjectHead(objectId))
  {
    OpenTextOneLine(Field("type", Str("Object")), Field("object_id", Str(objectId)), "object");
  }

  /** An object message is no frame even when its raw value contains newlines. */
  lemma ObjectFirstLine(m: Message)
    requires m.Object?
    ensures '\n' in Frame(m) && DecodeLine(FirstLine(Frame(m))) == Err(InvalidFormat)
  {
    var head, body := ObjectHead(m.objectId), m.raw + "}";
    var tail := body + "\n";
    Regroup(head, body, "\n");
    assert Frame(m) == head + tail;
    assert tail[|tail| - 1] == '\n';
    ObjectHeadOneLine(m.objectId);
    ObjectLineRejected(m.objectId, FirstLine(tail));
    FirstLineAfter(head, tail);
  }

  lemma WholeFirstLine(m: Message)
    requires !m.Object?
    ensures '\n' in Frame(m) && FirstLine(Frame(m)) == Frame(m)
    ensures DecodeLine(Frame(m)) == if CarriesObject(m) then Err(InvalidFormat) else Ok(m)
  {
    assert Frame(m)[|MessageText(m)|] == '\n';
    MessageIsOneLine(m);
    FirstLineStops(MessageText(m), "");
    assert Frame(m) + "" == Frame(m);
    if CarriesObject(m) {
      ObjectIdLineRejected(m);
    } else {
      SendableLine(m);
    }
  }

  lemma {:induction false} WithinPrefix(s: string, rest: string, limit: nat)
    requires Utf8Len(s) >= limit
    ensures Within(s + rest, limit) == Within(s, limit)
  {
    if s != "" {
      assert (s + rest)[0] == s[0] && (s + rest)[1..] == s[1..] + rest;
      if Utf8Width(s[0]) <= limit {
        WithinPrefix(s[1..], rest, limit - Utf8Width(s[0]));
      }
    }
  }

  lemma {:induction false} Utf8Concat(a: string, b: string)
    ensures Utf8Len(a + b) == Utf8Len(a) + Utf8Len(b)
  {
    if a == "" {
      assert a + b == b;
    } else {
      assert (a + b)[1..] == a[1..] + b;
      Utf8Concat(a[1..], b);
    }
  }

  lemma {:induction false} WithinFits(s: string, limit: nat)
    ensures Utf8Len(Within(s, limit)) <= limit
  {
    if s != "" && Utf8Width(s[0]) <= limit {
      WithinFits(s[1..], limit - Utf8Width(s[0]));
    }
  }

  lemma {:induction false} BeginningsFit(s: string, n: nat, limit: nat)
    requires n <= |s| && |EncodeAll(s[..n])| <= limit
    ensures n <= |Within(s, limit)|
  {
    if n > 0 {
      Utf8LenIsBytes(s[..n]);
      assert s[..n][1..] == s[1..][..n - 1];
      Utf8LenIsBytes(s[1..][..n - 1]);
      BeginningsFit(s[1..], n - 1, limit - Utf8Width(s[0]));
    }
  }

  /** Some characters at the beginning of the text take exactly that many bytes. */
  predicate FallsBetween(s: string, limit: nat) {
    exists n | 0 <= n <= |s| :: |EncodeAll(s[..n])| == limit
  }

  /** A line at the limit is refused: as oversized if the limit falls between two of its characters, and otherwise
      with an I/O error. */
  lemma LongLineIsRefused(input: string)
    requires |EncodeAll(FirstLine(input))| >= 524288
    ensures NextFrame(input).0 == Err(if FallsBetween(input, 524288) then OversizedFrame else Io)
  {
    var taken := Within(input, RECV_BUFFER_LIMIT);
    Utf8LenIsBytes(FirstLine(input));
    Utf8LenIsBytes(taken);
    if |EncodeAll(taken)| == RECV_BUFFER_LIMIT {
      assert input[..|taken|] == taken;
    }
    if n :| 0 <= n <= |input| && |EncodeAll(input[..n])| == 524288 {
      BeginningsFit(input, n, RECV_BUFFER_LIMIT);
      WithinFits(input, RECV_BUFFER_LIMIT);
      assert taken == input[..n] + taken[n..];
      Utf8LenIsBytes(input[..n]);
      Utf8Concat(input[..n], taken[n..]);
    }
  }

  predicate Small(m: Message) {
    Utf8Len(Frame(m)) < RECV_BUFFER_LIMIT
  }

  /** What a reader makes of a written message: refused when its line reaches the limit, with an I/O error
      if the limit cuts a character in two; otherwise heard, unless it is about an object. */
  function Heard(m: Message): Result<Message, ProtocolError> {
    if Utf8Len(FirstLine(Frame(m))) >= RECV_BUFFER_LIMIT then
      Err(if Utf8Len(Within(Frame(m), RECV_BUFFER_LIMIT)) == RECV_BUFFER_LIMIT then OversizedFrame else Io)
    else if CarriesObject(m) then Err(InvalidFormat)
    else Ok(m)
  }

  /** What follows a complete line does not matter for reading it. */
  lemma LineAlone(s: string, rest: string)
    requires '\n' in s
    ensures NextFrame(s + rest).0 == NextFrame(s).0
    ensures Utf8Len(FirstLine(s)) < RECV_BUFFER_LIMIT ==> NextFrame(s + rest).1 == (s + rest)[|FirstLine(s)|..]
  {
    FirstLinePrefix(s, rest);
    if Utf8Len(FirstLine(s)) >= RECV_BUFFER_LIMIT {
      WithinPrefix(s, rest, RECV_BUFFER_LIMIT);
    }
  }

  lemma ObjectFrameAlone(m: Message)
    requires m.Object?
    ensures '\n' in Frame(m) && NextFrame(Frame(m)).0 == Heard(m)
  {
    ObjectFirstLine(m);
  }

  lemma OtherFrameAlone(m: Message)
    requires !m.Object?
    ensures '\n' in Frame(m) && NextFrame(Frame(m)).0 == Heard(m) && FirstLine(Frame(m)) == Frame(m)
  {
    WholeFirstLine(m);
  }

  /** Writing any message and reading it back, whatever follows: it arrives if and only if its frame is
      below the limit and it is not about an object. */
  lemma FrameRoundTrip(m: Message, rest: string)
    ensures NextFrame(Frame(m) + rest).0 == Heard(m)
    ensures Heard(m).Ok? ==> NextFrame(Frame(m) + rest) == (Ok(m), rest)
    ensures Heard(m).Ok? <==> Small(m) && !CarriesObject(m)
    ensures Small(m) && CarriesObject(m) ==> Heard(m) == Err(InvalidFormat)
    ensures Small(m) <==> Utf8Len(Frame(m)) < 524288
  {
    if m.Object? {
      ObjectFrameAlone(m);
    } else {
      OtherFrameAlone(m);
      assert (Frame(m) + rest)[|Frame(m)|..] == rest;
    }
    LineAlone(Frame(m), rest);
    FirstLinePrefix(Frame(m), rest);
  }

  /** Whatever bytes arrive, `read_frame` never yields a message about objects. */
  lemma ObjectMessagesNeverArrive(input: string)
    requires NextFrame(input).0.Ok?
    ensures !CarriesObject(NextFrame(input).0.value)
  {
    var line := FirstLine(input);
    var fields := FromStr(line).value.fields;
    var tag := AsString(Lookup(fields, "type")).value;
    if HasKey(fields, "object_id") {
      ObjectIdNeverAllowed(fields, tag);
    }
  }

  // ---------- whole streams ----------

  function Stream(ms: seq<Message>): string {
    if ms == [] then "" else Frame(ms[0]) + Stream(ms[1..])
  }

  /** Reads until the first error. */
  function ReadAll(input: string): (seq<Message>, ProtocolError)
    decreases |input|
  {
    var (r, rest) := NextFrame(input);
    match r
    case Err(e) => ([], e)
    case Ok(m) => var (ms, e) := ReadAll(rest); ([m] + ms, e)
  }

  /** The messages heard from a stream of frames: those before the first one refused. */
  function HeardOf(ms: seq<Message>): seq<Message> {
    if ms == [] || Heard(ms[0]).Err? then [] else [ms[0]] + HeardOf(ms[1..])
  }

  /** The error of the first frame refused, if one is. */
  function Refusal(ms: seq<Message>): Option<ProtocolError> {
    if ms == [] then None
    else match Heard(ms[0])
         case Err(e) => Some(e)
         case Ok(_) => Refusal(ms[1..])
  }

  lemma ReadAllStep(m: Message, rest: string)
    ensures ReadAll(Frame(m) + rest) ==
            match Heard(m)
            case Err(e) => ([], e)
            case Ok(_) => ([m] + ReadAll(rest).0, ReadAll(rest).1)
  {
    FrameRoundTrip(m, rest);
  }

  /** A message that can arrive. */
  predicate Arrives(m: Message) {
    Small(m) && !CarriesObject(m)
  }

  lemma HeardIffArrives(m: Message)
    ensures Heard(m).Ok? <==> Arrives(m)
  {
    FrameRoundTrip(m, "");
  }

  lemma {:induction false} NoneRefused(ms: seq<Message>)
    ensures Refusal(ms).None? <==> forall m | m in ms :: Heard(m).Ok?
  {
    if ms != [] {
      NoneRefused(ms[1..]);
      assert ms == [ms[0]] + ms[1..];
    }
  }

  lemma {:induction false} AllHeard(ms: seq<Message>)
    ensures Refusal(ms).None? ==> HeardOf(ms) == ms
  {
    if ms != [] {
      AllHeard(ms[1..]);
      assert ms == [ms[0]] + ms[1..];
    }
  }

  /** Nothing is refused if and only if all frames are below the limit and none is about an object; then
      everything is heard. */
  lemma RefusalIff(ms: seq<Message>)
    ensures Refusal(ms).None? ==> HeardOf(ms) == ms
    ensures Refusal(ms).None? <==> forall m | m in ms :: Arrives(m)
  {
    NoneRefused(ms);
    AllHeard(ms);
    forall m | m in ms ensures Heard(m).Ok? <==> Arrives(m) {
      HeardIffArrives(m);
    }
  }

  /** Whatever messages are written on a stream, those before the first one refused are read from it, in
      order, and then that one's error, or the end of the stream. */
  lemma {:induction false} StreamRoundTrip(ms: seq<Message>)
    ensures ReadAll(Stream(ms)) == (HeardOf(ms), if Refusal(ms).Some? then Refusal(ms).value else ConnectionClosed)
  {
    if ms == [] {
      assert NextFrame("") == (Err(ConnectionClosed), "");
    } else {
      ReadAllStep(ms[0], Stream(ms[1..]));
      StreamRoundTrip(ms[1..]);
    }
  }

  lemma {:induction false} StreamConcat(a: seq<Message>, b: seq<Message>)
    ensures Stream(a + b) == Stream(a) + Stream(b)
  {
    if a == [] {
      assert a + b == b;
    } else {
      assert (a + b)[1..] == a[1..] + b;
      StreamConcat(a[1..], b);
      Regroup(Frame(a[0]), Stream(a[1..]), Stream(b));
    }
  }
}
