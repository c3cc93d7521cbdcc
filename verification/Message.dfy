/** Protocol messages and their JSON text (src/protocol/message.rs). */
module Messages {
  import opened Wrappers
  import opened Json
  import opened JsonOrder
  import opened JsonText
  import opened PeerText

  /** `raw` is the text of a JSON value, kept as received. */
  datatype Message =
    | Hello(port: Port, userAgent: string)
    | Peers(peers: seq<Peer>)
    | GetPeers
    | GetObject(objectId: string)
    | GotObject(objectId: string)
    | Object(objectId: string, raw: string)
    | Error(name: string, msg: string)
    | Unknown

  datatype ProtocolError = InvalidFormat | InvalidHandshake | Io | ConnectionClosed | OversizedFrame | Storage

  // ---------- raw values ----------

  /** `RawValue::from_string`: the text must be one JSON value, nested to any depth; white space around
      it is dropped. */
  function RawOf(bytes: string): Option<string> {
    var (v, rest) :- ParseValue(bytes, |bytes| + RECURSION_LIMIT);
    Bare(SkipWs(bytes), rest)
  }

  /** `text` without `rest` at its end, if that is only white space. */
  function Bare(text: string, rest: string): Option<string> {
    if SkipWs(rest) == "" && |rest| <= |text| then Some(text[..|text| - |rest|]) else None
  }

  function BuildObject(objectId: string, bytes: string): Result<Message, ProtocolError> {
    match RawOf(bytes)
    case None => Err(InvalidFormat)
    case Some(raw) => Ok(Object(objectId, raw))
  }

  /** No white space around the value: what a raw value holds. */
  predicate IsRaw(text: string) {
    RawOf(text) == Some(text)
  }

  /** A deeper limit never changes a parse that succeeded. */
  lemma {:induction false} DeeperParses(text: string, depth: nat, deeper: nat)
    requires ParseValue(text, depth).Some? && depth <= deeper
    ensures ParseValue(text, deeper) == ParseValue(text, depth)
    decreases |text|, 0
  {
    var s := SkipWs(text);
    if s[0] == '[' {
      var inner := SkipWs(s[1..]);
      if inner == "" || inner[0] != ']' {
        DeeperItems(inner, depth - 1, deeper - 1);
      }
    } else if s[0] == '{' {
      var inner := SkipWs(s[1..]);
      if inner == "" || inner[0] != '}' {
        DeeperFields(inner, depth - 1, deeper - 1);
      }
    }
  }

  lemma {:induction false} DeeperItems(text: string, depth: nat, deeper: nat)
    requires ParseItems(text, depth).Some? && depth <= deeper
    ensures ParseItems(text, deeper) == ParseItems(text, depth)
    decreases |text|, 1
  {
    DeeperParses(text, depth, deeper);
    var rest := SkipWs(ParseValue(text, depth).value.1);
    if rest[0] == ',' {
      DeeperItems(rest[1..], depth, deeper);
    }
  }

  lemma {:induction false} DeeperFields(text: string, depth: nat, deeper: nat)
    requires ParseFields(text, depth).Some? && depth <= deeper
    ensures ParseFields(text, deeper) == ParseFields(text, depth)
    decreases |text|, 1
  {
    var s := SkipWs(text);
    var colon := SkipWs(ParseStr(s[1..]).value.1);
    DeeperParses(colon[1..], depth, deeper);
    var rest := SkipWs(ParseValue(colon[1..], depth).value.1);
    if rest[0] == ',' {
      DeeperFields(rest[1..], depth, deeper);
    }
  }

  /** Text the depth-limited parser accepts can be sent as a raw value. */
  lemma ParsedTextIsSendable(objectId: string, bytes: string)
    requires FromStr(bytes).Some?
    ensures BuildObject(objectId, bytes).Ok?
  {
    DeeperParses(bytes, RECURSION_LIMIT, |bytes| + RECURSION_LIMIT);
    var rest := ParseValue(bytes, RECURSION_LIMIT).value.1;
    var start := SkipWs(bytes);
    assert SkipWs(start) == start;
    assert ParseValue(start, RECURSION_LIMIT) == ParseValue(bytes, RECURSION_LIMIT);
  }

  // ---------- JSON form ----------

  function PeerValue(p: Peer): Value {
    Obj([Field("host", Str(p.host)), Field("port", Num(p.port))])
  }

  function PeerValues(ps: seq<Peer>): (r: seq<Value>)
    ensures |r| == |ps| && forall i | 0 <= i < |ps| :: r[i] == PeerValue(ps[i])
  {
    if ps == [] then [] else [PeerValue(ps[0])] + PeerValues(ps[1..])
  }

  predicate CarriesObject(m: Message) {
    m.GetObject? || m.GotObject? || m.Object?
  }

  /** The tag first, then the fields in declaration order. */
  function MessageFields(m: Message): seq<Field>
    requires !m.Object?
  {
    match m
    case Hello(port, userAgent) =>
      [Field("type", Str("Hello")), Field("port", Num(port)), Field("user_agent", Str(userAgent))]
    case Peers(peers) => [Field("type", Str("Peers")), Field("peers", Arr(PeerValues(peers)))]
    case GetPeers => [Field("type", Str("GetPeers"))]
    case GetObject(id) => [Field("type", Str("GetObject")), Field("object_id", Str(id))]
    case GotObject(id) => [Field("type", Str("GotObject")), Field("object_id", Str(id))]
    case Error(name, msg) => [Field("type", Str("Error")), Field("name", Str(name)), Field("msg", Str(msg))]
    case Unknown => [Field("type", Str("Unknown"))]
  }

  /** An object with two fields and the key of a third. */
  function OpenText(f: Field, g: Field, key: string): string {
    "{" + (FieldText(f) + ("," + (FieldText(g) + ("," + (Quote(key) + ":")))))
  }

  /** The text of an object message up to its raw value. */
  function ObjectHead(objectId: string): string {
    OpenText(Field("type", Str("Object")), Field("object_id", Str(objectId)), "object")
  }

  /** `serde_json::to_string`: a raw value is copied as it is. */
  function MessageText(m: Message): string {
    if m.Object? then ObjectHead(m.objectId) + (m.raw + "}") else Compact(Obj(MessageFields(m)))
  }

  function AsPort(v: Option<Value>): Option<Port> {
    var n :- AsU64(v);
    if n < 0x1_0000 then Some(n) else None
  }

  /** Unknown keys of a peer are ignored. */
  function DecodePeer(v: Value): Option<Peer> {
    if !v.Obj? then None else
    var host :- AsString(Lookup(v.fields, "host"));
    var port :- AsPort(Lookup(v.fields, "port"));
    Some(Peer(host, port))
  }

  function DecodePeers(vs: seq<Value>): (r: Option<seq<Peer>>)
    ensures r.Some? <==> forall i | 0 <= i < |vs| :: DecodePeer(vs[i]).Some?
    ensures r.Some? ==> |r.value| == |vs| && forall i | 0 <= i < |vs| :: DecodePeer(vs[i]) == Some(r.value[i])
  {
    if vs == [] then Some([]) else
    var head :- DecodePeer(vs[0]);
    var tail :- DecodePeers(vs[1..]);
    Some([head] + tail)
  }

  /** `serde_json::from_value` for a message with this tag. A raw value can not be decoded from a value
      that is already parsed, so `Object` always fails. */
  function DecodeMessage(tag: string, fs: seq<Field>): Option<Message> {
    if tag == "Hello" then
      var port :- AsPort(Lookup(fs, "port"));
      var userAgent :- AsString(Lookup(fs, "user_agent"));
      Some(Hello(port, userAgent))
    else if tag == "Peers" then
      var items :- AsArray(Lookup(fs, "peers"));
      var peers :- DecodePeers(items);
      Some(Peers(peers))
    else if tag == "GetPeers" then Some(GetPeers)
    else if tag == "GetObject" then
      var id :- AsString(Lookup(fs, "object_id"));
      Some(GetObject(id))
    else if tag == "GotObject" then
      var id :- AsString(Lookup(fs, "object_id"));
      Some(GotObject(id))
    else if tag == "Object" then None
    else if tag == "Error" then
      var name :- AsString(Lookup(fs, "name"));
      var msg :- AsString(Lookup(fs, "msg"));
      Some(Error(name, msg))
    else Some(Unknown)
  }

  // ---------- what a message's text parses to ----------

  lemma KeysDiffer()
    ensures "type" != "port" && "type" != "user_agent" && "type" != "peers" && "type" != "object_id"
    ensures "type" != "name" && "type" != "msg" && "type" != "object"
    ensures "port" != "user_agent" && "name" != "msg" && "host" != "port" && "object_id" != "object"
  {
    assert "type"[0] == 't' && "port"[0] == 'p' && "user_agent"[0] == 'u' && "object_id"[0] == 'o';
    assert "peers"[0] == 'p' && "name"[0] == 'n' && "msg"[0] == 'm' && "host"[0] == 'h' && "object"[0] == 'o';
    assert |"object_id"| != |"object"|;
  }

  /** Two or three fields with different keys. */
  lemma FewFields(fs: seq<Field>)
    requires 1 <= |fs| <= 3
    requires |fs| > 1 ==> fs[0].key != fs[1].key
    requires |fs| > 2 ==> fs[0].key != fs[2].key && fs[1].key != fs[2].key
    requires forall i | 0 <= i < |fs| :: WellFormed(fs[i].value)
    ensures WellFormed(Obj(fs)) && forall i | 0 <= i < |fs| :: Lookup(fs, fs[i].key) == Some(fs[i].value)
    ensures forall k :: HasKey(fs, k) <==> exists i | 0 <= i < |fs| :: fs[i].key == k
  {
    if |fs| == 1 {
      assert fs[1..] == [];
    } else if |fs| == 2 {
      assert fs[1..] == [fs[1]] && fs[1..][1..] == [];
    } else {
      assert fs[1..] == [fs[1], fs[2]] && fs[1..][1..] == [fs[2]] && fs[1..][1..][1..] == [];
    }
    forall i | 0 <= i < |fs| ensures Lookup(fs, fs[i].key) == Some(fs[i].value) {
      LookupAt(fs, i);
    }
    forall k | HasKey(fs, k) ensures exists i | 0 <= i < |fs| :: fs[i].key == k {
      var i := LookupIndex(fs, k);
    }
  }

  lemma PeerValueFacts(p: Peer)
    ensures WellFormed(PeerValue(p)) && Depth(PeerValue(p)) <= 1
    ensures Lookup(PeerValue(p).fields, "host") == Some(Str(p.host))
    ensures Lookup(PeerValue(p).fields, "port") == Some(Num(p.port))
  {
    KeysDiffer();
    var fs := PeerValue(p).fields;
    FewFields(fs);
    assert fs[0].key == "host" && fs[1].key == "port";
    ShallowFields(fs, 0);
  }

  lemma MessageFieldsFacts(m: Message)
    requires !m.Object?
    ensures WellFormed(Obj(MessageFields(m))) && Depth(Obj(MessageFields(m))) <= 3
    ensures var fs := MessageFields(m);
            && (forall i | 0 <= i < |fs| :: Lookup(fs, fs[i].key) == Some(fs[i].value))
            && (forall k :: HasKey(fs, k) <==> exists i | 0 <= i < |fs| :: fs[i].key == k)
  {
    KeysDiffer();
    var fs := MessageFields(m);
    if m.Peers? {
      forall i | 0 <= i < |m.peers| ensures WellFormed(PeerValue(m.peers[i])) && Depth(PeerValue(m.peers[i])) <= 1 {
        PeerValueFacts(m.peers[i]);
      }
      ShallowItems(PeerValues(m.peers), 1);
    }
    FewFields(fs);
    ShallowFields(fs, 2);
  }

  /** The keys and values survive; only their order may change. */
  lemma SortedMessageFields(m: Message)
    requires !m.Object?
    ensures var fs, sorted := MessageFields(m), SortedFields(MessageFields(m));
            && (forall k :: HasKey(sorted, k) <==> HasKey(fs, k))
            && (forall k | HasKey(fs, k) :: Lookup(sorted, k) == Some(Sorted(Lookup(fs, k).value)))
  {
    MessageFieldsFacts(m);
    SortedFieldsLookup(MessageFields(m));
  }

  lemma SortedPeer(p: Peer)
    ensures DecodePeer(Sorted(PeerValue(p))) == Some(p)
  {
    PeerValueFacts(p);
    SortedFieldsLookup(PeerValue(p).fields);
  }

  lemma SortedPeers(ps: seq<Peer>)
    ensures DecodePeers(SortedItems(PeerValues(ps))) == Some(ps)
  {
    var vs := SortedItems(PeerValues(ps));
    forall i | 0 <= i < |ps| ensures DecodePeer(vs[i]) == Some(ps[i]) {
      SortedPeer(ps[i]);
    }
    assert DecodePeers(vs).value == ps;
  }
}
