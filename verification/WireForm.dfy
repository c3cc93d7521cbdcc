/** The JSON form of each message: what is written has it, and what has it is read (src/protocol/message.rs and
    the key filter of src/net/framing.rs). */
module WireForm {
  import opened Wrappers
  import opened Json
  import opened JsonOrder
  import opened JsonText
  import opened Text
  import opened PeerText
  import opened Messages
  import opened Framing

  /** A tag, and no keys but these. */
  ghost predicate Tagged(fs: seq<Field>, tag: string, keys: set<string>) {
    Lookup(fs, "type") == Some(Str(tag)) && forall k :: HasKey(fs, k) <==> k in keys
  }

  predicate KnownTag(tag: string) {
    || tag == "Hello" || tag == "Peers" || tag == "GetPeers" || tag == "GetObject" || tag == "GotObject"
    || tag == "Object" || tag == "Error"
  }

  /** A host and a port; other keys are ignored. */
  predicate PeerForm(v: Value, p: Peer) {
    v.Obj? && Lookup(v.fields, "host") == Some(Str(p.host)) && Lookup(v.fields, "port") == Some(Num(p.port))
  }

  predicate PeersForm(v: Option<Value>, ps: seq<Peer>) {
    v.Some? && v.value.Arr? && |v.value.items| == |ps| && forall i | 0 <= i < |ps| :: PeerForm(v.value.items[i], ps[i])
  }

  ghost predicate HelloForm(fs: seq<Field>, port: Port, userAgent: string) {
    && Tagged(fs, "Hello", {"type", "port", "user_agent"})
    && Lookup(fs, "port") == Some(Num(port)) && Lookup(fs, "user_agent") == Some(Str(userAgent))
  }

  ghost predicate ErrorForm(fs: seq<Field>, name: string, msg: string) {
    && Tagged(fs, "Error", {"type", "name", "msg"})
    && Lookup(fs, "name") == Some(Str(name)) && Lookup(fs, "msg") == Some(Str(msg))
  }

  /** A request or an announcement. */
  ghost predicate IdForm(fs: seq<Field>, tag: string, id: string) {
    Tagged(fs, tag, {"type", "object_id"}) && Lookup(fs, "object_id") == Some(Str(id))
  }

  ghost predicate UnknownForm(fs: seq<Field>) {
    exists tag :: !KnownTag(tag) && Tagged(fs, tag, {"type"})
  }

  ghost predicate Form(fs: seq<Field>, m: Message) {
    match m
    case Hello(port, userAgent) => HelloForm(fs, port, userAgent)
    case Peers(ps) => Tagged(fs, "Peers", {"type", "peers"}) && PeersForm(Lookup(fs, "peers"), ps)
    case GetPeers => Tagged(fs, "GetPeers", {"type"})
    case GetObject(id) => IdForm(fs, "GetObject", id)
    case GotObject(id) => IdForm(fs, "GotObject", id)
    case Object(id, raw) =>
      && Tagged(fs, "Object", {"type", "object_id", "object"})
      && Lookup(fs, "object_id") == Some(Str(id)) && Lookup(fs, "object") == FromStr(raw)
    case Error(name, msg) => ErrorForm(fs, name, msg)
    case Unknown => UnknownForm(fs)
  }

  // ---------- what is written ----------

  lemma WrittenKeys(m: Message, keys: set<string>)
    requires !m.Object?
    requires forall k :: k in keys <==> exists i | 0 <= i < |MessageFields(m)| :: MessageFields(m)[i].key == k
    ensures forall k :: HasKey(SortedFields(MessageFields(m)), k) <==> k in keys
  {
    MessageFieldsFacts(m);
    SortedMessageFields(m);
  }

  lemma WrittenPeer(p: Peer)
    ensures PeerForm(Sorted(PeerValue(p)), p)
  {
    PeerValueFacts(p);
    SortedFieldsLookup(PeerValue(p).fields);
  }

  lemma WrittenPeers(ps: seq<Peer>)
    ensures PeersForm(Some(Sorted(Arr(PeerValues(ps)))), ps)
  {
    forall i | 0 <= i < |ps| ensures PeerForm(SortedItems(PeerValues(ps))[i], ps[i]) {
      WrittenPeer(ps[i]);
    }
  }

  lemma WrittenOne(m: Message)
    requires m.GetPeers? || m.Unknown?
    ensures Form(SortedFields(MessageFields(m)), m)
  {
    var fs := MessageFields(m);
    assert fs[0].key == "type";
    WrittenKeys(m, {"type"});
    SortedAt(m, 0);
    if m.Unknown? {
      TagsDiffer();
      assert !KnownTag(fs[0].value.s);
      assert Tagged(SortedFields(fs), fs[0].value.s, {"type"});
    }
  }

  lemma WrittenTwo(m: Message)
    requires m.Peers? || m.GetObject? || m.GotObject?
    ensures Form(SortedFields(MessageFields(m)), m)
  {
    var fs := MessageFields(m);
    assert fs[0].key == "type";
    SortedAt(m, 0);
    SortedAt(m, 1);
    if m.Peers? {
      assert fs[1].key == "peers";
      WrittenPeers(m.peers);
      WrittenKeys(m, {"type", "peers"});
    } else {
      assert fs[1].key == "object_id";
      WrittenKeys(m, {"type", "object_id"});
    }
  }

  lemma WrittenThree(m: Message)
    requires m.Hello? || m.Error?
    ensures Form(SortedFields(MessageFields(m)), m)
  {
    var fs := MessageFields(m);
    assert fs[0].key == "type";
    SortedAt(m, 0);
    SortedAt(m, 1);
    SortedAt(m, 2);
    if m.Hello? {
      assert fs[1].key == "port" && fs[2].key == "user_agent";
      WrittenKeys(m, {"type", "port", "user_agent"});
    } else {
      assert fs[1].key == "name" && fs[2].key == "msg";
      WrittenKeys(m, {"type", "name", "msg"});
    }
  }

  /** The text of every message but an object parses to its form: its own tag, its own keys, its own values. */
  lemma WrittenInForm(m: Message)
    requires !m.Object?
    ensures FromStr(Frame(m)).Some? && FromStr(Frame(m)).value.Obj? && Form(FromStr(Frame(m)).value.fields, m)
  {
    LineParses(m);
    if m.GetPeers? || m.Unknown? {
      WrittenOne(m);
    } else if m.Hello? || m.Error? {
      WrittenThree(m);
    } else {
      WrittenTwo(m);
    }
  }

  // ---------- what is read ----------

  lemma PortIs(v: Option<Value>, port: Port)
    ensures AsPort(v) == Some(port) <==> v == Some(Num(port))
  {
  }

  lemma StringIs(v: Option<Value>, s: string)
    ensures AsString(v) == Some(s) <==> v == Some(Str(s))
  {
  }

  lemma PeerIs(v: Value, p: Peer)
    ensures DecodePeer(v) == Some(p) <==> PeerForm(v, p)
  {
    if v.Obj? {
      StringIs(Lookup(v.fields, "host"), p.host);
      PortIs(Lookup(v.fields, "port"), p.port);
    }
  }

  lemma PeersAre(v: Option<Value>, ps: seq<Peer>)
    ensures AsArray(v).Some? && DecodePeers(AsArray(v).value) == Some(ps) <==> PeersForm(v, ps)
  {
    if AsArray(v).Some? && |AsArray(v).value| == |ps| {
      var vs := AsArray(v).value;
      forall i | 0 <= i < |vs| ensures DecodePeer(vs[i]) == Some(ps[i]) <==> PeerForm(vs[i], ps[i]) {
        PeerIs(vs[i], ps[i]);
      }
      if forall i | 0 <= i < |vs| :: DecodePeer(vs[i]) == Some(ps[i]) {
        assert DecodePeers(vs).value == ps;
      }
    }
  }

  /** What the key filter and the decoder make of an object. */
  predicate Reads(fs: seq<Field>, m: Message) {
    var tag := AsString(Lookup(fs, "type"));
    tag.Some? && OnlyKeys(fs, AllowedKeys(tag.value)) && DecodeMessage(tag.value, fs) == Some(m)
  }

  lemma KeysAre(fs: seq<Field>, keys: set<string>)
    ensures (forall k :: HasKey(fs, k) <==> k in keys) <==> OnlyKeys(fs, keys) && forall k | k in keys :: HasKey(fs, k)
  {
    OnlyKeysByLookup(fs, keys);
  }

  lemma HelloReads(fs: seq<Field>, tag: string, port: Port, userAgent: string)
    requires Lookup(fs, "type") == Some(Str(tag))
    ensures Reads(fs, Hello(port, userAgent)) <==> HelloForm(fs, port, userAgent)
  {
    if tag == "Hello" {
      KeysAre(fs, {"type", "port", "user_agent"});
      PortIs(Lookup(fs, "port"), port);
      StringIs(Lookup(fs, "user_agent"), userAgent);
    }
  }

  lemma ErrorReads(fs: seq<Field>, tag: string, name: string, msg: string)
    requires Lookup(fs, "type") == Some(Str(tag))
    ensures Reads(fs, Error(name, msg)) <==> ErrorForm(fs, name, msg)
  {
    if tag == "Error" {
      TagsDiffer();
      KeysAre(fs, {"type", "name", "msg"});
      StringIs(Lookup(fs, "name"), name);
      StringIs(Lookup(fs, "msg"), msg);
    }
  }

  lemma PeersReads(fs: seq<Field>, tag: string, ps: seq<Peer>)
    requires Lookup(fs, "type") == Some(Str(tag))
    ensures Reads(fs, Peers(ps)) <==> Tagged(fs, "Peers", {"type", "peers"}) && PeersForm(Lookup(fs, "peers"), ps)
  {
    if tag == "Peers" {
      TagsDiffer();
      KeysAre(fs, {"type", "peers"});
      PeersAre(Lookup(fs, "peers"), ps);
    }
  }

  lemma GetPeersReads(fs: seq<Field>, tag: string)
    requires Lookup(fs, "type") == Some(Str(tag))
    ensures Reads(fs, GetPeers) <==> Tagged(fs, "GetPeers", {"type"})
  {
    if tag == "GetPeers" {
      TagsDiffer();
      KeysAre(fs, {"type"});
    }
  }

  lemma UnknownReads(fs: seq<Field>, tag: string)
    requires Lookup(fs, "type") == Some(Str(tag))
    ensures Reads(fs, Unknown) <==> UnknownForm(fs)
  {
    KeysAre(fs, {"type"});
    if !KnownTag(tag) {
      assert Reads(fs, Unknown) <==> Tagged(fs, tag, {"type"});
    }
  }

  lemma ObjectsAreNotRead(fs: seq<Field>, m: Message)
    requires CarriesObject(m)
    ensures !Reads(fs, m)
  {
    if HasKey(fs, "object_id") && AsString(Lookup(fs, "type")).Some? {
      ObjectIdNeverAllowed(fs, AsString(Lookup(fs, "type")).value);
    }
  }

  /** An object is read as a message exactly when it has the form of one that is not about objects. */
  lemma ReadsIff(fs: seq<Field>, m: Message)
    ensures Reads(fs, m) <==> !CarriesObject(m) && Form(fs, m)
  {
    if CarriesObject(m) {
      ObjectsAreNotRead(fs, m);
    } else if AsString(Lookup(fs, "type")).Some? {
      var tag := AsString(Lookup(fs, "type")).value;
      match m
      case Hello(port, userAgent) => HelloReads(fs, tag, port, userAgent);
      case Peers(ps) => PeersReads(fs, tag, ps);
      case GetPeers => GetPeersReads(fs, tag);
      case Error(name, msg) => ErrorReads(fs, tag, name, msg);
      case Unknown => UnknownReads(fs, tag);
    }
  }

  /** Text that parses is not blank. */
  lemma ParsedIsNotBlank(line: string)
    requires FromStr(line).Some?
    ensures Trim(line) != ""
  {
    if Trim(line) == "" {
      var before := TrimStartDrops(line);
      var after := TrimEndDrops(TrimStart(line));
      assert AllSpace(line);
      SpacesDoNotParse(line, RECURSION_LIMIT);
    }
  }

  lemma {:induction false} SpacesDoNotParse(s: string, depth: nat)
    requires AllSpace(s)
    ensures ParseValue(s, depth).None?
  {
    if s != "" {
      assert s[0] in s && forall c | c in s[1..] :: c in s;
      SpacesDoNotParse(s[1..], depth);
    }
  }

  lemma BlankIff(line: string)
    ensures Trim(line) == "" <==> AllSpace(line)
  {
    if Trim(line) == "" {
      var before := TrimStartDrops(line);
      var after := TrimEndDrops(TrimStart(line));
    }
    if AllSpace(line) {
      TrimStartSkips(line, "");
      assert line + "" == line;
    }
  }

  /** A complete line is read as a message exactly when it is an object in the form of one that is not about
      objects: every other tag without other keys is unknown. Everything else is refused as invalid, but a line of
      white space, which counts as the end of the connection. */
  lemma LineReadIff(line: string, m: Message)
    ensures DecodeLine(line) == Ok(m) <==>
            && FromStr(line).Some? && FromStr(line).value.Obj?
            && !CarriesObject(m) && Form(FromStr(line).value.fields, m)
    ensures DecodeLine(line).Err? ==>
              DecodeLine(line).error == if AllSpace(line) then ConnectionClosed else InvalidFormat
  {
    BlankIff(line);
    if FromStr(line).Some? {
      ParsedIsNotBlank(line);
      if FromStr(line).value.Obj? {
        ReadsIff(FromStr(line).value.fields, m);
      }
    }
  }
}
