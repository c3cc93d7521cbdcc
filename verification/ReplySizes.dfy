/** How large an answer to a request for peers can get: nothing bounds the hosts in it. */
module ReplySizes {
  import opened Json
  import opened JsonText
  import opened Text
  import opened PeerText
  import opened Messages
  import opened Framing
  import opened Dispatch
  import opened TwoEnds

  // ---------- lengths ----------

  lemma {:induction false} Utf8AtLeast(s: string)
    ensures |s| <= Utf8Len(s) <= 4 * |s|
  {
    if s != "" {
      Utf8AtLeast(s[1..]);
    }
  }

  lemma {:induction false} EscapedAtLeast(s: string)
    ensures |s| <= |EscapeAll(s)| && |s| + 2 <= |Quote(s)|
  {
    if s != "" {
      EscapedAtLeast(s[1..]);
    }
  }

  function HostsLength(ps: seq<Peer>): nat {
    if ps == [] then 0 else |ps[0].host| + HostsLength(ps[1..])
  }

  lemma PeerAtLeast(p: Peer)
    ensures |p.host| <= |Compact(PeerValue(p))|
  {
    var host, port := Field("host", Str(p.host)), Field("port", Num(p.port));
    EscapedAtLeast(p.host);
    TwoFields(host, port);
    assert |Quote(p.host)| <= |FieldText(host)|;
  }

  lemma TwoFields(f: Field, g: Field)
    ensures Compact(Obj([f, g])) == "{" + (FieldText(f) + ("," + FieldText(g))) + "}"
  {
    var fs := [f, g];
    assert fs[1..] == [g];
    assert FieldsText([g]) == FieldText(g);
    assert FieldsText(fs) == FieldText(f) + "," + FieldText(g);
    Regroup(FieldText(f), ",", FieldText(g));
  }

  lemma {:induction false} HostsAtLeast(ps: seq<Peer>)
    ensures HostsLength(ps) <= |ItemsText(PeerValues(ps))|
  {
    if ps != [] {
      PeerAtLeast(ps[0]);
      HostsAtLeast(ps[1..]);
      assert PeerValues(ps)[1..] == PeerValues(ps[1..]);
    }
  }

  function PeersFields(ps: seq<Peer>): (Field, Field) {
    (Field("type", Str("Peers")), Field("peers", Arr(PeerValues(ps))))
  }

  lemma PeersText(ps: seq<Peer>)
    ensures var (f, g) := PeersFields(ps);
            MessageText(Peers(ps)) == "{" + (FieldText(f) + ("," + FieldText(g))) + "}"
  {
    var (f, g) := PeersFields(ps);
    TwoFields(f, g);
    assert MessageFields(Peers(ps)) == [f, g];
  }

  /** A message of peers is at least as long as their hosts together. */
  lemma HostsInFrame(ps: seq<Peer>)
    ensures HostsLength(ps) <= Utf8Len(Frame(Peers(ps)))
  {
    var (f, g) := PeersFields(ps);
    PeersText(ps);
    HostsAtLeast(ps);
    assert |ItemsText(PeerValues(ps))| <= |Compact(g.value)| <= |FieldText(g)|;
    Utf8AtLeast(Frame(Peers(ps)));
  }

  // ---------- answers that are too large ----------

  /** A public node with a host as long as the limit completes no conversation: its answer, whoever else
      is in it, is refused. */
  lemma LongOwnHostNeverCompletes(digest: string -> string, t: Talk, dialer: Node, listener: Node)
    requires IsTalk(digest, t, dialer, listener)
    requires listener.config.publicNode && |listener.config.myHost| >= RECV_BUFFER_LIMIT
    ensures !Complete(t.states[|t.moves|])
  {
    var end := t.states[|t.moves|];
    TalkStaysOk(digest, t, dialer, listener, |t.moves|);
    if Complete(end) {
      var answer := end.listener.sent[2];
      HostsInFrame(answer.peers);
      HostIncluded(answer.peers, Me(listener.config));
    }
  }

  lemma {:induction false} HostIncluded(ps: seq<Peer>, p: Peer)
    requires p in ps
    ensures |p.host| <= HostsLength(ps)
  {
    if ps[0] != p {
      HostIncluded(ps[1..], p);
    }
  }

  lemma {:induction false} TwoHostsIncluded(ps: seq<Peer>, p: Peer, q: Peer)
    requires p in ps && q in ps && p != q
    ensures |p.host| + |q.host| <= HostsLength(ps)
  {
    if ps[0] == p {
      HostIncluded(ps[1..], q);
    } else if ps[0] == q {
      HostIncluded(ps[1..], p);
    } else {
      TwoHostsIncluded(ps[1..], p, q);
    }
  }

  /** A node that knows few peers answers with all of them, so two long hosts together make an answer
      that is refused, whatever the shuffle. */
  lemma TwoLongHostsMakeItTooLarge(config: Config, order: seq<Peer>, known: set<Peer>, p: Peer, q: Peer)
    requires Enumerates(order, known) && |order| < MAX_PEERS_PER_REPLY && !config.publicNode
    requires p in known && q in known && p != q && p !in config.banned && q !in config.banned
    requires |p.host| + |q.host| >= RECV_BUFFER_LIMIT
    ensures !Small(Peers(PickedPeers(config, order)))
  {
    PickedPeersFacts(config, order, known);
    UnbannedNoLonger(config, order);
    var reply := PickedPeers(config, order);
    TwoHostsIncluded(reply, p, q);
    HostsInFrame(reply);
  }

  // ---------- and yet each of their hosts can be received ----------

  predicate Plain(s: string) {
    forall c | c in s :: Escape(c) == [c] && Utf8Width(c) == 1
  }

  lemma {:induction false} PlainLength(s: string)
    requires Plain(s)
    ensures EscapeAll(s) == s && Utf8Len(s) == |s|
  {
    if s != "" {
      assert s[0] in s && forall c | c in s[1..] :: c in s;
      PlainLength(s[1..]);
    }
  }

  lemma QuoteLength(s: string)
    requires Plain(s)
    ensures Utf8Len(Quote(s)) == |s| + 2
  {
    PlainLength(s);
    assert Quote(s) == "\"" + s + "\"";
    Utf8Concat("\"", s);
    Utf8Concat("\"" + s, "\"");
    OneWide('"');
  }

  lemma OneWide(c: char)
    requires Utf8Width(c) == 1
    ensures Utf8Len([c]) == 1
  {
    assert [c][1..] == "" && Utf8Len("") == 0;
  }

  lemma FieldLength(f: Field)
    requires Plain(f.key)
    ensures Utf8Len(FieldText(f)) == |f.key| + 3 + Utf8Len(Compact(f.value))
  {
    QuoteLength(f.key);
    OneWide(':');
    Utf8Concat(Quote(f.key), ":");
    Utf8Concat(Quote(f.key) + ":", Compact(f.value));
  }

  lemma WrappedLength(a: string, open: char, close: char)
    requires Utf8Width(open) == 1 && Utf8Width(close) == 1
    ensures Utf8Len([open] + a + [close]) == Utf8Len(a) + 2
  {
    OneWide(open);
    OneWide(close);
    Utf8Concat([open], a);
    Utf8Concat([open] + a, [close]);
  }

  lemma TwoFieldsLength(f: Field, g: Field)
    requires Plain(f.key) && Plain(g.key)
    ensures Utf8Len(Compact(Obj([f, g]))) ==
            |f.key| + |g.key| + 9 + Utf8Len(Compact(f.value)) + Utf8Len(Compact(g.value))
  {
    TwoFields(f, g);
    FieldLength(f);
    FieldLength(g);
    OneWide(',');
    Utf8Concat(",", FieldText(g));
    Utf8Concat(FieldText(f), "," + FieldText(g));
    WrappedLength(FieldText(f) + ("," + FieldText(g)), '{', '}');
  }

  lemma {:induction false} DigitsCount(n: nat, k: nat)
    requires k > 0 && n < TenTo(k)
    ensures |Digits(n)| <= k
  {
    if n >= 10 {
      assert TenTo(0) == 1 && TenTo(k) == 10 * TenTo(k - 1);
      DigitsCount(n / 10, k - 1);
    }
  }

  lemma DigitsLength(port: Port)
    ensures Utf8Len(Digits(port)) <= 20
  {
    assert TenTo(2) == 100 && TenTo(3) == 1000 && TenTo(4) == 10000;
    assert TenTo(5) == 10 * TenTo(4);
    DigitsCount(port, 5);
    Utf8AtLeast(Digits(port));
  }

  predicate Letters(s: string) {
    forall i | 0 <= i < |s| :: 'a' <= s[i] <= 'z' || 'A' <= s[i] <= 'Z'
  }

  lemma LettersArePlain(s: string)
    requires Letters(s)
    ensures Plain(s)
  {
  }

  lemma KeysPlain()
    ensures Plain("type") && Plain("peers") && Plain("host") && Plain("port") && Plain("Peers")
  {
    LettersArePlain("type");
    LettersArePlain("peers");
    LettersArePlain("host");
    LettersArePlain("port");
    LettersArePlain("Peers");
  }

  lemma PeerLength(p: Peer)
    requires Plain(p.host)
    ensures Utf8Len(Compact(PeerValue(p))) <= |p.host| + 39
  {
    KeysPlain();
    QuoteLength(p.host);
    DigitsLength(p.port);
    TwoFieldsLength(Field("host", Str(p.host)), Field("port", Num(p.port)));
  }

  lemma OneItem(v: Value)
    ensures Compact(Arr([v])) == "[" + Compact(v) + "]"
  {
    var items := [v];
    assert items[1..] == [];
    assert ItemsText(items) == Compact(v);
  }

  /** The text of a message of one peer: the tag, and the peer's own text. */
  lemma OnePeerText(p: Peer)
    ensures var (f, g) := PeersFields([p]);
            MessageText(Peers([p])) == Compact(Obj([f, g])) && Compact(g.value) == "[" + Compact(PeerValue(p)) + "]"
  {
    var (f, g) := PeersFields([p]);
    assert MessageFields(Peers([p])) == [f, g];
    assert PeerValues([p]) == [PeerValue(p)];
    OneItem(PeerValue(p));
  }

  lemma OnePeerLength(p: Peer)
    requires Plain(p.host)
    ensures Utf8Len(Frame(Peers([p]))) <= |p.host| + 70
  {
    var (f, g) := PeersFields([p]);
    OnePeerText(p);
    KeysPlain();
    PeerLength(p);
    TagLength(f, f.value.s);
    WrappedLength(Compact(PeerValue(p)), '[', ']');
    TwoFieldsLength(f, g);
    OneWide('\n');
    Utf8Concat(MessageText(Peers([p])), "\n");
  }

  lemma TagLength(f: Field, tag: string)
    requires f.value == Str(tag) && Plain(tag)
    ensures Utf8Len(Compact(f.value)) == |tag| + 2
  {
    QuoteLength(tag);
  }

  /** So a node can be made unable to answer by messages that all arrive: two peers with plain hosts of
      half the limit are each received, and make an answer that is refused. */
  lemma ReceivedHostsMakeItTooLarge(config: Config, p: Peer, q: Peer)
    requires Plain(p.host) && |p.host| == |q.host| == RECV_BUFFER_LIMIT / 2 && Plain(q.host) && p != q
    requires !config.publicNode && p !in config.banned && q !in config.banned
    ensures Small(Peers([p])) && Small(Peers([q])) && !Small(Peers(PickedPeers(config, [p, q])))
  {
    OnePeerLength(p);
    OnePeerLength(q);
    TwoLongHostsMakeItTooLarge(config, [p, q], {p, q}, p, q);
  }

  function Repeated(c: char, n: nat): string {
    if n == 0 then "" else [c] + Repeated(c, n - 1)
  }

  lemma {:induction false} RepeatedIsPlain(n: nat)
    ensures Plain(Repeated('a', n)) && |Repeated('a', n)| == n
  {
    if n > 0 {
      RepeatedIsPlain(n - 1);
    }
  }

  /** There are such peers. */
  lemma SuchHostsExist(half: nat) returns (p: Peer, q: Peer)
    requires half == RECV_BUFFER_LIMIT / 2
    ensures Plain(p.host) && |p.host| == |q.host| == half && Plain(q.host) && p != q
  {
    RepeatedIsPlain(half);
    p, q := Peer(Repeated('a', half), 1), Peer(Repeated('a', half), 2);
  }
}
