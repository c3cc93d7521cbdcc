/** Peers and their text form (src/protocol/peerlist.rs). */
module PeerText {
  import opened Wrappers
  import opened Text

  type Port = n: nat | n < 0x1_0000

  datatype Peer = Peer(host: string, port: Port)

  predicate NoRepeats(ps: seq<Peer>) {
    forall i, j | 0 <= i < j < |ps| :: ps[i] != ps[j]
  }

  datatype Ipv4 = Ipv4(a: nat, b: nat, c: nat, d: nat)

  datatype PeerParseError = MissingSeparator | InvalidPort | InvalidHostname(host: string)

  function Show(peer: Peer): string {
    peer.host + ":" + Digits(peer.port)
  }

  /** `str::parse::<u16>`: an optional plus sign, then digits with any leading zeros. */
  function ParsePort(s: string): Option<Port> {
    var digits := if s != "" && s[0] == '+' then s[1..] else s;
    if digits == "" then None else
    var (n, rest) := ReadDigits(digits, 0);
    if rest == "" && n < 0x1_0000 then Some(n) else None
  }

  /** One to three digits, at most 255, without a leading zero. */
  function ReadOctet(s: string): Option<(nat, string)> {
    var (n, rest) := ReadDigits(s, 0);
    var count := |s| - |rest|;
    if count == 0 || count > 3 || n > 255 || (count > 1 && s[0] == '0') then None else Some((n, rest))
  }

  function ReadDot(s: string): Option<string> {
    if s != "" && s[0] == '.' then Some(s[1..]) else None
  }

  /** `Ipv4Addr::from_str`: strict dotted decimal. */
  function ParseIpv4(s: string): Option<Ipv4> {
    if |s| > 15 then None else
    var (a, s1) :- ReadOctet(s);
    var s2 :- ReadDot(s1);
    var (b, s3) :- ReadOctet(s2);
    var s4 :- ReadDot(s3);
    var (c, s5) :- ReadOctet(s4);
    var s6 :- ReadDot(s5);
    var (d, s7) :- ReadOctet(s6);
    if s7 == "" then Some(Ipv4(a, b, c, d)) else None
  }

  function ShowIpv4(ip: Ipv4): string {
    Digits(ip.a) + "." + (Digits(ip.b) + "." + (Digits(ip.c) + "." + Digits(ip.d)))
  }

  predicate ValidIpv4(ip: Ipv4) {
    ip.a < 256 && ip.b < 256 && ip.c < 256 && ip.d < 256
  }

  function ParsePeer(text: string): Result<Peer, PeerParseError> {
    match SplitLast(Trim(text), ':')
    case None => Err(MissingSeparator)
    case Some((hostRaw, portRaw)) =>
      match ParsePort(portRaw)
      case None => Err(InvalidPort)
      case Some(port) =>
        match ParseIpv4(hostRaw)
        case None => Err(InvalidHostname(hostRaw))
        case Some(ip) => Ok(Peer(ShowIpv4(ip), port))
  }

  // ---------- the round trip ----------

  lemma OctetReads(n: nat, k: string)
    requires n < 256 && (k == "" || !IsDigit(k[0]))
    ensures ReadOctet(Digits(n) + k) == Some((n, k)) && |Digits(n)| <= 3
  {
    ReadsPrinted(n, k);
    if n < 100 {
      assert |Digits(n / 10)| == 1;
    } else {
      assert |Digits(n / 10 / 10)| == 1 && |Digits(n / 10)| == 2;
    }
  }

  lemma OctetShows(s: string)
    requires ReadOctet(s).Some?
    ensures var (n, rest) := ReadOctet(s).value; n < 256 && s == Digits(n) + rest
  {
    var (n, rest) := ReadOctet(s).value;
    var d := DigitValue(s[0]);
    assert DigitChar(d) == s[0];
    if d > 0 {
      ReadShows(s[1..], d);
      assert ReadDigits(s, 0) == ReadDigits(s[1..], d);
      assert [s[0]] + s[1..] == s;
    } else {
      assert ReadDigits(s, 0) == ReadDigits(s[1..], 0);
      assert s == [s[0]] + s[1..];
    }
  }

  /** The address parser is exactly the inverse of the address printer. */
  lemma Ipv4ParsesExactlyItsText(s: string, ip: Ipv4)
    ensures ParseIpv4(s) == Some(ip) <==> ValidIpv4(ip) && s == ShowIpv4(ip)
  {
    if ValidIpv4(ip) && s == ShowIpv4(ip) {
      Ipv4Reads(ip);
    }
    if ParseIpv4(s) == Some(ip) {
      Ipv4Shows(s, ip);
    }
  }

  lemma DotReads(k: string)
    ensures ReadDot("." + k) == Some(k)
  {
    assert ("." + k)[1..] == k;
  }

  lemma Ipv4Reads(ip: Ipv4)
    requires ValidIpv4(ip)
    ensures ParseIpv4(ShowIpv4(ip)) == Some(ip)
  {
    var t4 := Digits(ip.d);
    var t3 := Digits(ip.c) + ("." + t4);
    var t2 := Digits(ip.b) + ("." + t3);
    assert Digits(ip.c) + "." + t4 == t3 && Digits(ip.b) + "." + t3 == t2;
    assert ShowIpv4(ip) == Digits(ip.a) + ("." + t2);
    OctetReads(ip.a, "." + t2);
    OctetReads(ip.b, "." + t3);
    OctetReads(ip.c, "." + t4);
    OctetReads(ip.d, "");
    assert t4 + "" == t4;
    DotReads(t2);
    DotReads(t3);
    DotReads(t4);
  }

  /** An octet, a dot, and what is left. */
  predicate Leads(s: string, n: nat, rest: string) {
    && ReadOctet(s).Some? && ReadOctet(s).value.0 == n
    && ReadDot(ReadOctet(s).value.1) == Some(rest)
  }

  lemma OctetDotShows(s: string, n: nat, rest: string)
    requires Leads(s, n, rest)
    ensures n < 256 && s == Digits(n) + ("." + rest)
  {
    OctetShows(s);
    var after := ReadOctet(s).value.1;
    assert after == "." + after[1..];
  }

  lemma Ipv4Steps(s: string, ip: Ipv4) returns (s2: string, s4: string, s6: string)
    requires ParseIpv4(s) == Some(ip)
    ensures Leads(s, ip.a, s2) && Leads(s2, ip.b, s4) && Leads(s4, ip.c, s6)
    ensures ReadOctet(s6) == Some((ip.d, ""))
  {
    s2 := ReadDot(ReadOctet(s).value.1).value;
    s4 := ReadDot(ReadOctet(s2).value.1).value;
    s6 := ReadDot(ReadOctet(s4).value.1).value;
  }

  lemma LastOctetShows(s: string, n: nat)
    requires ReadOctet(s) == Some((n, ""))
    ensures n < 256 && s == Digits(n)
  {
    OctetShows(s);
    assert Digits(n) + "" == Digits(n);
  }

  lemma OctetsShow(s: string, s2: string, s4: string, s6: string, ip: Ipv4)
    requires Leads(s, ip.a, s2) && Leads(s2, ip.b, s4) && Leads(s4, ip.c, s6) && ReadOctet(s6) == Some((ip.d, ""))
    ensures ValidIpv4(ip) && s == Digits(ip.a) + ("." + s2) && s2 == Digits(ip.b) + ("." + s4)
    ensures s4 == Digits(ip.c) + ("." + s6) && s6 == Digits(ip.d)
  {
    OctetDotShows(s, ip.a, s2);
    OctetDotShows(s2, ip.b, s4);
    OctetDotShows(s4, ip.c, s6);
    LastOctetShows(s6, ip.d);
  }

  lemma Ipv4Shows(s: string, ip: Ipv4)
    requires ParseIpv4(s) == Some(ip)
    ensures ValidIpv4(ip) && s == ShowIpv4(ip)
  {
    var s2, s4, s6 := Ipv4Steps(s, ip);
    OctetsShow(s, s2, s4, s6, ip);
  }

  predicate CanonicalHost(host: string) {
    ParseIpv4(host).Some?
  }

  lemma PortReads(port: Port)
    ensures ParsePort(Digits(port)) == Some(port) && ':' !in Digits(port)
    ensures forall c :: c in Digits(port) ==> IsDigit(c)
  {
    ReadsPrinted(port, "");
    assert Digits(port) + "" == Digits(port);
    DigitsOnly(port);
  }

  /** A peer's text parses back to that peer exactly when its host is a canonical dotted quad. */
  lemma ShownPeerParsesBack(peer: Peer)
    ensures ParsePeer(Show(peer)) == Ok(peer) <==> CanonicalHost(peer.host)
  {
    var text := Show(peer);
    PortReads(peer.port);
    if CanonicalHost(peer.host) {
      Ipv4ParsesExactlyItsText(peer.host, ParseIpv4(peer.host).value);
      assert text[|text| - 1] == Digits(peer.port)[|Digits(peer.port)| - 1];
      assert Digits(peer.port)[|Digits(peer.port)| - 1] in Digits(peer.port);
      assert text[0] == Digits(ParseIpv4(peer.host).value.a)[0];
      assert Trimmed(text);
      TrimIsTrimmed(text);
      SplitLastAt(peer.host, ':', Digits(peer.port));
      assert ParsePeer(text) == Ok(peer);
    }
    if ParsePeer(text) == Ok(peer) {
      ParsedHostIsCanonical(text);
    }
  }

  lemma ParsedHostIsCanonical(text: string)
    requires ParsePeer(text).Ok?
    ensures CanonicalHost(ParsePeer(text).value.host)
  {
    var hostRaw := SplitLast(Trim(text), ':').value.0;
    Ipv4ParsesExactlyItsText(hostRaw, ParseIpv4(hostRaw).value);
  }

  /** Whatever outer white space, plus sign or leading zeros the text has, the parsed peer has a
      canonical host, and printing and parsing it again gives the same peer. */
  lemma ParsingNormalises(text: string)
    requires ParsePeer(text).Ok?
    ensures var peer := ParsePeer(text).value;
            CanonicalHost(peer.host) && ParsePeer(Show(peer)) == Ok(peer)
  {
    ParsedHostIsCanonical(text);
    ShownPeerParsesBack(ParsePeer(text).value);
  }

  // ---------- the accepted texts ----------

  function PaddedPort(plus: bool, zeros: nat, port: Port): string {
    (if plus then "+" else "") + (Zeros(zeros) + Digits(port))
  }

  /** A port is accepted with an optional plus sign and any leading zeros, and with nothing else. */
  lemma PortAcceptedIff(s: string, port: Port)
    ensures ParsePort(s) == Some(port) <==> exists plus, zeros :: s == PaddedPort(plus, zeros, port)
  {
    if ParsePort(s) == Some(port) {
      var plus := s[0] == '+';
      var digits := if plus then s[1..] else s;
      var zeros := DigitsShow(digits);
      assert s == PaddedPort(plus, zeros, port);
    }
    if plus, zeros :| s == PaddedPort(plus, zeros, port) {
      var digits := Zeros(zeros) + Digits(port);
      ZerosRead(zeros, Digits(port));
      PortReads(port);
      assert digits[0] == if zeros == 0 then Digits(port)[0] else '0';
      assert s[if plus then 1 else 0..] == digits;
      ReadsPrinted(port, "");
      assert Digits(port) + "" == Digits(port);
    }
  }

  predicate PaddedPeer(text: string, peer: Peer, before: string, plus: bool, zeros: nat, after: string) {
    && AllSpace(before) && AllSpace(after)
    && text == before + (peer.host + [':'] + PaddedPort(plus, zeros, peer.port)) + after
  }

  lemma {:induction false} ZerosPlain(n: nat)
    ensures forall c | c in Zeros(n) :: c == '0'
  {
    if n > 0 {
      ZerosPlain(n - 1);
    }
  }

  lemma PaddedPortPlain(plus: bool, zeros: nat, port: Port)
    ensures var s := PaddedPort(plus, zeros, port); s != "" && ':' !in s && !IsSpace(s[|s| - 1])
  {
    ZerosPlain(zeros);
    PortReads(port);
    var s, d := PaddedPort(plus, zeros, port), Digits(port);
    assert s[|s| - 1] == d[|d| - 1] && d[|d| - 1] in d;
  }

  lemma CanonicalHostHead(host: string)
    requires CanonicalHost(host)
    ensures host != "" && IsDigit(host[0])
  {
    Ipv4ParsesExactlyItsText(host, ParseIpv4(host).value);
  }

  /** A text is accepted as a peer exactly when it is the peer's canonical address, a colon and its port
      with an optional plus sign and any leading zeros, between any white space. */
  lemma AcceptedIff(text: string, peer: Peer)
    ensures ParsePeer(text) == Ok(peer) <==>
            CanonicalHost(peer.host) && exists before, plus, zeros, after ::
              PaddedPeer(text, peer, before, plus, zeros, after)
  {
    if ParsePeer(text) == Ok(peer) {
      AcceptedIsPadded(text, peer);
    }
    if CanonicalHost(peer.host) {
      if before, plus, zeros, after :| PaddedPeer(text, peer, before, plus, zeros, after) {
        var port := PaddedPort(plus, zeros, peer.port);
        var core := peer.host + [':'] + port;
        PaddedPortPlain(plus, zeros, peer.port);
        CanonicalHostHead(peer.host);
        assert core[0] == peer.host[0] && core[|core| - 1] == port[|port| - 1];
        TrimsToIff(text, core);
        SplitLastAt(peer.host, ':', port);
        PortAcceptedIff(port, peer.port);
        Ipv4ParsesExactlyItsText(peer.host, ParseIpv4(peer.host).value);
      }
    }
  }

  lemma AcceptedIsPadded(text: string, peer: Peer)
    requires ParsePeer(text) == Ok(peer)
    ensures CanonicalHost(peer.host)
    ensures exists before, plus, zeros, after :: PaddedPeer(text, peer, before, plus, zeros, after)
  {
    ParsedHostIsCanonical(text);
    var core := Trim(text);
    var (host, port) := SplitLast(core, ':').value;
    Ipv4ParsesExactlyItsText(host, ParseIpv4(host).value);
    TrimIsTrimmed(text);
    TrimsToIff(text, core);
    var before, after :| AllSpace(before) && AllSpace(after) && text == before + core + after;
    PortAcceptedIff(port, peer.port);
    var plus, zeros :| port == PaddedPort(plus, zeros, peer.port);
    assert PaddedPeer(text, peer, before, plus, zeros, after);
  }
}
