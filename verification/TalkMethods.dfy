/** The two ends of a conversation do what the methods of the handshake and of the message loop do on the bytes
    they receive: in every interleaving, each end is on the way of its own connection. */
module TalkMethods {
  import opened Wrappers
  import opened Text
  import opened Messages
  import opened Framing
  import opened Dispatch
  import opened Handshake
  import opened Session
  import opened Connections
  import opened TwoEnds

  // ---------- messages handled one after the other ----------

  function SetLuck(lucks: Lucks, n: nat, luck: Luck): Lucks {
    (i: nat) => if i == n then luck else lucks(i)
  }

  ghost predicate AgreeBelow(f: Lucks, g: Lucks, bound: nat) {
    forall i: nat | i < bound :: LuckAt(f, i) == LuckAt(g, i)
  }

  lemma {:induction false} HandledAgree(digest: string -> string, node: Node, ms: seq<Message>, f: Lucks, g: Lucks,
                                        n: nat, bound: nat)
    requires n + |ms| <= bound && AgreeBelow(f, g, bound)
    ensures HandledAll(digest, node, ms, f, n) == HandledAll(digest, node, ms, g, n)
    decreases |ms|
  {
    if ms != [] {
      assert LuckAt(f, n) == LuckAt(g, n);
      HandledAgree(digest, After(node, Handle(digest, node, ms[0], LuckAt(f, n))), ms[1..], f, g, Following(n), bound);
    }
  }

  lemma {:induction false} HandledSnoc(digest: string -> string, node: Node, ms: seq<Message>, m: Message, f: Lucks,
                                       n: nat, last: nat)
    requires last == n + |ms|
    ensures var (mid, replies) := HandledAll(digest, node, ms, f, n);
            var h := Handle(digest, mid, m, LuckAt(f, last));
            HandledAll(digest, node, ms + [m], f, n) == (After(mid, h), replies + h.replies)
    decreases |ms|
  {
    if ms == [] {
      OneHandled(digest, node, m, f, n);
      assert ms + [m] == [m];
    } else {
      var h := Handle(digest, node, ms[0], LuckAt(f, n));
      assert (ms + [m])[1..] == ms[1..] + [m] && (ms + [m])[0] == ms[0];
      HandledSnoc(digest, After(node, h), ms[1..], m, f, Following(n), last);
      var (mid, replies) := HandledAll(digest, After(node, h), ms[1..], f, Following(n));
      RegroupMessages(h.replies, replies, Handle(digest, mid, m, LuckAt(f, last)).replies);
    }
  }

  lemma RegroupMessages(a: seq<Message>, b: seq<Message>, c: seq<Message>)
    ensures a + (b + c) == (a + b) + c
  {
  }

  lemma OneHandled(digest: string -> string, node: Node, m: Message, f: Lucks, n: nat)
    ensures var h := Handle(digest, node, m, LuckAt(f, n));
            HandledAll(digest, node, [m], f, n) == (After(node, h), [] + h.replies)
  {
    var h := Handle(digest, node, m, LuckAt(f, n));
    assert [m][1..] == [];
    assert HandledAll(digest, After(node, h), [], f, Following(n)) == (After(node, h), []);
    assert h.replies + [] == [] + h.replies;
  }

  // ---------- being on the way of a connection ----------

  /** The first `n` messages end the connection of whoever reads them: one is refused, or no more come. */
  predicate Ended(other: Party, n: nat) {
    n <= |other.sent| && (Refusal(other.sent[..n]).Some? || (other.phase.Closed? && n == |other.sent|))
  }

  /** What the end has become of messages read after the greeting. */
  predicate Handling(digest: string -> string, p: Party, other: Party, start: Node, lucks: Lucks) {
    && 1 <= p.read <= |other.sent|
    && var (node, replies) := HandledAll(digest, start, other.sent[1..p.read], lucks, 0);
       p.node == node && p.sent == [Greeting(start.config), GetPeers] + replies
  }

  /** The end is as its connection is at the end of a stream of these messages. */
  predicate IsEndOf(digest: string -> string, p: Party, ms: seq<Message>, start: Node, dials: bool, lucks: Lucks,
                    wires: Wires)
    requires p.phase.Closed?
  {
    Smooth(digest, start, dials, "", Stream(ms), lucks, wires) == Outcome(p.node, Stream(p.sent), p.phase.result)
  }

  predicate ClosedAt(digest: string -> string, p: Party, other: Party, start: Node, dials: bool, lucks: Lucks,
                     wires: Wires, n: nat)
    requires p.phase.Closed?
  {
    Ended(other, n) && IsEndOf(digest, p, other.sent[..n], start, dials, lucks, wires)
  }

  ghost predicate Follows(digest: string -> string, p: Party, other: Party, start: Node, dials: bool, lucks: Lucks,
                          wires: Wires)
  {
    match p.phase
    case SendHello => p.node == start && p.sent == []
    case AwaitHello => p.node == start && p.sent == if dials then [Greeting(start.config)] else []
    case SendGetPeers => p.node == start && p.sent == [Greeting(start.config)] && p.read == 1
    case Looping => Handling(digest, p, other, start, lucks)
    case Closed(_) => exists n :: ClosedAt(digest, p, other, start, dials, lucks, wires, n)
  }

  lemma HearsNothing(digest: string -> string, start: Node, dials: bool, lucks: Lucks, wires: Wires)
    ensures Smooth(digest, start, dials, "", "", lucks, wires) ==
            Outcome(start, Stream(if dials then [Greeting(start.config)] else []), Err(ConnectionClosed))
  {
    assert NextFrame("") == (Err(ConnectionClosed), "");
    SmoothIs(digest, start, dials, "", "", lucks, wires);
  }

  lemma SingleStream(m: Message)
    ensures Stream([m]) == Frame(m) + (Stream([]) + "")
  {
    assert [m][1..] == [];
  }

  lemma HearsLargeGreeting(digest: string -> string, start: Node, dials: bool, first: Message, lucks: Lucks,
                           wires: Wires)
    requires first.Hello? && !Small(first) && NeverBreaks(wires)
    ensures Heard(first).Err? && Refusal([first]) == Some(Heard(first).error)
    ensures Smooth(digest, start, dials, "", Stream([first]), lucks, wires) ==
            Outcome(start, Stream(if dials then [Greeting(start.config)] else []), Err(Heard(first).error))
  {
    FrameRoundTrip(first, "");
    SingleStream(first);
    OpeningIs(start.config, first, Stream([]) + "", "");
    ConnectionIsAnswered(digest, start, dials, "", first, [], "", lucks, wires);
  }

  /** An end that waits for a greeting and does not get one is as its connection ends. */
  lemma NotWelcomed(digest: string -> string, p: Party, other: Party, otherConfig: Config, start: Node, dials: bool,
                    lucks: Lucks, wires: Wires)
    requires Follows(digest, p, other, start, dials, lucks, wires) && p.phase.AwaitHello? && p.read == 0
    requires Readable(p, other) && Script(otherConfig, other.sent) && NeverBreaks(wires)
    requires Incoming(p, other).Err?
    ensures Follows(digest, Welcomed(p, Incoming(p, other), dials), other, start, dials, lucks, wires)
  {
    var q := Welcomed(p, Incoming(p, other), dials);
    if other.sent == [] {
      NothingArrivesFromClosed(p, other);
      HearsNothing(digest, start, dials, lucks, wires);
      assert other.sent[..0] == [];
      assert ClosedAt(digest, q, other, start, dials, lucks, wires, 0);
    } else {
      ArrivesIffSmall(p, other);
      var first := other.sent[0];
      HearsLargeGreeting(digest, start, dials, first, lucks, wires);
      assert other.sent[..1] == [first];
      assert ClosedAt(digest, q, other, start, dials, lucks, wires, 1);
    }
  }

  // ---------- in the loop ----------

  lemma RefusalCons(m: Message, rest: seq<Message>)
    ensures Refusal([m] + rest) == match Heard(m) case Err(e) => Some(e) case Ok(_) => Refusal(rest)
    ensures HeardOf([m] + rest) == if Heard(m).Err? then [] else [m] + HeardOf(rest)
  {
    assert ([m] + rest)[0] == m && ([m] + rest)[1..] == rest;
  }

  lemma HeadAndTail(a: seq<Message>, b: seq<Message>)
    requires a != []
    ensures a == [a[0]] + a[1..] && a + b == [a[0]] + (a[1..] + b)
  {
  }

  lemma {:induction false} RefusalSnoc(ms: seq<Message>, m: Message)
    requires Refusal(ms).None? && Heard(m).Err?
    ensures Refusal(ms + [m]) == Some(Heard(m).error) && HeardOf(ms + [m]) == ms
  {
    if ms == [] {
      assert ms + [m] == [m] + [];
      RefusalCons(m, []);
    } else {
      var first, rest := ms[0], ms[1..];
      HeadAndTail(ms, [m]);
      RefusalCons(first, rest);
      RefusalCons(first, rest + [m]);
      RefusalSnoc(rest, m);
    }
  }

  lemma {:induction false} RefusalStays(a: seq<Message>, b: seq<Message>)
    requires Refusal(a).Some?
    ensures Refusal(a + b) == Refusal(a) && HeardOf(a + b) == HeardOf(a)
  {
    var m, rest := a[0], a[1..];
    HeadAndTail(a, b);
    RefusalCons(m, rest);
    RefusalCons(m, rest + b);
    if Heard(m).Ok? {
      RefusalStays(rest, b);
    }
  }

  lemma ScriptArrives(config: Config, sent: seq<Message>, i: nat)
    requires Script(config, sent) && i < |sent| && Small(sent[i])
    ensures Arrives(sent[i])
  {
    ScriptCarriesNoObject(config, sent, i);
  }

  lemma ScriptCarriesNoObject(config: Config, sent: seq<Message>, i: nat)
    requires Script(config, sent) && i < |sent|
    ensures !CarriesObject(sent[i])
  {
  }

  /** Nothing a script holds is refused but for its size. */
  lemma NothingRefused(config: Config, sent: seq<Message>, n: nat)
    requires Script(config, sent) && 1 <= n <= |sent| && SmallUpTo(sent, n)
    ensures Refusal(sent[1..n]).None? && HeardOf(sent[1..n]) == sent[1..n]
  {
    var ms := sent[1..n];
    forall i | 0 <= i < |ms| ensures Arrives(ms[i]) {
      ScriptArrives(config, sent, i + 1);
    }
    RefusalIff(ms);
  }

  /** A connection that gets a greeting, some frames, and the end. */
  lemma StreamIsServed(digest: string -> string, start: Node, dials: bool, ms: seq<Message>, lucks: Lucks,
                       wires: Wires)
    requires ms != [] && ms[0].Hello? && Small(ms[0]) && NeverBreaks(wires)
    ensures var (end, replies) := HandledAll(digest, start, HeardOf(ms[1..]), lucks, 0);
            var e := if Refusal(ms[1..]).Some? then Refusal(ms[1..]).value else ConnectionClosed;
            Smooth(digest, start, dials, "", Stream(ms), lucks, wires) ==
            Outcome(end, Stream([Greeting(start.config), GetPeers] + replies + Farewell(e)), LeftWith(e))
  {
    var others, says := ms[1..], [Greeting(start.config), GetPeers];
    var (end, replies) := HandledAll(digest, start, HeardOf(others), lucks, 0);
    assert Stream(ms) == Frame(ms[0]) + (Stream(others) + "") by {
      assert Stream(others) + "" == Stream(others);
    }
    OpeningIs(start.config, ms[0], Stream(others) + "", "");
    ConnectionIsAnswered(digest, start, dials, "", ms[0], others, "", lucks, wires);
    if Refusal(others).Some? {
      StreamConcat(says + replies, Farewell(Refusal(others).value));
    } else {
      EndOfStream(digest, end, lucks, wires, Skipped(0, others));
      StreamConcat(says + replies, []);
    }
  }

  lemma FarewellSent(digest: string -> string, p: Party, e: ProtocolError, luck: Luck)
    ensures Looped(digest, p, Err(e), luck) == p.(phase := Closed(LeftWith(e)), sent := p.sent + Farewell(e))
  {
    assert p.sent + [] == p.sent;
  }

  /** The messages read so far, and the one that is refused or missing. */
  predicate EndsWith(p: Party, other: Party, e: ProtocolError, n: nat) {
    && Ended(other, n) && 1 <= p.read <= n <= |other.sent| && HeardOf(other.sent[1..n]) == other.sent[1..p.read]
    && Refusal(other.sent[1..n]) == if e == ConnectionClosed then None else Some(e)
  }

  lemma NoneLeft(p: Party, other: Party, otherConfig: Config)
    requires 1 <= p.read == |other.sent| && other.phase.Closed?
    requires Script(otherConfig, other.sent) && SmallUpTo(other.sent, p.read)
    ensures EndsWith(p, other, ConnectionClosed, p.read)
  {
    NothingRefused(otherConfig, other.sent, p.read);
  }

  lemma RefusedAfter(ms: seq<Message>, before: seq<Message>, m: Message)
    requires ms != [] && Heard(ms[0]).Ok? && ms[1..] == before + [m] && Refusal(before).None? && Heard(m).Err?
    ensures Refusal(ms) == Refusal(ms[1..]) == Some(Heard(m).error) && HeardOf(ms[1..]) == before
  {
    RefusalSnoc(before, m);
  }

  lemma FirstIsHeard(config: Config, sent: seq<Message>, n: nat)
    requires Script(config, sent) && 1 <= n <= |sent| && SmallUpTo(sent, n)
    ensures Heard(sent[0]).Ok? && sent[0].Hello? && Small(sent[0])
  {
    ScriptArrives(config, sent, 0);
    HeardIffArrives(sent[0]);
  }

  lemma RefusedIsNoEnd(m: Message)
    requires Heard(m).Err?
    ensures Heard(m).error != ConnectionClosed
  {
  }

  lemma OneMore(sent: seq<Message>, n: nat)
    requires 1 <= n < |sent|
    ensures sent[..n + 1][1..] == sent[1..n + 1] == sent[1..n] + [sent[n]] && sent[..n + 1][0] == sent[0]
  {
  }

  /** The next message is refused, and it is the first. */
  lemma RefusedNext(p: Party, other: Party, otherConfig: Config)
    requires 1 <= p.read < |other.sent| && Script(otherConfig, other.sent) && SmallUpTo(other.sent, p.read)
    requires Heard(other.sent[p.read]).Err?
    ensures Heard(other.sent[p.read]).error != ConnectionClosed
    ensures EndsWith(p, other, Heard(other.sent[p.read]).error, p.read + 1)
  {
    NothingRefused(otherConfig, other.sent, p.read);
    FirstIsHeard(otherConfig, other.sent, p.read);
    RefusedIsNoEnd(other.sent[p.read]);
    OneMore(other.sent, p.read);
    RefusedAfter(other.sent[..p.read + 1], other.sent[1..p.read], other.sent[p.read]);
  }

  /** Leaving the loop with the error that the first `n` messages end in. */
  lemma ClosedInLoop(digest: string -> string, p: Party, other: Party, start: Node, dials: bool, e: ProtocolError,
                     luck: Luck, lucks: Lucks, wires: Wires, n: nat)
    requires Handling(digest, p, other, start, lucks) && NeverBreaks(wires) && EndsWith(p, other, e, n)
    requires other.sent[0].Hello? && Small(other.sent[0])
    ensures ClosedAt(digest, Looped(digest, p, Err(e), luck), other, start, dials, lucks, wires, n)
  {
    var ms := other.sent[..n];
    assert ms[1..] == other.sent[1..n] && ms[0] == other.sent[0];
    StreamIsServed(digest, start, dials, ms, lucks, wires);
    var replies := HandledAll(digest, start, other.sent[1..p.read], lucks, 0).1;
    FarewellSent(digest, p, e, luck);
  }

  /** Reading an error in the loop ends the connection. */
  lemma LoopEnds(digest: string -> string, p: Party, other: Party, otherConfig: Config, start: Node, dials: bool,
                 luck: Luck, lucks: Lucks, wires: Wires) returns (n: nat)
    requires p.phase.Looping? && Handling(digest, p, other, start, lucks) && NeverBreaks(wires)
    requires Readable(p, other) && Script(otherConfig, other.sent) && SmallUpTo(other.sent, p.read)
    requires Incoming(p, other).Err?
    ensures ClosedAt(digest, Looped(digest, p, Incoming(p, other), luck), other, start, dials, lucks, wires, n)
  {
    n := if p.read == |other.sent| then p.read else p.read + 1;
    if p.read == |other.sent| {
      NothingArrivesFromClosed(p, other);
      NoneLeft(p, other, otherConfig);
    } else {
      ArrivesIffSmall(p, other);
      RefusedNext(p, other, otherConfig);
    }
    ClosedInLoop(digest, p, other, start, dials, Incoming(p, other).error, luck, lucks, wires, n);
  }

  /** Reading a message in the loop is one more message handled. */
  lemma LoopGoesOn(digest: string -> string, p: Party, other: Party, start: Node, luck: Luck, lucks: Lucks)
    requires p.phase.Looping? && Handling(digest, p, other, start, lucks) && p.read < |other.sent|
    requires Handle(digest, p.node, other.sent[p.read], luck).next == Continue
    ensures var now := SetLuck(lucks, p.read - 1, luck);
            Handling(digest, Looped(digest, p, Ok(other.sent[p.read]), luck), other, start, now)
  {
    var n: nat := p.read - 1;
    var now, before, m := SetLuck(lucks, n, luck), other.sent[1..p.read], other.sent[p.read];
    assert AgreeBelow(lucks, now, n);
    HandledAgree(digest, start, before, lucks, now, 0, n);
    HandledSnoc(digest, start, before, m, now, 0, n);
    assert other.sent[1..p.read + 1] == before + [m];
    assert LuckAt(now, n) == luck;
    RegroupMessages([Greeting(start.config), GetPeers], HandledAll(digest, start, before, now, 0).1,
                    Handle(digest, p.node, m, luck).replies);
  }

  // ---------- every move ----------

  lemma AwaitFollows(digest: string -> string, p: Party, other: Party, otherConfig: Config, start: Node, dials: bool,
                     lucks: Lucks, wires: Wires)
    requires Follows(digest, p, other, start, dials, lucks, wires) && p.phase.AwaitHello? && p.read == 0
    requires Readable(p, other) && Script(otherConfig, other.sent) && NeverBreaks(wires)
    ensures Follows(digest, Welcomed(p, Incoming(p, other), dials), other, start, dials, lucks, wires)
  {
    IncomingGets(p, other, otherConfig);
    if Incoming(p, other).Err? {
      NotWelcomed(digest, p, other, otherConfig, start, dials, lucks, wires);
    }
  }

  lemma LoopFollows(digest: string -> string, p: Party, other: Party, otherConfig: Config, start: Node, dials: bool,
                    luck: Luck, lucks: Lucks, wires: Wires) returns (now: Lucks)
    requires p.phase.Looping? && Handling(digest, p, other, start, lucks) && NeverBreaks(wires) && InStep(p, dials)
    requires CanAct(p, other, luck) && Script(otherConfig, other.sent) && SmallUpTo(other.sent, p.read)
    ensures Follows(digest, Looped(digest, p, Incoming(p, other), luck), other, start, dials, now, wires)
  {
    IncomingGets(p, other, otherConfig);
    now := lucks;
    if Incoming(p, other).Err? {
      var n := LoopEnds(digest, p, other, otherConfig, start, dials, luck, lucks, wires);
    } else {
      HandledInTalk(digest, p.node, other.sent[p.read], luck);
      LoopGoesOn(digest, p, other, start, luck, lucks);
      now := SetLuck(lucks, p.read - 1, luck);
    }
  }

  lemma NoneHandled(digest: string -> string, p: Party, other: Party, start: Node, lucks: Lucks)
    requires p.node == start && p.sent == [Greeting(start.config)] + [GetPeers] && p.read == 1 <= |other.sent|
    ensures Handling(digest, p, other, start, lucks)
  {
    assert other.sent[1..1] == [];
    assert [Greeting(start.config)] + [GetPeers] == [Greeting(start.config), GetPeers] + [];
  }

  /** An end that acts stays on the way. */
  lemma ActedFollows(digest: string -> string, p: Party, other: Party, otherConfig: Config, start: Node, dials: bool,
                     luck: Luck, lucks: Lucks, wires: Wires) returns (now: Lucks)
    requires PartyOk(p, other, start.config, dials) && Script(otherConfig, other.sent) && ReadSmall(p, other)
    requires CanAct(p, other, luck) && Follows(digest, p, other, start, dials, lucks, wires) && NeverBreaks(wires)
    ensures Follows(digest, Acted(digest, p, other, dials, luck), other, start, dials, now, wires)
  {
    now := lucks;
    match p.phase
    case SendHello => assert [] + [Greeting(start.config)] == [Greeting(start.config)];
    case AwaitHello => AwaitFollows(digest, p, other, otherConfig, start, dials, lucks, wires);
    case SendGetPeers => NoneHandled(digest, Acted(digest, p, other, dials, luck), other, start, lucks);
    case Looping => now := LoopFollows(digest, p, other, otherConfig, start, dials, luck, lucks, wires);
  }

  /** And so does the other one: what it has read is still there. */
  lemma OtherFollows(digest: string -> string, p: Party, other: Party, after: Party, start: Node, dials: bool,
                     lucks: Lucks, wires: Wires)
    requires Follows(digest, p, other, start, dials, lucks, wires) && other.sent <= after.sent
    requires !other.phase.Closed? && p.read <= |other.sent|
    ensures Follows(digest, p, after, start, dials, lucks, wires)
  {
    if p.phase.Looping? {
      SamePrefix(other.sent, after.sent, p.read);
    } else if p.phase.Closed? {
      var n :| ClosedAt(digest, p, other, start, dials, lucks, wires, n);
      SamePrefix(other.sent, after.sent, n);
      assert ClosedAt(digest, p, after, start, dials, lucks, wires, n);
    }
  }

  lemma SamePrefix(a: seq<Message>, b: seq<Message>, n: nat)
    requires a <= b && n <= |a|
    ensures b[..n] == a[..n] && (n > 0 ==> b[1..n] == a[1..n])
  {
  }

  /** Both ends are on the way of their connections. */
  ghost predicate BothFollow(digest: string -> string, s: Pair, dialer: Node, listener: Node, f: Lucks, g: Lucks,
                             wires: Wires)
  {
    && Follows(digest, s.dialer, s.listener, dialer, true, f, wires)
    && Follows(digest, s.listener, s.dialer, listener, false, g, wires)
  }

  lemma MovedFollows(digest: string -> string, s: Pair, m: Move, dialer: Node, listener: Node, f: Lucks, g: Lucks,
                     wires: Wires) returns (f': Lucks, g': Lucks)
    requires PairOk(s, dialer.config, listener.config) && ReadSmallPair(s) && CanMove(s, m) && NeverBreaks(wires)
    requires BothFollow(digest, s, dialer, listener, f, g, wires)
    ensures BothFollow(digest, Moved(digest, s, m), dialer, listener, f', g', wires)
  {
    f', g' := f, g;
    MovedOk(digest, s, m, dialer.config, listener.config);
    var t := Moved(digest, s, m);
    if m.byDialer {
      f' := ActedFollows(digest, s.dialer, s.listener, listener.config, dialer, true, m.luck, f, wires);
      OtherFollows(digest, s.listener, s.dialer, t.dialer, listener, false, g, wires);
    } else {
      g' := ActedFollows(digest, s.listener, s.dialer, dialer.config, listener, false, m.luck, g, wires);
      OtherFollows(digest, s.dialer, s.listener, t.listener, dialer, true, f, wires);
    }
  }

  lemma StepFollows(digest: string -> string, t: Talk, k: nat, dialer: Node, listener: Node, f: Lucks, g: Lucks,
                    wires: Wires) returns (f': Lucks, g': Lucks)
    requires IsTalk(digest, t, dialer, listener) && k < |t.moves| && NeverBreaks(wires)
    requires BothFollow(digest, t.states[k], dialer, listener, f, g, wires)
    ensures BothFollow(digest, t.states[k + 1], dialer, listener, f', g', wires)
  {
    TalkStaysOk(digest, t, dialer, listener, k);
    assert MoveAt(digest, t, k);
    f', g' := MovedFollows(digest, t.states[k], t.moves[k], dialer, listener, f, g, wires);
  }

  lemma {:induction false} TalkFollows(digest: string -> string, t: Talk, dialer: Node, listener: Node, wires: Wires,
                                       k: nat) returns (f: Lucks, g: Lucks)
    requires IsTalk(digest, t, dialer, listener) && k < |t.states| && NeverBreaks(wires)
    ensures BothFollow(digest, t.states[k], dialer, listener, f, g, wires)
  {
    if k == 0 {
      var luck := Luck([], false, Disk(0, 0));
      f, g := (i: nat) => luck, (i: nat) => luck;
    } else {
      f, g := TalkFollows(digest, t, dialer, listener, wires, k - 1);
      f, g := StepFollows(digest, t, k - 1, dialer, listener, f, g, wires);
    }
  }

  // ---------- in bytes ----------

  /** Whatever comes next, a connection that has got what the end has read has said what the end has said, and
      goes on as the end would. */
  ghost predicate GoesOn(digest: string -> string, p: Party, other: Party, start: Node, dials: bool, lucks: Lucks,
                         wires: Wires, tail: string)
    requires 1 <= p.read <= |other.sent|
  {
    var more := Conversation(digest, p.node, tail, lucks, wires, Skipped(0, other.sent[1..p.read]));
    Smooth(digest, start, dials, "", Stream(other.sent[..p.read]) + tail, lucks, wires) ==
    Outcome(more.node, Stream(p.sent) + more.sent, more.result)
  }

  /** The end does what its connection does: an open one in the loop so far, a closed one from beginning to end. */
  ghost predicate DoesAs(digest: string -> string, p: Party, other: Party, start: Node, dials: bool, lucks: Lucks,
                         wires: Wires)
  {
    && (p.phase.Looping? ==> 1 <= p.read <= |other.sent|)
    && (p.phase.Looping? ==> forall tail: string :: GoesOn(digest, p, other, start, dials, lucks, wires, tail))
    && (p.phase.Closed? ==> IsEndOf(digest, p, other.sent, start, dials, lucks, wires))
  }

  lemma LoopingGoesOn(digest: string -> string, p: Party, other: Party, otherConfig: Config, start: Node, dials: bool,
                      lucks: Lucks, wires: Wires, tail: string)
    requires Handling(digest, p, other, start, lucks) && NeverBreaks(wires)
    requires Script(otherConfig, other.sent) && SmallUpTo(other.sent, p.read)
    ensures GoesOn(digest, p, other, start, dials, lucks, wires, tail)
  {
    var ms, others := other.sent[..p.read], other.sent[1..p.read];
    assert ms[1..] == others && ms[0] == other.sent[0];
    Regroup(Frame(ms[0]), Stream(others), tail);
    FirstIsHeard(otherConfig, other.sent, p.read);
    NothingRefused(otherConfig, other.sent, p.read);
    OpeningIs(start.config, ms[0], Stream(others) + tail, "");
    ConnectionIsAnswered(digest, start, dials, "", ms[0], others, tail, lucks, wires);
  }

  /** More messages after one that is refused make no difference. */
  lemma ClosedIsWhole(digest: string -> string, p: Party, other: Party, otherConfig: Config, start: Node, dials: bool,
                      lucks: Lucks, wires: Wires, n: nat)
    requires p.phase.Closed? && ClosedAt(digest, p, other, start, dials, lucks, wires, n) && NeverBreaks(wires)
    requires Script(otherConfig, other.sent)
    ensures IsEndOf(digest, p, other.sent, start, dials, lucks, wires)
  {
    var a, b := other.sent[..n], other.sent[n..];
    SplitAt(other.sent, n);
    if n < |other.sent| {
      MoreAfterRefusal(digest, start, dials, a, b, lucks, wires);
    }
  }

  lemma SplitAt(ms: seq<Message>, n: nat)
    requires n <= |ms|
    ensures ms[..n] + ms[n..] == ms && (n == |ms| ==> ms[..n] == ms) && (n > 0 ==> ms[..n] != [] && ms[..n][0] == ms[0])
    ensures n == 0 ==> ms[..n] == []
  {
  }

  lemma MoreAfterRefusal(digest: string -> string, start: Node, dials: bool, a: seq<Message>, b: seq<Message>,
                         lucks: Lucks, wires: Wires)
    requires a != [] && a[0].Hello? && Refusal(a).Some? && NeverBreaks(wires)
    ensures Smooth(digest, start, dials, "", Stream(a + b), lucks, wires) ==
            Smooth(digest, start, dials, "", Stream(a), lucks, wires)
  {
    var m, others := a[0], a[1..];
    assert (a + b)[0] == m && (a + b)[1..] == others + b;
    HeardIffArrives(m);
    Spread(m, others, b);
    OpeningIs(start.config, m, Stream(others) + "", "");
    OpeningIs(start.config, m, Stream(others + b) + "", "");
    ConnectionIsAnswered(digest, start, dials, "", m, others, "", lucks, wires);
    ConnectionIsAnswered(digest, start, dials, "", m, others + b, "", lucks, wires);
    if Heard(m).Ok? {
      RefusalStays(others, b);
    }
  }

  lemma Spread(m: Message, others: seq<Message>, b: seq<Message>)
    ensures Stream(others + b) + "" == Stream(others + b) && Stream(others) + "" == Stream(others)
  {
  }

  lemma FollowerDoesAs(digest: string -> string, p: Party, other: Party, otherConfig: Config, start: Node, dials: bool,
                       lucks: Lucks, wires: Wires)
    requires Follows(digest, p, other, start, dials, lucks, wires) && NeverBreaks(wires)
    requires Script(otherConfig, other.sent) && ReadSmall(p, other)
    ensures DoesAs(digest, p, other, start, dials, lucks, wires)
  {
    if p.phase.Looping? {
      forall tail: string ensures GoesOn(digest, p, other, start, dials, lucks, wires, tail) {
        LoopingGoesOn(digest, p, other, otherConfig, start, dials, lucks, wires, tail);
      }
    } else if p.phase.Closed? {
      var n :| ClosedAt(digest, p, other, start, dials, lucks, wires, n);
      ClosedIsWhole(digest, p, other, otherConfig, start, dials, lucks, wires, n);
    }
  }

  /** In every state of every conversation both ends do what the code of their connections does on the bytes
      the other one has written: an end in the loop has written what `outbound` or `inbound` and then the loop
      write on what it has read, and is as the loop then is; an end that is closed is as its whole connection
      ends, in its node, in every byte it has written and in its result. */
  lemma TalkIsConnections(digest: string -> string, t: Talk, dialer: Node, listener: Node, wires: Wires, k: nat)
    returns (f: Lucks, g: Lucks)
    requires IsTalk(digest, t, dialer, listener) && k < |t.states| && NeverBreaks(wires)
    ensures DoesAs(digest, t.states[k].dialer, t.states[k].listener, dialer, true, f, wires)
    ensures DoesAs(digest, t.states[k].listener, t.states[k].dialer, listener, false, g, wires)
  {
    f, g := TalkFollows(digest, t, dialer, listener, wires, k);
    TalkStaysOk(digest, t, dialer, listener, k);
    var s := t.states[k];
    FollowerDoesAs(digest, s.dialer, s.listener, listener.config, dialer, true, f, wires);
    FollowerDoesAs(digest, s.listener, s.dialer, dialer.config, listener, false, g, wires);
  }
}
