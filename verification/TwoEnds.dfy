/** A dialer and a listener at the two ends of one connection: the handshake, and the message loop that
    follows it, in every interleaving, over the frames each has written. */
module TwoEnds {
  import opened Wrappers
  import opened Messages
  import opened Framing
  import opened Dispatch
  import opened Handshake
  import opened Session

  datatype Phase = SendHello | AwaitHello | SendGetPeers | Looping | Closed(result: Result<(), ProtocolError>)

  /** `sent` is everything this end has written, `read` how many messages of the other end it has taken. */
  datatype Party = Party(node: Node, phase: Phase, read: nat, sent: seq<Message>)

  datatype Pair = Pair(dialer: Party, listener: Party)

  function Start(dialer: Node, listener: Node): Pair {
    Pair(Party(dialer, SendHello, 0, []), Party(listener, AwaitHello, 0, []))
  }

  /** What is read next: the bytes of what the other end has written and this one has not taken. */
  function Incoming(p: Party, other: Party): Result<Message, ProtocolError>
    requires p.read <= |other.sent|
  {
    NextFrame(Stream(other.sent[p.read..])).0
  }

  /** There is something to read, or the other end is gone and reading finds that. */
  predicate Readable(p: Party, other: Party) {
    p.read < |other.sent| || (p.read == |other.sent| && other.phase.Closed?)
  }

  /** Writing does not fail and nothing times out; the peers file takes every line. */
  ghost predicate CanAct(p: Party, other: Party, luck: Luck) {
    match p.phase
    case SendHello => true
    case SendGetPeers => true
    case AwaitHello => Readable(p, other)
    case Looping =>
      && Readable(p, other)
      && Enumerates(luck.order, p.node.log.known)
      && (p.read < |other.sent| && other.sent[p.read].Peers? ==> |other.sent[p.read].peers| <= luck.disk.good)
    case Closed(_) => false
  }

  /** Taking the greeting: anything else ends the handshake. */
  function Welcomed(p: Party, read: Result<Message, ProtocolError>, dials: bool): Party {
    match read
    case Err(e) => p.(phase := Closed(Err(e)))
    case Ok(m) =>
      if m.Hello? then p.(phase := if dials then SendGetPeers else SendHello, read := p.read + 1)
      else p.(phase := Closed(Err(InvalidHandshake)), read := p.read + 1,
              sent := p.sent + if dials then [] else [ExpectedHello("")])
  }

  /** One turn of the message loop. */
  function Looped(digest: string -> string, p: Party, read: Result<Message, ProtocolError>, luck: Luck): Party {
    match read
    case Err(e) =>
      (match FarewellTo(e)
       case Some(m) => p.(phase := Closed(Ok(())), sent := p.sent + [m])
       case None => p.(phase := Closed(Err(e))))
    case Ok(m) =>
      var h := Handle(digest, p.node, m, luck);
      p.(node := After(p.node, h), phase := if h.next.Stop? then Closed(h.next.result) else Looping,
         read := p.read + 1, sent := p.sent + h.replies)
  }

  function Acted(digest: string -> string, p: Party, other: Party, dials: bool, luck: Luck): Party
    requires CanAct(p, other, luck)
  {
    match p.phase
    case SendHello =>
      p.(phase := if dials then AwaitHello else SendGetPeers, sent := p.sent + [Greeting(p.node.config)])
    case AwaitHello => Welcomed(p, Incoming(p, other), dials)
    case SendGetPeers => p.(phase := Looping, sent := p.sent + [GetPeers])
    case Looping => Looped(digest, p, Incoming(p, other), luck)
  }

  datatype Move = Move(byDialer: bool, luck: Luck)

  ghost predicate CanMove(s: Pair, m: Move) {
    if m.byDialer then CanAct(s.dialer, s.listener, m.luck) else CanAct(s.listener, s.dialer, m.luck)
  }

  function Moved(digest: string -> string, s: Pair, m: Move): Pair
    requires CanMove(s, m)
  {
    if m.byDialer then Pair(Acted(digest, s.dialer, s.listener, true, m.luck), s.listener)
    else Pair(s.dialer, Acted(digest, s.listener, s.dialer, false, m.luck))
  }

  datatype Talk = Talk(states: seq<Pair>, moves: seq<Move>)

  ghost predicate MoveAt(digest: string -> string, t: Talk, k: nat)
    requires k < |t.moves| && |t.states| == |t.moves| + 1
  {
    CanMove(t.states[k], t.moves[k]) && t.states[k + 1] == Moved(digest, t.states[k], t.moves[k])
  }

  ghost predicate IsTalk(digest: string -> string, t: Talk, dialer: Node, listener: Node) {
    && |t.states| == |t.moves| + 1 && t.states[0] == Start(dialer, listener)
    && forall k | 0 <= k < |t.moves| :: MoveAt(digest, t, k)
  }

  // ---------- frames below the limit ----------

  predicate SmallUpTo(ms: seq<Message>, n: nat) {
    n <= |ms| && forall i | 0 <= i < n :: Small(ms[i])
  }

  predicate AllSmall(ms: seq<Message>) {
    SmallUpTo(ms, |ms|)
  }

  /** A message arrives exactly when its frame is below the limit. */
  lemma ArrivesIffSmall(p: Party, other: Party)
    requires p.read < |other.sent| && !CarriesObject(other.sent[p.read])
    ensures Incoming(p, other) == Heard(other.sent[p.read])
    ensures Incoming(p, other) == Ok(other.sent[p.read]) <==> Small(other.sent[p.read])
  {
    var m, rest := other.sent[p.read], other.sent[p.read + 1..];
    assert other.sent[p.read..][1..] == rest && other.sent[p.read..][0] == m;
    assert Stream(other.sent[p.read..]) == Frame(m) + Stream(rest);
    FrameRoundTrip(m, Stream(rest));
  }

  lemma NothingArrivesFromClosed(p: Party, other: Party)
    requires p.read == |other.sent|
    ensures Incoming(p, other) == Err(ConnectionClosed)
  {
    assert other.sent[p.read..] == [];
    assert NextFrame("") == (Err(ConnectionClosed), "");
  }

  // ---------- the invariant ----------

  /** A greeting, a request for peers, and then answers; an error is the last thing said. */
  predicate Script(config: Config, sent: seq<Message>) {
    && |sent| <= 4
    && (|sent| > 0 ==> sent[0] == Greeting(config))
    && (|sent| > 1 ==> sent[1] == GetPeers)
    && (forall i | 2 <= i < |sent| :: sent[i].Peers? || sent[i].Error?)
    && (|sent| > 2 && sent[2].Peers? && config.publicNode ==> sent[2].peers != [] && sent[2].peers[0] == Me(config))
  }

  /** How far an end has come decides how much it has written. */
  predicate InStep(p: Party, dials: bool) {
    match p.phase
    case SendHello => |p.sent| == 0 && p.read == if dials then 0 else 1
    case AwaitHello => p.read == 0 && |p.sent| == if dials then 1 else 0
    case SendGetPeers => |p.sent| == 1 && p.read == 1
    case Looping => 1 <= p.read && |p.sent| == (if p.read == 1 then 2 else 3) && (p.read > 1 ==> p.sent[2].Peers?)
    case Closed(_) => true
  }

  /** Once the answer is read, everyone in it that is not banned is known. */
  predicate Learnt(p: Party, other: Party) {
    p.read >= 3 && |other.sent| >= 3 && other.sent[2].Peers? ==>
      Knows(p.node, other.sent[2].peers)
  }

  predicate PartyOk(p: Party, other: Party, config: Config, dials: bool) {
    && p.node.config == config && Script(config, p.sent) && p.read <= 4 && p.read <= |other.sent|
    && InStep(p, dials)
    && (!p.phase.Closed? ==> Learnt(p, other))
  }

  /** An end that has not closed has read frames below the limit only. */
  predicate ReadSmall(p: Party, other: Party) {
    !p.phase.Closed? ==> SmallUpTo(other.sent, p.read)
  }

  predicate PairOk(s: Pair, dialer: Config, listener: Config) {
    PartyOk(s.dialer, s.listener, dialer, true) && PartyOk(s.listener, s.dialer, listener, false)
  }

  /** What handling a message of a script does to a node, and what it replies. */
  predicate HandledAs(before: Node, m: Message, after: Node, replies: seq<Message>) {
    && before.log.known <= after.log.known && after.config == before.config
    && (m.GetPeers? ==>
          && |replies| == 1 && replies[0].Peers?
          && (before.config.publicNode ==> replies[0].peers != [] && replies[0].peers[0] == Me(before.config)))
    && (!m.GetPeers? ==> replies == [])
    && (m.Peers? ==> Knows(after, m.peers))
  }

  lemma HandledInTalk(digest: string -> string, node: Node, m: Message, luck: Luck)
    requires m.GetPeers? || m.Peers? || m.Error?
    requires Enumerates(luck.order, node.log.known) && (m.Peers? ==> |m.peers| <= luck.disk.good)
    ensures var h := Handle(digest, node, m, luck);
            h.next == Continue && HandledAs(node, m, After(node, h), h.replies)
  {
    if m.Peers? {
      PeersAreLearnt(digest, node, m.peers, luck);
    }
  }

  function Took(p: Party, after: Node, replies: seq<Message>): Party {
    p.(node := after, read := p.read + 1, sent := p.sent + replies)
  }

  lemma SmallOneMore(ms: seq<Message>, n: nat)
    requires n < |ms|
    ensures SmallUpTo(ms, n) && Small(ms[n]) ==> SmallUpTo(ms, n + 1)
  {
  }

  lemma AnswerFitsScript(config: Config, sent: seq<Message>, reply: Message)
    requires Script(config, sent) && |sent| == 2 && reply.Peers?
    requires config.publicNode ==> reply.peers != [] && reply.peers[0] == Me(config)
    ensures var now := sent + [reply];
            Script(config, now) && |now| == 3 && now[2].Peers? && sent <= now
  {
    var now := sent + [reply];
    assert now[2] == reply && now[0] == sent[0] && now[1] == sent[1];
  }

  /** The request is the second message of a script: it is answered, and nothing else is. */
  lemma TookScript(p: Party, other: Party, config: Config, otherConfig: Config, dials: bool, after: Node,
                   replies: seq<Message>)
    requires PartyOk(p, other, config, dials) && p.phase.Looping? && Script(otherConfig, other.sent)
    requires p.read < |other.sent| && HandledAs(p.node, other.sent[p.read], after, replies)
    ensures var now := p.sent + replies; Script(config, now) && |now| == 3 && now[2].Peers? && p.sent <= now
  {
    if p.read == 1 {
      AnswerFitsScript(config, p.sent, replies[0]);
      assert replies == [replies[0]];
    } else {
      assert p.sent + [] == p.sent;
    }
  }

  lemma TookLearnt(p: Party, other: Party, config: Config, dials: bool, after: Node, replies: seq<Message>)
    requires PartyOk(p, other, config, dials) && p.phase.Looping?
    requires p.read < |other.sent| && HandledAs(p.node, other.sent[p.read], after, replies)
    ensures Learnt(Took(p, after, replies), other)
  {
    if p.read == 2 && other.sent[2].Peers? {
      assert other.sent[p.read] == other.sent[2];
    }
  }

  lemma TookOk(p: Party, other: Party, config: Config, otherConfig: Config, dials: bool, after: Node,
               replies: seq<Message>)
    requires PartyOk(p, other, config, dials) && p.phase.Looping? && Script(otherConfig, other.sent)
    requires p.read < |other.sent| && HandledAs(p.node, other.sent[p.read], after, replies)
    ensures var q := Took(p, after, replies);
            PartyOk(q, other, config, dials) && Acts(q) == Acts(p) + 1 && p.sent <= q.sent
  {
    TookScript(p, other, config, otherConfig, dials, after, replies);
    TookLearnt(p, other, config, dials, after, replies);
  }

  /** What an end that is about to read gets. */
  predicate Gets(p: Party, other: Party, read: Result<Message, ProtocolError>) {
    && p.read <= |other.sent|
    && (read.Ok? ==> p.read < |other.sent| && read.value == other.sent[p.read] && Small(read.value))
    && (read.Err? && p.read < |other.sent| ==> !Small(other.sent[p.read]))
  }

  lemma IncomingGets(p: Party, other: Party, otherConfig: Config)
    requires Readable(p, other) && Script(otherConfig, other.sent)
    ensures Gets(p, other, Incoming(p, other))
  {
    if p.read == |other.sent| {
      NothingArrivesFromClosed(p, other);
    } else {
      ArrivesIffSmall(p, other);
    }
  }

  lemma WelcomedOk(p: Party, other: Party, config: Config, otherConfig: Config, dials: bool,
                   read: Result<Message, ProtocolError>)
    requires PartyOk(p, other, config, dials) && p.phase.AwaitHello?
    requires Script(otherConfig, other.sent) && Gets(p, other, read)
    ensures var after := Welcomed(p, read, dials);
            PartyOk(after, other, config, dials) && Acts(after) == Acts(p) + 1 && p.sent <= after.sent
    ensures read.Ok? ==> !Welcomed(p, read, dials).phase.Closed?
    ensures ReadSmall(p, other) ==> ReadSmall(Welcomed(p, read, dials), other)
  {
    if read.Ok? {
      SmallOneMore(other.sent, p.read);
    }
  }

  lemma FarewellFitsScript(config: Config, sent: seq<Message>, m: Message)
    requires Script(config, sent) && 2 <= |sent| <= 3 && m.Error?
    ensures Script(config, sent + [m]) && sent <= sent + [m]
  {
    var now := sent + [m];
    assert forall i | 0 <= i < |sent| :: now[i] == sent[i];
    assert now[|sent|] == m;
  }

  lemma LoopedOk(digest: string -> string, p: Party, other: Party, config: Config, otherConfig: Config, dials: bool,
                 read: Result<Message, ProtocolError>, luck: Luck)
    requires PartyOk(p, other, config, dials) && p.phase.Looping? && CanAct(p, other, luck)
    requires Script(otherConfig, other.sent) && Gets(p, other, read)
    ensures var after := Looped(digest, p, read, luck);
            PartyOk(after, other, config, dials) && Acts(after) == Acts(p) + 1 && p.sent <= after.sent
    ensures read.Ok? ==> !Looped(digest, p, read, luck).phase.Closed?
    ensures ReadSmall(p, other) ==> ReadSmall(Looped(digest, p, read, luck), other)
  {
    if read.Ok? {
      var h := Handle(digest, p.node, read.value, luck);
      HandledInTalk(digest, p.node, read.value, luck);
      SmallOneMore(other.sent, p.read);
      TookOk(p, other, config, otherConfig, dials, After(p.node, h), h.replies);
      assert Looped(digest, p, read, luck) == Took(p, After(p.node, h), h.replies);
    } else if FarewellTo(read.error).Some? {
      FarewellFitsScript(config, p.sent, FarewellTo(read.error).value);
    }
  }

  /** An end that acts stays in its script. */
  lemma ActedOk(digest: string -> string, p: Party, other: Party, config: Config, otherConfig: Config, dials: bool,
                luck: Luck)
    requires PartyOk(p, other, config, dials) && Script(otherConfig, other.sent) && CanAct(p, other, luck)
    ensures PartyOk(Acted(digest, p, other, dials, luck), other, config, dials)
    ensures Acts(Acted(digest, p, other, dials, luck)) == Acts(p) + 1
    ensures p.sent <= Acted(digest, p, other, dials, luck).sent
    ensures ReadSmall(p, other) ==> ReadSmall(Acted(digest, p, other, dials, luck), other)
    ensures AllSmall(other.sent) && !other.phase.Closed? ==> !Acted(digest, p, other, dials, luck).phase.Closed?
  {
    match p.phase
    case AwaitHello =>
      IncomingGets(p, other, otherConfig);
      WelcomedOk(p, other, config, otherConfig, dials, Incoming(p, other));
    case Looping =>
      IncomingGets(p, other, otherConfig);
      LoopedOk(digest, p, other, config, otherConfig, dials, Incoming(p, other), luck);
    case _ =>
  }

  /** The other end stays in its script as well: it has read what it has read. */
  lemma OtherOk(other: Party, p: Party, after: Party, otherConfig: Config, dials: bool)
    requires PartyOk(other, p, otherConfig, dials) && p.sent <= after.sent
    ensures PartyOk(other, after, otherConfig, dials)
    ensures ReadSmall(other, p) ==> ReadSmall(other, after)
  {
  }

  /** Acts of an end so far. */
  function Acts(p: Party): nat {
    p.read + (if |p.sent| < 2 then |p.sent| else 2) + if p.phase.Closed? then 1 else 0
  }

  predicate Complete(s: Pair) {
    && s.dialer.phase == Looping && s.listener.phase == Looping
    && s.dialer.read == |s.listener.sent| == 3 && s.listener.read == |s.dialer.sent| == 3
  }

  predicate ReadSmallPair(s: Pair) {
    ReadSmall(s.dialer, s.listener) && ReadSmall(s.listener, s.dialer)
  }

  lemma MovedOk(digest: string -> string, s: Pair, m: Move, dialer: Config, listener: Config)
    requires PairOk(s, dialer, listener) && CanMove(s, m)
    ensures var t := Moved(digest, s, m);
            && PairOk(t, dialer, listener)
            && Acts(t.dialer) + Acts(t.listener) == Acts(s.dialer) + Acts(s.listener) + 1
            && s.dialer.sent <= t.dialer.sent && s.listener.sent <= t.listener.sent
            && (ReadSmallPair(s) ==> ReadSmallPair(t))
  {
    var t := Moved(digest, s, m);
    if m.byDialer {
      ActedOk(digest, s.dialer, s.listener, dialer, listener, true, m.luck);
      OtherOk(s.listener, s.dialer, t.dialer, listener, false);
    } else {
      ActedOk(digest, s.listener, s.dialer, listener, dialer, false, m.luck);
      OtherOk(s.dialer, s.listener, t.listener, dialer, true);
    }
  }

  /** Both ends are in their scripts after `k` steps; if all frames are small, both are open. */
  predicate Good(s: Pair, dialer: Config, listener: Config, k: nat) {
    && PairOk(s, dialer, listener) && Acts(s.dialer) + Acts(s.listener) == k
    && ReadSmallPair(s) && (SmallPair(s) ==> Open(s))
  }

  predicate SmallPair(s: Pair) {
    AllSmall(s.dialer.sent) && AllSmall(s.listener.sent)
  }

  predicate Open(s: Pair) {
    !s.dialer.phase.Closed? && !s.listener.phase.Closed?
  }

  lemma SmallBefore(a: seq<Message>, b: seq<Message>)
    requires a <= b
    ensures AllSmall(b) ==> AllSmall(a)
  {
    assert forall i | 0 <= i < |a| :: a[i] == b[i];
  }

  lemma MoveStaysOpen(digest: string -> string, s: Pair, m: Move, dialer: Config, listener: Config)
    requires PairOk(s, dialer, listener) && CanMove(s, m)
    ensures SmallPair(Moved(digest, s, m)) ==> SmallPair(s) && (Open(s) ==> Open(Moved(digest, s, m)))
  {
    var t := Moved(digest, s, m);
    MovedOk(digest, s, m, dialer, listener);
    SmallBefore(s.dialer.sent, t.dialer.sent);
    SmallBefore(s.listener.sent, t.listener.sent);
    if m.byDialer {
      ActedOk(digest, s.dialer, s.listener, dialer, listener, true, m.luck);
    } else {
      ActedOk(digest, s.listener, s.dialer, listener, dialer, false, m.luck);
    }
  }

  lemma MovedGood(digest: string -> string, t: Talk, k: nat, dialer: Config, listener: Config)
    requires |t.states| == |t.moves| + 1 && k < |t.moves| && MoveAt(digest, t, k)
    requires Good(t.states[k], dialer, listener, k)
    ensures Good(t.states[k + 1], dialer, listener, k + 1)
  {
    var s, m := t.states[k], t.moves[k];
    MovedOk(digest, s, m, dialer, listener);
    MoveStaysOpen(digest, s, m, dialer, listener);
  }

  lemma StartIsGood(dialer: Node, listener: Node)
    ensures Good(Start(dialer, listener), dialer.config, listener.config, 0)
  {
  }

  lemma {:induction false} TalkStaysGood(digest: string -> string, t: Talk, dialer: Node, listener: Node, k: nat)
    requires IsTalk(digest, t, dialer, listener) && k < |t.states|
    ensures Good(t.states[k], dialer.config, listener.config, k)
  {
    if k == 0 {
      StartIsGood(dialer, listener);
    } else {
      TalkStaysGood(digest, t, dialer, listener, k - 1);
      MovedGood(digest, t, k - 1, dialer.config, listener.config);
    }
  }

  /** In every interleaving each end follows its script, whatever the size of the frames, there are no
      more than fourteen steps, and neither end closes as long as every frame is small. */
  lemma TalkStaysOk(digest: string -> string, t: Talk, dialer: Node, listener: Node, k: nat)
    requires IsTalk(digest, t, dialer, listener) && k < |t.states|
    ensures PairOk(t.states[k], dialer.config, listener.config)
    ensures Acts(t.states[k].dialer) + Acts(t.states[k].listener) == k <= 14
    ensures ReadSmallPair(t.states[k]) && (SmallPair(t.states[k]) ==> Open(t.states[k]))
  {
    TalkStaysGood(digest, t, dialer, listener, k);
  }

  // ---------- how a conversation ends ----------

  ghost predicate Stuck(s: Pair) {
    forall m: Move :: !CanMove(s, m)
  }

  /** The end cannot act because it waits for an end that is not gone and whose messages it has all read. */
  predicate Waits(p: Party, other: Party) {
    (p.phase.AwaitHello? || p.phase.Looping?) && p.read == |other.sent| && !other.phase.Closed?
  }

  lemma StuckEnd(s: Pair, byDialer: bool, dialer: Config, listener: Config)
    requires PairOk(s, dialer, listener) && Stuck(s)
    ensures byDialer ==> s.dialer.phase.Closed? || Waits(s.dialer, s.listener)
    ensures !byDialer ==> s.listener.phase.Closed? || Waits(s.listener, s.dialer)
  {
    var p, other := if byDialer then s.dialer else s.listener, if byDialer then s.listener else s.dialer;
    var order := SomeOrder(p.node.log.known);
    var good := if p.read < |other.sent| && other.sent[p.read].Peers? then |other.sent[p.read].peers| else 0;
    var luck := Luck(order, false, Disk(good, 0));
    assert !CanMove(s, Move(byDialer, luck));
  }

  /** No deadlock: two ends that both wait are in the message loop with the whole conversation read. */
  lemma BothWaitingIsComplete(s: Pair, dialer: Config, listener: Config)
    requires PairOk(s, dialer, listener) && Waits(s.dialer, s.listener) && Waits(s.listener, s.dialer)
    ensures Complete(s) && (ReadSmallPair(s) ==> SmallPair(s))
  {
  }

  /** `p` has sent its three messages, and knows everyone in the three of the other end. */
  predicate Exchanged(p: Party, other: Party, config: Config) {
    && p.node.config == config
    && |p.sent| == 3 && p.sent[0] == Greeting(config) && p.sent[1] == GetPeers && p.sent[2].Peers?
    && |other.sent| == 3 && other.sent[2].Peers? && Knows(p.node, other.sent[2].peers)
  }

  /** However the two ends interleave, a conversation that cannot go on is complete if and only if every
      frame sent is below the limit. Complete means ten steps, both ends in the message loop, each
      direction exactly a greeting, a request for peers and an answer, and each end knowing every peer it
      was sent and has not banned. Otherwise both ends are closed: there is no deadlock. */
  lemma CompleteIffAllSmall(digest: string -> string, t: Talk, dialer: Node, listener: Node)
    requires IsTalk(digest, t, dialer, listener) && Stuck(t.states[|t.moves|])
    ensures var end := t.states[|t.moves|];
            && (Complete(end) <==> SmallPair(end))
            && (Complete(end) ==> |t.moves| == 10 && Exchanged(end.dialer, end.listener, dialer.config)
                                  && Exchanged(end.listener, end.dialer, listener.config))
            && (!Complete(end) ==> end.dialer.phase.Closed? && end.listener.phase.Closed?)
  {
    var end := t.states[|t.moves|];
    TalkStaysOk(digest, t, dialer, listener, |t.moves|);
    StuckEnd(end, true, dialer.config, listener.config);
    StuckEnd(end, false, dialer.config, listener.config);
    if Open(end) {
      BothWaitingIsComplete(end, dialer.config, listener.config);
    }
  }
}
