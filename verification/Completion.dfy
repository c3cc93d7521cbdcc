/** Which pairs of nodes always complete their conversation, stated of the two nodes as they start. */
module Completion {
  import opened Wrappers
  import opened Json
  import opened JsonText
  import opened PeerText
  import opened Messages
  import opened Framing
  import opened Dispatch
  import opened Handshake
  import opened Session
  import opened TwoEnds
  import opened ReplySizes

  type Orders = iset<seq<Peer>>

  /** The orders in which a node may enumerate its map. */
  ghost function OrdersOf(node: Node): Orders {
    iset order | Enumerates(order, node.log.known)
  }

  function AnswerIn(node: Node, order: seq<Peer>): Message {
    Peers(PickedPeers(node.config, order))
  }

  /** The greeting and every possible answer to a request for peers are below the limit. */
  ghost predicate AlwaysFits(node: Node) {
    Small(Greeting(node.config)) && forall order | order in OrdersOf(node) :: Small(AnswerIn(node, order))
  }

  ghost predicate AlwaysCompletes(digest: string -> string, dialer: Node, listener: Node) {
    forall t | IsTalk(digest, t, dialer, listener) && Stuck(Now(t)) :: Complete(Now(t))
  }

  function Now(t: Talk): Pair
    requires |t.states| == |t.moves| + 1
  {
    t.states[|t.moves|]
  }

  // ---------- an answer is made from the map as it was at the start ----------

  ghost predicate AnsweredFrom(m: Message, start: Node, orders: Orders) {
    exists order | order in orders :: m == AnswerIn(start, order)
  }

  /** Each end answers before it reads the answer of the other. */
  ghost predicate Answers(p: Party, start: Node, orders: Orders) {
    && p.node.config == start.config && (p.read < 3 && !p.phase.Closed? ==> p.node.log == start.log)
    && (|p.sent| > 2 && p.sent[2].Peers? ==> AnsweredFrom(p.sent[2], start, orders))
  }

  /** When the end answers, it enumerates its map in one of the orders given. */
  predicate Prefers(p: Party, luck: Luck, orders: Orders) {
    p.phase.Looping? && p.read == 1 ==> luck.order in orders
  }

  /** Reading a message of a script in the loop. */
  lemma TookAnswers(digest: string -> string, p: Party, m: Message, luck: Luck, start: Node, orders: Orders)
    requires Answers(p, start, orders) && p.phase.Looping? && InStep(p, true) && Prefers(p, luck, orders)
    requires if p.read == 1 then m.GetPeers? else m.Peers? || m.Error?
    ensures var h := Handle(digest, p.node, m, luck);
            Answers(Took(p, After(p.node, h), h.replies), start, orders)
  {
    var h := Handle(digest, p.node, m, luck);
    if p.read == 1 {
      assert h.replies == [AnswerIn(start, luck.order)];
      assert AnsweredFrom(h.replies[0], start, orders);
    } else {
      assert p.sent + h.replies == p.sent;
    }
  }

  lemma LoopedAnswers(digest: string -> string, p: Party, other: Party, otherConfig: Config,
                      read: Result<Message, ProtocolError>, luck: Luck, start: Node, orders: Orders)
    requires Answers(p, start, orders) && p.phase.Looping? && InStep(p, true) && Prefers(p, luck, orders)
    requires CanAct(p, other, luck) && Script(otherConfig, other.sent) && Gets(p, other, read)
    ensures Answers(Looped(digest, p, read, luck), start, orders)
  {
    if read.Ok? {
      HandledInTalk(digest, p.node, read.value, luck);
      TookAnswers(digest, p, read.value, luck, start, orders);
    }
  }

  lemma ActedAnswers(digest: string -> string, p: Party, other: Party, otherConfig: Config, dials: bool, luck: Luck,
                     start: Node, orders: Orders)
    requires Answers(p, start, orders) && InStep(p, dials) && Prefers(p, luck, orders)
    requires CanAct(p, other, luck) && Script(otherConfig, other.sent)
    ensures Answers(Acted(digest, p, other, dials, luck), start, orders)
  {
    if p.phase.AwaitHello? || p.phase.Looping? {
      IncomingGets(p, other, otherConfig);
    }
    if p.phase.Looping? {
      LoopedAnswers(digest, p, other, otherConfig, Incoming(p, other), luck, start, orders);
    }
  }

  // ---------- whole conversations ----------

  ghost predicate BothAnswer(s: Pair, dialer: Node, listener: Node, d: Orders, l: Orders) {
    && PairOk(s, dialer.config, listener.config)
    && Answers(s.dialer, dialer, d) && Answers(s.listener, listener, l)
  }

  predicate MovePrefers(s: Pair, m: Move, d: Orders, l: Orders) {
    if m.byDialer then Prefers(s.dialer, m.luck, d) else Prefers(s.listener, m.luck, l)
  }

  lemma MovedAnswers(digest: string -> string, s: Pair, m: Move, dialer: Node, listener: Node, d: Orders, l: Orders)
    requires BothAnswer(s, dialer, listener, d, l) && CanMove(s, m) && MovePrefers(s, m, d, l)
    ensures BothAnswer(Moved(digest, s, m), dialer, listener, d, l)
  {
    MovedOk(digest, s, m, dialer.config, listener.config);
    if m.byDialer {
      ActedAnswers(digest, s.dialer, s.listener, listener.config, true, m.luck, dialer, d);
    } else {
      ActedAnswers(digest, s.listener, s.dialer, dialer.config, false, m.luck, listener, l);
    }
  }

  lemma StartAnswers(dialer: Node, listener: Node, d: Orders, l: Orders)
    ensures BothAnswer(Start(dialer, listener), dialer, listener, d, l)
  {
  }

  /** The map an end answers from is the one it started with, so any move enumerates that. */
  lemma AnyMovePrefers(s: Pair, m: Move, dialer: Node, listener: Node)
    requires BothAnswer(s, dialer, listener, OrdersOf(dialer), OrdersOf(listener)) && CanMove(s, m)
    ensures MovePrefers(s, m, OrdersOf(dialer), OrdersOf(listener))
  {
  }

  ghost predicate Preferred(t: Talk, d: Orders, l: Orders)
    requires |t.states| == |t.moves| + 1
  {
    forall k | 0 <= k < |t.moves| :: MovePrefers(t.states[k], t.moves[k], d, l)
  }

  lemma StepAnswers(digest: string -> string, t: Talk, k: nat, dialer: Node, listener: Node, d: Orders, l: Orders)
    requires IsTalk(digest, t, dialer, listener) && k < |t.moves| && Preferred(t, d, l)
    requires BothAnswer(t.states[k], dialer, listener, d, l)
    ensures BothAnswer(t.states[k + 1], dialer, listener, d, l)
  {
    assert MoveAt(digest, t, k) && MovePrefers(t.states[k], t.moves[k], d, l);
    MovedAnswers(digest, t.states[k], t.moves[k], dialer, listener, d, l);
  }

  lemma {:induction false} TalkAnswers(digest: string -> string, t: Talk, dialer: Node, listener: Node,
                                       d: Orders, l: Orders, k: nat)
    requires IsTalk(digest, t, dialer, listener) && k < |t.states| && Preferred(t, d, l)
    ensures BothAnswer(t.states[k], dialer, listener, d, l)
  {
    if k == 0 {
      StartAnswers(dialer, listener, d, l);
    } else {
      TalkAnswers(digest, t, dialer, listener, d, l, k - 1);
      StepAnswers(digest, t, k - 1, dialer, listener, d, l);
    }
  }

  // ---------- if everything fits ----------

  lemma RequestFits(m: Message)
    requires m.GetPeers?
    ensures Small(m)
  {
    var f := Field("type", Str("GetPeers"));
    LettersArePlain(f.key);
    LettersArePlain(f.value.s);
    TagFieldLength(f, f.value.s);
    assert MessageText(m) == Compact(Obj([f]));
    OneWide('\n');
    Utf8Concat(MessageText(m), "\n");
  }

  lemma TagFieldLength(f: Field, tag: string)
    requires f.value == Str(tag) && Plain(tag) && Plain(f.key)
    ensures Utf8Len(Compact(Obj([f]))) == |f.key| + |tag| + 7
  {
    var fs := [f];
    assert fs[1..] == [] && FieldsText(fs) == FieldText(f);
    TagLength(f, tag);
    FieldLength(f);
    WrappedLength(FieldText(f), '{', '}');
  }

  lemma AnswerFits(m: Message, start: Node)
    requires AlwaysFits(start) && AnsweredFrom(m, start, OrdersOf(start))
    ensures Small(m)
  {
    var order :| order in OrdersOf(start) && m == AnswerIn(start, order);
  }

  lemma GreetingFits(m: Message, start: Node)
    requires AlwaysFits(start) && m == Greeting(start.config)
    ensures Small(m)
  {
  }

  /** What an open end of a conversation has sent: it fits. */
  lemma SentFits(p: Party, start: Node, dials: bool, i: nat)
    requires Answers(p, start, OrdersOf(start)) && Script(start.config, p.sent) && InStep(p, dials) && !p.phase.Closed?
    requires AlwaysFits(start) && i < |p.sent|
    ensures Small(p.sent[i])
  {
    if i == 0 {
      GreetingFits(p.sent[i], start);
    } else if i == 1 {
      RequestFits(p.sent[i]);
    } else {
      AnswerFits(p.sent[i], start);
    }
  }

  lemma OpenFits(p: Party, start: Node, dials: bool)
    requires Answers(p, start, OrdersOf(start)) && Script(start.config, p.sent) && InStep(p, dials) && !p.phase.Closed?
    requires AlwaysFits(start)
    ensures AllSmall(p.sent)
  {
    forall i | 0 <= i < |p.sent| ensures Small(p.sent[i]) {
      SentFits(p, start, dials, i);
    }
  }

  /** Both ends are open, everything sent is small, and the answers are made from the maps at the start. */
  ghost predicate Fine(s: Pair, dialer: Node, listener: Node) {
    Open(s) && SmallPair(s) && BothAnswer(s, dialer, listener, OrdersOf(dialer), OrdersOf(listener))
  }

  lemma MovedFine(digest: string -> string, s: Pair, m: Move, dialer: Node, listener: Node)
    requires AlwaysFits(dialer) && AlwaysFits(listener) && CanMove(s, m) && Fine(s, dialer, listener)
    ensures Fine(Moved(digest, s, m), dialer, listener)
  {
    var t := Moved(digest, s, m);
    AnyMovePrefers(s, m, dialer, listener);
    MovedAnswers(digest, s, m, dialer, listener, OrdersOf(dialer), OrdersOf(listener));
    if m.byDialer {
      ActedOk(digest, s.dialer, s.listener, dialer.config, listener.config, true, m.luck);
    } else {
      ActedOk(digest, s.listener, s.dialer, listener.config, dialer.config, false, m.luck);
    }
    OpenFits(t.dialer, dialer, true);
    OpenFits(t.listener, listener, false);
  }

  /** The start is in the set, and no move leaves it. */
  ghost predicate Closes(digest: string -> string, dialer: Node, listener: Node, all: iset<Pair>) {
    Start(dialer, listener) in all && forall s, m | s in all && CanMove(s, m) :: Moved(digest, s, m) in all
  }

  lemma StepStaysIn(digest: string -> string, t: Talk, dialer: Node, listener: Node, all: iset<Pair>, k: nat)
    requires IsTalk(digest, t, dialer, listener) && Closes(digest, dialer, listener, all) && k < |t.moves|
    ensures t.states[k] in all ==> t.states[k + 1] in all
  {
    assert MoveAt(digest, t, k);
  }

  lemma {:induction false} TalkStaysIn(digest: string -> string, t: Talk, dialer: Node, listener: Node,
                                       all: iset<Pair>, k: nat)
    requires IsTalk(digest, t, dialer, listener) && Closes(digest, dialer, listener, all) && k < |t.states|
    ensures t.states[k] in all
  {
    if k > 0 {
      TalkStaysIn(digest, t, dialer, listener, all, k - 1);
      StepStaysIn(digest, t, dialer, listener, all, k - 1);
    }
  }

  lemma TalkStaysFine(digest: string -> string, t: Talk, dialer: Node, listener: Node, k: nat)
    requires AlwaysFits(dialer) && AlwaysFits(listener)
    requires IsTalk(digest, t, dialer, listener) && k < |t.states|
    ensures SmallPair(t.states[k])
  {
    var all := iset s | Fine(s, dialer, listener);
    StartAnswers(dialer, listener, OrdersOf(dialer), OrdersOf(listener));
    forall s, m | s in all && CanMove(s, m) ensures Moved(digest, s, m) in all {
      MovedFine(digest, s, m, dialer, listener);
    }
    TalkStaysIn(digest, t, dialer, listener, all, k);
  }

  // ---------- if everything completes ----------

  /** The same move, but enumerating the map in the order given if the move is an answer. */
  function Ordered(s: Pair, m: Move, d: seq<Peer>, l: seq<Peer>): Move {
    var p, order := if m.byDialer then s.dialer else s.listener, if m.byDialer then d else l;
    if p.phase.Looping? && p.read == 1 then m.(luck := m.luck.(order := order)) else m
  }

  lemma OrderedCanMove(s: Pair, m: Move, dialer: Node, listener: Node, d: seq<Peer>, l: seq<Peer>)
    requires CanMove(s, m) && BothAnswer(s, dialer, listener, iset{d}, iset{l})
    requires d in OrdersOf(dialer) && l in OrdersOf(listener)
    ensures CanMove(s, Ordered(s, m, d, l)) && MovePrefers(s, Ordered(s, m, d, l), iset{d}, iset{l})
  {
  }

  lemma Appended<T>(xs: seq<T>, x: T, k: nat)
    requires k <= |xs|
    ensures (xs + [x])[k] == if k < |xs| then xs[k] else x
  {
  }

  function WithMove(digest: string -> string, t: Talk, m: Move): Talk
    requires |t.states| == |t.moves| + 1 && CanMove(Now(t), m)
  {
    Talk(t.states + [Moved(digest, Now(t), m)], t.moves + [m])
  }

  lemma MoveOfBoth(digest: string -> string, t: Talk, m: Move, k: nat)
    requires |t.states| == |t.moves| + 1 && CanMove(Now(t), m) && k <= |t.moves|
    ensures var e := WithMove(digest, t, m);
            && e.states[k] == t.states[k] && e.moves[k] == (if k < |t.moves| then t.moves[k] else m)
            && e.states[k + 1] == if k < |t.moves| then t.states[k + 1] else Moved(digest, Now(t), m)
  {
    var next := Moved(digest, Now(t), m);
    Appended(t.states, next, k);
    Appended(t.states, next, k + 1);
    Appended(t.moves, m, k);
  }

  lemma Continued(digest: string -> string, t: Talk, m: Move, dialer: Node, listener: Node, d: Orders, l: Orders)
    returns (e: Talk)
    requires IsTalk(digest, t, dialer, listener) && Preferred(t, d, l)
    requires CanMove(Now(t), m) && MovePrefers(Now(t), m, d, l)
    ensures IsTalk(digest, e, dialer, listener) && Preferred(e, d, l) && |e.moves| == |t.moves| + 1
  {
    e := WithMove(digest, t, m);
    MoveOfBoth(digest, t, m, 0);
    forall k | 0 <= k < |e.moves| ensures MoveAt(digest, e, k) && MovePrefers(e.states[k], e.moves[k], d, l) {
      MoveOfBoth(digest, t, m, k);
      assert k < |t.moves| ==> MoveAt(digest, t, k) && MovePrefers(t.states[k], t.moves[k], d, l);
    }
  }

  /** Some conversation in which the two ends answer in the orders given goes on until it cannot. */
  lemma {:induction false} SomeTalk(digest: string -> string, t: Talk, dialer: Node, listener: Node,
                                    d: seq<Peer>, l: seq<Peer>) returns (e: Talk)
    requires IsTalk(digest, t, dialer, listener) && Preferred(t, iset{d}, iset{l})
    requires d in OrdersOf(dialer) && l in OrdersOf(listener)
    ensures IsTalk(digest, e, dialer, listener) && Preferred(e, iset{d}, iset{l}) && Stuck(Now(e))
    decreases if |t.moves| > 14 then 0 else 15 - |t.moves|
  {
    TalkStaysOk(digest, t, dialer, listener, |t.moves|);
    if Stuck(Now(t)) {
      e := t;
    } else {
      var m :| CanMove(Now(t), m);
      TalkAnswers(digest, t, dialer, listener, iset{d}, iset{l}, |t.moves|);
      OrderedCanMove(Now(t), m, dialer, listener, d, l);
      e := Continued(digest, t, Ordered(Now(t), m, d, l), dialer, listener, iset{d}, iset{l});
      e := SomeTalk(digest, e, dialer, listener, d, l);
    }
  }

  lemma CompletesOnlyIfFits(digest: string -> string, dialer: Node, listener: Node, d: seq<Peer>, l: seq<Peer>)
    requires AlwaysCompletes(digest, dialer, listener) && d in OrdersOf(dialer) && l in OrdersOf(listener)
    ensures Small(Greeting(dialer.config)) && Small(AnswerIn(dialer, d))
    ensures Small(Greeting(listener.config)) && Small(AnswerIn(listener, l))
  {
    var t := SomeTalk(digest, Talk([Start(dialer, listener)], []), dialer, listener, d, l);
    CompleteIffAllSmall(digest, t, dialer, listener);
    TalkAnswers(digest, t, dialer, listener, iset{d}, iset{l}, |t.moves|);
    var end := Now(t);
    assert Complete(end) && SmallPair(end);
    assert end.dialer.sent[2] == AnswerIn(dialer, d) && end.listener.sent[2] == AnswerIn(listener, l);
    assert end.dialer.sent[0] == Greeting(dialer.config) && end.listener.sent[0] == Greeting(listener.config);
  }

  /** Decided before anything is said: every conversation between two nodes completes, however they
      interleave and shuffle, if and only if both greetings are below the limit and so is every answer
      that either can make from the map and the ban list it starts with. What it learns from the other
      end does not matter: each answers before it reads the other's answer. */
  lemma AlwaysCompletesIffFits(digest: string -> string, dialer: Node, listener: Node)
    ensures AlwaysCompletes(digest, dialer, listener) <==> AlwaysFits(dialer) && AlwaysFits(listener)
  {
    if AlwaysFits(dialer) && AlwaysFits(listener) {
      forall t | IsTalk(digest, t, dialer, listener) && Stuck(Now(t)) ensures Complete(Now(t)) {
        TalkStaysFine(digest, t, dialer, listener, |t.moves|);
        CompleteIffAllSmall(digest, t, dialer, listener);
      }
    }
    if AlwaysCompletes(digest, dialer, listener) {
      var d0 := SomeOrder(dialer.log.known);
      var l0 := SomeOrder(listener.log.known);
      CompletesOnlyIfFits(digest, dialer, listener, d0, l0);
      forall d | d in OrdersOf(dialer) ensures Small(AnswerIn(dialer, d)) {
        CompletesOnlyIfFits(digest, dialer, listener, d, l0);
      }
      forall l | l in OrdersOf(listener) ensures Small(AnswerIn(listener, l)) {
        CompletesOnlyIfFits(digest, dialer, listener, d0, l);
      }
    }
  }
}
