/** A whole connection at either end: the handshake, and then the message loop on what is left of the input
    (src/net/listener.rs, lines 41-51, and src/net/client.rs, lines 42-71). */
module Connections {
  import opened Wrappers
  import opened Text
  import opened Messages
  import opened Framing
  import opened Dispatch
  import opened Handshake
  import opened Session

  /** What an end that dials, or listens, says in the handshake when it reads `read`. */
  function Opening(dials: bool, config: Config, read: Result<Message, ProtocolError>, shown: string): seq<Message> {
    if dials then DialerSays(config, read) else ListenerSays(config, read, shown)
  }

  /** The loop follows if the handshake succeeds and all its writes are whole. */
  function Connection(digest: string -> string, node: Node, dials: bool, shown: string, input: string, timedOut: bool,
                      writes: seq<Write>, lucks: Lucks, wires: Wires): Outcome
    requires |writes| == 2
  {
    var (read, rest) := InTime(input, timedOut);
    var says := Opening(dials, node.config, read, shown);
    var begun := if AllWhole(|says|, writes) then Greeted(read) else Err(Io);
    if begun.Err? then Outcome(node, Out(says, writes), begun)
    else
      var talk := Conversation(digest, node, rest, lucks, wires, 0);
      Outcome(talk.node, Out(says, writes) + talk.sent, talk.result)
  }

  method HandleConnection(d: Dispatcher, digest: string -> string, reader: FrameReader, writer: FrameWriter,
                          timedOut: bool, shown: string, writes: seq<Write>, lucks: Lucks, wires: Wires)
    returns (r: Result<(), ProtocolError>)
    requires |writes| == 2
    modifies reader, writer, d.store, d.peers
    ensures var end := Connection(digest, old(d.View()), false, shown, old(reader.input), timedOut, writes, lucks,
                                  wires);
            d.View() == end.node && writer.output == old(writer.output) + end.sent && r == end.result
  {
    ghost var start, says := writer.output, ListenerSays(d.config, InTime(reader.input, timedOut).0, shown);
    var begun := Inbound(d.config, reader, writer, timedOut, shown, writes);
    if begun.Err? {
      return begun;
    }
    Regroup(start, Out(says, writes), Conversation(digest, d.View(), reader.input, lucks, wires, 0).sent);
    r := RunMessageLoop(d, digest, reader, writer, lucks, wires);
  }

  method DialPeer(d: Dispatcher, digest: string -> string, reader: FrameReader, writer: FrameWriter, connects: bool,
                  timedOut: bool, writes: seq<Write>, lucks: Lucks, wires: Wires)
    returns (r: Result<(), ProtocolError>)
    requires |writes| == 2
    modifies reader, writer, d.store, d.peers
    ensures !connects ==> r == Err(Io) && d.View() == old(d.View()) && writer.output == old(writer.output)
    ensures connects && writes[0].Broken? ==>
              && r == Err(Io) && d.View() == old(d.View())
              && writer.output == old(writer.output) + Kept(Frame(Greeting(d.config)), writes[0])
    ensures connects && writes[0].Whole? ==>
              var end := Connection(digest, old(d.View()), true, "", old(reader.input), timedOut, writes, lucks, wires);
              d.View() == end.node && writer.output == old(writer.output) + end.sent && r == end.result
  {
    ghost var start, says := writer.output, DialerSays(d.config, InTime(reader.input, timedOut).0);
    OneOut(Greeting(d.config), writes);
    var begun := Outbound(d.config, reader, writer, connects, timedOut, writes);
    if begun.Err? {
      return begun;
    }
    Regroup(start, Out(says, writes), Conversation(digest, d.View(), reader.input, lucks, wires, 0).sent);
    r := RunMessageLoop(d, digest, reader, writer, lucks, wires);
  }

  // ---------- connections whose writes are whole ----------

  /** The connection when nothing times out and no write breaks. */
  function Smooth(digest: string -> string, node: Node, dials: bool, shown: string, input: string, lucks: Lucks,
                  wires: Wires): Outcome
  {
    Connection(digest, node, dials, shown, input, false, [Whole, Whole], lucks, wires)
  }

  lemma SmoothIs(digest: string -> string, node: Node, dials: bool, shown: string, input: string, lucks: Lucks,
                 wires: Wires)
    ensures var (read, rest) := NextFrame(input);
            var says := Opening(dials, node.config, read, shown);
            var talk := Conversation(digest, node, rest, lucks, wires, 0);
            Smooth(digest, node, dials, shown, input, lucks, wires) ==
            if Greeted(read).Err? then Outcome(node, Stream(says), Greeted(read))
            else Outcome(talk.node, Stream(says) + talk.sent, talk.result)
  {
    var says := Opening(dials, node.config, NextFrame(input).0, shown);
    WholeOut(says, [Whole, Whole]);
  }

  /** What an end says to any first frame: the dialer its greeting in any case, and both a greeting and a request
      for peers exactly when they hear a greeting; the listener tells a peer that says something else what it
      expected. A frame that is refused, about an object or at the limit, is no greeting. */
  lemma OpeningIs(config: Config, first: Message, rest: string, shown: string)
    ensures var read := NextFrame(Frame(first) + rest).0;
            && Opening(true, config, read, shown) ==
               (if first.Hello? && Small(first) then [Hello(config.port, config.userAgent), GetPeers]
                else [Hello(config.port, config.userAgent)])
            && Opening(false, config, read, shown) ==
               (if first.Hello? && Small(first) then [Hello(config.port, config.userAgent), GetPeers]
                else if Small(first) && !CarriesObject(first) then
                  [Error("INVALID_HANDSHAKE", "expected Hello, got " + shown)]
                else [])
            && (Greeted(read) == Ok(()) <==> first.Hello? && Small(first))
            && (Heard(first).Err? ==> Greeted(read) == Err(Heard(first).error))
            && (Heard(first).Ok? && !first.Hello? ==> Greeted(read) == Err(InvalidHandshake))
            && (first.Hello? && Small(first) ==> NextFrame(Frame(first) + rest).1 == rest)
  {
    FrameRoundTrip(first, rest);
  }

  /** A whole connection of either end, in bytes, to a peer that sends any frames and any bytes: after a greeting
      the end's own greeting and request, the replies to the messages before the first one refused, in order,
      and then what the refused frame, or the rest, gets; without a greeting its opening, and nothing more. */
  lemma ConnectionIsAnswered(digest: string -> string, node: Node, dials: bool, shown: string, first: Message,
                             others: seq<Message>, tail: string, lucks: Lucks, wires: Wires)
    requires NeverBreaks(wires)
    ensures var input := Frame(first) + (Stream(others) + tail);
            var read := NextFrame(input).0;
            var says := Opening(dials, node.config, read, shown);
            var (end, replies) := HandledAll(digest, node, HeardOf(others), lucks, 0);
            Smooth(digest, node, dials, shown, input, lucks, wires) ==
            if !first.Hello? || !Small(first) then Outcome(node, Stream(says), Greeted(read))
            else match Refusal(others)
                 case Some(e) => Outcome(end, Stream(says + replies) + Stream(Farewell(e)), LeftWith(e))
                 case None =>
                   var more := Conversation(digest, end, tail, lucks, wires, Skipped(0, others));
                   Outcome(more.node, Stream(says + replies) + more.sent, more.result)
  {
    var input := Frame(first) + (Stream(others) + tail);
    SmoothIs(digest, node, dials, shown, input, lucks, wires);
    OpeningIs(node.config, first, Stream(others) + tail, shown);
    if first.Hello? && Small(first) {
      var says := Opening(dials, node.config, NextFrame(input).0, shown);
      StreamThenAnything(digest, node, others, tail, lucks, wires, 0);
      var (end, replies) := HandledAll(digest, node, HeardOf(others), lucks, 0);
      StreamConcat(says, replies);
      if Refusal(others).Some? {
        Regroup(Stream(says), Stream(replies), Stream(Farewell(Refusal(others).value)));
      } else {
        Regroup(Stream(says), Stream(replies),
                Conversation(digest, end, tail, lucks, wires, Skipped(0, others)).sent);
      }
    }
  }

  /** A timeout reads nothing and ends the connection: the dialer has greeted, the listener has said nothing. */
  lemma TimedOutConnection(digest: string -> string, node: Node, dials: bool, shown: string, input: string,
                           lucks: Lucks, wires: Wires)
    ensures Connection(digest, node, dials, shown, input, true, [Whole, Whole], lucks, wires) ==
            Outcome(node, Stream(if dials then [Hello(node.config.port, node.config.userAgent)] else []),
                    Err(InvalidHandshake))
  {
    WholeOut(Opening(dials, node.config, Err(InvalidHandshake), shown), [Whole, Whole]);
  }

  lemma {:induction false} OutIsBeginning(ms: seq<Message>, writes: seq<Write>)
    requires |writes| >= |ms|
    ensures Out(ms, writes) <= Stream(ms)
    ensures AllWhole(|ms|, writes) ==> Out(ms, writes) == Stream(ms)
  {
    if ms != [] {
      OutIsBeginning(ms[1..], writes[1..]);
      assert AllWhole(|ms|, writes) ==> AllWhole(|ms| - 1, writes[1..]);
    }
  }

  /** If a write of the handshake breaks, the connection ends with an I/O error, a beginning of its opening is out,
      and the node is as it was. */
  lemma BrokenHandshake(digest: string -> string, node: Node, dials: bool, shown: string, input: string, timedOut: bool,
                        writes: seq<Write>, lucks: Lucks, wires: Wires)
    requires |writes| == 2
    ensures var says := Opening(dials, node.config, InTime(input, timedOut).0, shown);
            !AllWhole(|says|, writes) ==>
              var end := Connection(digest, node, dials, shown, input, timedOut, writes, lucks, wires);
              end.node == node && end.result == Err(Io) && end.sent <= Stream(says)
  {
    OutIsBeginning(Opening(dials, node.config, InTime(input, timedOut).0, shown), writes);
  }
}
