/** The two sides of the handshake (src/protocol/handshake.rs). */
module Handshake {
  import opened Wrappers
  import opened Text
  import opened Messages
  import opened Framing
  import opened Dispatch

  function Greeting(config: Config): Message {
    Hello(config.port, config.userAgent)
  }

  /** `shown` is how the listener's error message prints what it was sent. */
  function ExpectedHello(shown: string): Message {
    Error("INVALID_HANDSHAKE", "expected Hello, got " + shown)
  }

  /** What is read from the connection before the timeout; a timeout reads nothing. */
  function InTime(input: string, timedOut: bool): (Result<Message, ProtocolError>, string) {
    if timedOut then (Err(InvalidHandshake), input) else NextFrame(input)
  }

  function Greeted(read: Result<Message, ProtocolError>): Result<(), ProtocolError> {
    match read
    case Err(e) => Err(e)
    case Ok(m) => if m.Hello? then Ok(()) else Err(InvalidHandshake)
  }

  /** What the listener says: an answer to a greeting, or what it expected instead. */
  function ListenerSays(config: Config, read: Result<Message, ProtocolError>, shown: string): seq<Message> {
    match read
    case Err(_) => []
    case Ok(m) => if m.Hello? then [Greeting(config), GetPeers] else [ExpectedHello(shown)]
  }

  /** What the dialer says: its greeting, and nothing more unless it is greeted back. */
  function DialerSays(config: Config, read: Result<Message, ProtocolError>): seq<Message> {
    if read.Ok? && read.value.Hello? then [Greeting(config), GetPeers] else [Greeting(config)]
  }

  /** What goes out of some messages when each is written in its own way: all before the first write
      that breaks, and what that one leaves behind. */
  function Out(ms: seq<Message>, writes: seq<Write>): string
    requires |writes| >= |ms|
  {
    if ms == [] then ""
    else if writes[0].Broken? then Kept(Frame(ms[0]), writes[0])
    else Frame(ms[0]) + Out(ms[1..], writes[1..])
  }

  predicate AllWhole(n: nat, writes: seq<Write>)
    requires |writes| >= n
  {
    forall i | 0 <= i < n :: writes[i].Whole?
  }

  lemma {:induction false} WholeOut(ms: seq<Message>, writes: seq<Write>)
    requires |writes| >= |ms| && AllWhole(|ms|, writes)
    ensures Out(ms, writes) == Stream(ms)
  {
    if ms != [] {
      WholeOut(ms[1..], writes[1..]);
    }
  }

  lemma OneOut(a: Message, writes: seq<Write>)
    requires |writes| == 2
    ensures Out([a], writes) == Kept(Frame(a), writes[0])
  {
    assert [a][1..] == [];
    assert Out([], writes[1..]) == "";
    assert Frame(a) + "" == Frame(a);
  }

  lemma TwoOut(a: Message, b: Message, writes: seq<Write>)
    requires |writes| == 2
    ensures Out([a, b], writes) ==
            if writes[0].Broken? then Kept(Frame(a), writes[0]) else Frame(a) + Kept(Frame(b), writes[1])
  {
    assert [a, b][1..] == [b] && [b][1..] == [];
    assert Out([], writes[1..][1..]) == "";
    assert Frame(b) + "" == Frame(b);
  }

  method Inbound(config: Config, reader: FrameReader, writer: FrameWriter, timedOut: bool, shown: string,
                 writes: seq<Write>)
    returns (r: Result<(), ProtocolError>)
    requires |writes| == 2
    modifies reader, writer
    ensures var (read, rest) := InTime(old(reader.input), timedOut);
            var says := ListenerSays(config, read, shown);
            && r == (if AllWhole(|says|, writes) then Greeted(read) else Err(Io)) && reader.input == rest
            && writer.output == old(writer.output) + Out(says, writes)
  {
    if timedOut {
      return Err(InvalidHandshake);
    }
    var hello := reader.ReadFrame();
    if hello.Err? {
      return Err(hello.error);
    }
    if !hello.value.Hello? {
      OneOut(ExpectedHello(shown), writes);
      r := writer.WriteFrame(ExpectedHello(shown), writes[0]);
      if r.Err? {
        return;
      }
      return Err(InvalidHandshake);
    }
    var ours, ask := Greeting(config), GetPeers;
    r := GreetAndAsk(writer, ours, ask, writes);
  }

  method GreetAndAsk(writer: FrameWriter, ours: Message, ask: Message, writes: seq<Write>)
    returns (r: Result<(), ProtocolError>)
    requires |writes| == 2
    modifies writer
    ensures r == if AllWhole(2, writes) then Ok(()) else Err(Io)
    ensures writer.output == old(writer.output) + Out([ours, ask], writes)
  {
    TwoOut(ours, ask, writes);
    ghost var start := writer.output;
    r := writer.WriteFrame(ours, writes[0]);
    if r.Err? {
      return;
    }
    r := writer.WriteFrame(ask, writes[1]);
    Regroup(start, Frame(ours), Kept(Frame(ask), writes[1]));
  }

  /** `connects` tells whether the peer can be reached. */
  method Outbound(config: Config, reader: FrameReader, writer: FrameWriter, connects: bool, timedOut: bool,
                  writes: seq<Write>)
    returns (r: Result<(), ProtocolError>)
    requires |writes| == 2
    modifies reader, writer
    ensures !connects ==> r == Err(Io) && reader.input == old(reader.input) && writer.output == old(writer.output)
    ensures connects && writes[0].Broken? ==>
              && r == Err(Io) && reader.input == old(reader.input)
              && writer.output == old(writer.output) + Out([Greeting(config)], writes)
    ensures connects && writes[0].Whole? ==>
              var (read, rest) := InTime(old(reader.input), timedOut);
              var says := DialerSays(config, read);
              && r == (if AllWhole(|says|, writes) then Greeted(read) else Err(Io)) && reader.input == rest
              && writer.output == old(writer.output) + Out(says, writes)
  {
    if !connects {
      return Err(Io);
    }
    var ours, ask := Greeting(config), GetPeers;
    OneOut(ours, writes);
    TwoOut(ours, ask, writes);
    ghost var start := writer.output;
    r := writer.WriteFrame(ours, writes[0]);
    if r.Err? {
      return;
    }
    if timedOut {
      return Err(InvalidHandshake);
    }
    var hello := reader.ReadFrame();
    if hello.Err? {
      return Err(hello.error);
    }
    if !hello.value.Hello? {
      return Err(InvalidHandshake);
    }
    r := writer.WriteFrame(ask, writes[1]);
    Regroup(start, Frame(ours), Kept(Frame(ask), writes[1]));
  }

  /** A greeting opens the other side's handshake if and only if its frame is below the limit, whatever
      follows it, and leaves the rest for the message loop; nothing else does. */
  lemma GreetingIsHeard(m: Message, rest: string)
    ensures Greeted(NextFrame(Frame(m) + rest).0).Ok? <==> m.Hello? && Small(m)
    ensures m.Hello? && Small(m) ==> NextFrame(Frame(m) + rest).1 == rest
  {
    FrameRoundTrip(m, rest);
  }
}
