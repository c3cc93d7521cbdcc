/** The message loop of one connection, over the bytes it receives (src/net/dispatch.rs, lines 32-118). */
module Session {
  import opened Wrappers
  import opened Text
  import opened Messages
  import opened Framing
  import opened Dispatch

  /** The error message sent before leaving the loop, for the two read errors that get one. */
  function FarewellTo(e: ProtocolError): Option<Message> {
    match e
    case InvalidFormat => Some(Error("INVALID_FORMAT", "invalid format"))
    case OversizedFrame => Some(Error("OVERSIZED_FRAME", "frame too large (max 512 KiB)"))
    case _ => None
  }

  function Farewell(e: ProtocolError): seq<Message> {
    match FarewellTo(e)
    case Some(m) => [m]
    case None => []
  }

  /** The result of a loop left for a read error: the two that get an answer count as a regular end. */
  function LeftWith(e: ProtocolError): Result<(), ProtocolError> {
    if FarewellTo(e).Some? then Ok(()) else Err(e)
  }

  type Lucks = nat -> Luck

  function LuckAt(lucks: Lucks, n: nat): Luck {
    lucks(n)
  }

  /** How the write of each turn goes. */
  type Wires = nat -> Write

  function WireAt(wires: Wires, n: nat): Write {
    wires(n)
  }

  function Following(n: nat): nat {
    n + 1
  }

  /** The node after one message that is handled without interference. */
  function After(node: Node, h: Handled): Node {
    match h.next
    case PutNext(id, raw) => Node(node.config, node.store[id := raw], h.log)
    case _ => Node(node.config, node.store, h.log)
  }

  datatype Outcome = Outcome(node: Node, sent: string, result: Result<(), ProtocolError>)

  type Left = Option<Result<(), ProtocolError>>

  /** What one turn says: a single message, or nothing. */
  function SaidFor(replies: seq<Message>, write: Write): string {
    if replies == [] then "" else Kept(Frame(replies[0]), write)
  }

  /** A write that breaks ends the loop. */
  function LeftAfter(replies: seq<Message>, write: Write, left: Left): Left {
    if replies != [] && write.Broken? then Some(Err(Io)) else left
  }

  /** One turn of the loop: the node, what is sent, and the result if the loop is left. */
  function Turn(digest: string -> string, node: Node, read: Result<Message, ProtocolError>, luck: Luck, write: Write)
    : (Node, string, Left)
  {
    match read
    case Err(e) =>
      (match FarewellTo(e)
       case Some(m) => (node, SaidFor([m], write), LeftAfter([m], write, Some(Ok(()))))
       case None => (node, "", Some(Err(e))))
    case Ok(m) =>
      var h := Handle(digest, node, m, luck);
      (After(node, h), SaidFor(h.replies, write),
       LeftAfter(h.replies, write, if h.next.Stop? then Some(h.next.result) else None))
  }

  /** The whole loop on the input left, from its `n`-th message on. */
  function Conversation(digest: string -> string, node: Node, input: string, lucks: Lucks, wires: Wires, n: nat)
    : Outcome
    decreases |input|
  {
    var (read, rest) := NextFrame(input);
    var (after, sent, left) := Turn(digest, node, read, LuckAt(lucks, n), WireAt(wires, n));
    if left.Some? then Outcome(after, sent, left.value)
    else
      var end := Conversation(digest, after, rest, lucks, wires, Following(n));
      Outcome(end.node, sent + end.sent, end.result)
  }

  /** What is still to come from here leads to the outcome `end`, `before` having been sent earlier. */
  ghost predicate OnTrack(digest: string -> string, node: Node, input: string, output: string, lucks: Lucks,
                          wires: Wires, n: nat, end: Outcome, before: string)
  {
    var rest := Conversation(digest, node, input, lucks, wires, n);
    rest.node == end.node && rest.result == end.result && output + rest.sent == before + end.sent
  }

  lemma TurnStaysOnTrack(digest: string -> string, node: Node, input: string, output: string, lucks: Lucks,
                         wires: Wires, n: nat, end: Outcome, before: string)
    requires OnTrack(digest, node, input, output, lucks, wires, n, end, before)
    ensures var (read, rest) := NextFrame(input);
            var (after, sent, left) := Turn(digest, node, read, LuckAt(lucks, n), WireAt(wires, n));
            if left.Some? then end == Outcome(after, end.sent, left.value) && output + sent == before + end.sent
            else
              OnTrack(digest, after, rest, output + sent, lucks, wires, Following(n), end, before) && |rest| < |input|
  {
    var (read, rest) := NextFrame(input);
    var (after, sent, left) := Turn(digest, node, read, LuckAt(lucks, n), WireAt(wires, n));
    if left.None? {
      Regroup(output, sent, Conversation(digest, after, rest, lucks, wires, Following(n)).sent);
    }
  }

  lemma OneReply(digest: string -> string, node: Node, m: Message, luck: Luck)
    ensures |Handle(digest, node, m, luck).replies| <= 1
  {
  }

  method TakeTurn(d: Dispatcher, digest: string -> string, reader: FrameReader, writer: FrameWriter, luck: Luck,
                  write: Write)
    returns (left: Left)
    modifies reader, writer, d.store, d.peers
    ensures var (read, rest) := NextFrame(old(reader.input));
            var (after, sent, leaves) := Turn(digest, old(d.View()), read, luck, write);
            && d.View() == after && writer.output == old(writer.output) + sent
            && left == leaves && reader.input == rest
  {
    var read := reader.ReadFrame();
    if read.Err? {
      var farewell := FarewellTo(read.error);
      if farewell.None? {
        return Some(Err(read.error));
      }
      var sent := writer.WriteFrame(farewell.value, write);
      return Some(if sent.Err? then sent else Ok(()));
    }
    OneReply(digest, d.View(), read.value, luck);
    var replies, next := d.Dispatch(digest, read.value, luck, false);
    if replies != [] {
      var sent := writer.WriteFrame(replies[0], write);
      if sent.Err? {
        return Some(sent);
      }
    }
    left := if next.Stop? then Some(next.result) else None;
  }

  method RunMessageLoop(d: Dispatcher, digest: string -> string, reader: FrameReader, writer: FrameWriter,
                        lucks: Lucks, wires: Wires)
    returns (r: Result<(), ProtocolError>)
    modifies reader, writer, d.store, d.peers
    ensures var end := Conversation(digest, old(d.View()), old(reader.input), lucks, wires, 0);
            d.View() == end.node && writer.output == old(writer.output) + end.sent && r == end.result
  {
    ghost var end, before := Conversation(digest, d.View(), reader.input, lucks, wires, 0), writer.output;
    var n := 0;
    while true
      invariant OnTrack(digest, d.View(), reader.input, writer.output, lucks, wires, n, end, before)
      decreases |reader.input|
    {
      TurnStaysOnTrack(digest, d.View(), reader.input, writer.output, lucks, wires, n, end, before);
      var left := TakeTurn(d, digest, reader, writer, LuckAt(lucks, n), WireAt(wires, n));
      if left.Some? {
        return left.value;
      }
      n := Following(n);
    }
  }

  /** Because no frame about an object is ever accepted, no byte stream changes the store of the node
      that reads it, and the loop sends no object. */
  lemma {:induction false} NoStreamReachesTheStore(digest: string -> string, node: Node, input: string,
                                                   lucks: Lucks, wires: Wires, n: nat)
    ensures Conversation(digest, node, input, lucks, wires, n).node.store == node.store
    decreases |input|
  {
    var (read, rest) := NextFrame(input);
    if read.Ok? {
      ObjectMessagesNeverArrive(input);
    }
    TurnKeepsStore(digest, node, read, LuckAt(lucks, n), WireAt(wires, n));
    var (after, _, left) := Turn(digest, node, read, LuckAt(lucks, n), WireAt(wires, n));
    if left.None? {
      NoStreamReachesTheStore(digest, after, rest, lucks, wires, Following(n));
    }
  }

  lemma TurnKeepsStore(digest: string -> string, node: Node, read: Result<Message, ProtocolError>, luck: Luck,
                       write: Write)
    requires read.Ok? ==> !CarriesObject(read.value)
    ensures Turn(digest, node, read, luck, write).0.store == node.store
  {
  }

  // ---------- what a stream of messages gets back ----------

  /** The messages handled one after the other: the node in the end, and all replies in order. */
  function HandledAll(digest: string -> string, node: Node, ms: seq<Message>, lucks: Lucks, n: nat)
    : (Node, seq<Message>)
    decreases |ms|
  {
    if ms == [] then (node, [])
    else
      var h := Handle(digest, node, ms[0], LuckAt(lucks, n));
      var (end, replies) := HandledAll(digest, After(node, h), ms[1..], lucks, Following(n));
      (end, h.replies + replies)
  }

  ghost predicate NeverBreaks(wires: Wires) {
    forall n: nat :: WireAt(wires, n).Whole?
  }

  lemma TurnOfMessage(digest: string -> string, node: Node, m: Message, luck: Luck)
    requires !CarriesObject(m)
    ensures var h := Handle(digest, node, m, luck);
            Turn(digest, node, Ok(m), luck, Whole) == (After(node, h), Stream(h.replies), None)
  {
    var h := Handle(digest, node, m, luck);
    assert h.next == Continue;
    OneReply(digest, node, m, luck);
    WholeReply(h.replies);
  }

  lemma WholeReply(replies: seq<Message>)
    requires |replies| <= 1
    ensures SaidFor(replies, Whole) == Stream(replies)
  {
    if replies != [] {
      assert replies[1..] == [];
      assert Stream(replies[1..]) == "" && Frame(replies[0]) + "" == Frame(replies[0]);
    }
  }

  lemma HeardIsAnswered(digest: string -> string, node: Node, m: Message, rest: string,
                        lucks: Lucks, wires: Wires, n: nat)
    requires Heard(m).Ok? && WireAt(wires, n) == Whole
    ensures var h := Handle(digest, node, m, LuckAt(lucks, n));
            var end := Conversation(digest, After(node, h), rest, lucks, wires, Following(n));
            Conversation(digest, node, Frame(m) + rest, lucks, wires, n) ==
            Outcome(end.node, Stream(h.replies) + end.sent, end.result)
  {
    FrameRoundTrip(m, rest);
    TurnOfMessage(digest, node, m, LuckAt(lucks, n));
  }

  lemma ErrorTurn(digest: string -> string, node: Node, e: ProtocolError, luck: Luck)
    ensures Turn(digest, node, Err(e), luck, Whole) == (node, Stream(Farewell(e)), Some(LeftWith(e)))
  {
    WholeReply(Farewell(e));
  }

  lemma ErrorEndsTheLoop(digest: string -> string, node: Node, input: string, e: ProtocolError,
                         lucks: Lucks, wires: Wires, n: nat)
    requires NextFrame(input).0 == Err(e) && WireAt(wires, n) == Whole
    ensures Conversation(digest, node, input, lucks, wires, n) == Outcome(node, Stream(Farewell(e)), LeftWith(e))
  {
    ErrorTurn(digest, node, e, LuckAt(lucks, n));
  }

  /** Two errors of reading are answered, and count as a regular end; any other ends the loop in silence. */
  lemma OnlyTwoErrorsAreAnswered(digest: string -> string, node: Node, input: string, lucks: Lucks, wires: Wires,
                                 n: nat)
    requires NextFrame(input).0.Err? && WireAt(wires, n) == Whole
    ensures Conversation(digest, node, input, lucks, wires, n) ==
            match NextFrame(input).0.error
            case InvalidFormat => Outcome(node, Frame(Error("INVALID_FORMAT", "invalid format")), Ok(()))
            case OversizedFrame =>
              Outcome(node, Frame(Error("OVERSIZED_FRAME", "frame too large (max 512 KiB)")), Ok(()))
            case e => Outcome(node, "", Err(e))
  {
    var e := NextFrame(input).0.error;
    ErrorEndsTheLoop(digest, node, input, e, lucks, wires, n);
    if FarewellTo(e).Some? {
      OneFrame(FarewellTo(e).value);
    }
  }

  lemma OneFrame(m: Message)
    ensures Stream([m]) == Frame(m)
  {
    assert [m][1..] == [];
    assert Frame(m) + "" == Frame(m);
  }

  /** A frame that is refused ends the loop, whatever follows it. */
  lemma RefusedEndsTheLoop(digest: string -> string, node: Node, m: Message, rest: string,
                           lucks: Lucks, wires: Wires, n: nat)
    requires Heard(m).Err? && WireAt(wires, n) == Whole
    ensures Conversation(digest, node, Frame(m) + rest, lucks, wires, n) ==
            Outcome(node, Stream(Farewell(Heard(m).error)), LeftWith(Heard(m).error))
  {
    FrameRoundTrip(m, rest);
    ErrorEndsTheLoop(digest, node, Frame(m) + rest, Heard(m).error, lucks, wires, n);
  }

  /** The number of the turn after those that read `ms`. */
  function Skipped(n: nat, ms: seq<Message>): nat
    decreases |ms|
  {
    if ms == [] then n else Skipped(Following(n), ms[1..])
  }

  /** Whatever frames are received and whatever bytes come after them, the messages before the first frame
      refused get exactly their replies, in order, in frames of their own. A refused frame then ends the
      loop, with at most one error message; if none is refused, the loop goes on with what comes after
      them as it would have gone on without them. */
  lemma {:induction false} StreamThenAnything(digest: string -> string, node: Node, ms: seq<Message>, tail: string,
                                              lucks: Lucks, wires: Wires, n: nat)
    requires NeverBreaks(wires)
    ensures var (end, replies) := HandledAll(digest, node, HeardOf(ms), lucks, n);
            Conversation(digest, node, Stream(ms) + tail, lucks, wires, n) ==
            match Refusal(ms)
            case Some(e) => Outcome(end, Stream(replies) + Stream(Farewell(e)), LeftWith(e))
            case None =>
              var more := Conversation(digest, end, tail, lucks, wires, Skipped(n, ms));
              Outcome(more.node, Stream(replies) + more.sent, more.result)
    decreases |ms|
  {
    if ms == [] {
      assert Stream(ms) + tail == tail;
    } else {
      var m, rest := ms[0], Stream(ms[1..]) + tail;
      Regroup(Frame(m), Stream(ms[1..]), tail);
      FrameRoundTrip(m, rest);
      assert WireAt(wires, n) == Whole;
      if Heard(m).Err? {
        RefusedEndsTheLoop(digest, node, m, rest, lucks, wires, n);
      } else {
        var after := After(node, Handle(digest, node, m, LuckAt(lucks, n)));
        HeardIsAnswered(digest, node, m, rest, lucks, wires, n);
        StreamThenAnything(digest, after, ms[1..], tail, lucks, wires, Following(n));
        RepliesJoin(digest, node, m, HeardOf(ms[1..]), lucks, n);
      }
    }
  }

  lemma RepliesJoin(digest: string -> string, node: Node, m: Message, ms: seq<Message>, lucks: Lucks, n: nat)
    ensures var h := Handle(digest, node, m, LuckAt(lucks, n));
            var (end, replies) := HandledAll(digest, After(node, h), ms, lucks, Following(n));
            && HandledAll(digest, node, [m] + ms, lucks, n).0 == end
            && forall s: string ::
                 Stream(HandledAll(digest, node, [m] + ms, lucks, n).1) + s == Stream(h.replies) + (Stream(replies) + s)
  {
    var h := Handle(digest, node, m, LuckAt(lucks, n));
    var replies := HandledAll(digest, After(node, h), ms, lucks, Following(n)).1;
    assert ([m] + ms)[1..] == ms;
    StreamConcat(h.replies, replies);
    forall s: string ensures Stream(h.replies + replies) + s == Stream(h.replies) + (Stream(replies) + s) {
      Regroup(Stream(h.replies), Stream(replies), s);
    }
  }

  /** A stream of any frames: the loop is left when the stream ends or at the first frame refused, the
      messages before it handled one after the other. */
  lemma StreamIsAnswered(digest: string -> string, node: Node, ms: seq<Message>, lucks: Lucks, wires: Wires, n: nat)
    requires NeverBreaks(wires)
    ensures var (end, replies) := HandledAll(digest, node, HeardOf(ms), lucks, n);
            var e := if Refusal(ms).Some? then Refusal(ms).value else ConnectionClosed;
            Conversation(digest, node, Stream(ms), lucks, wires, n) ==
            Outcome(end, Stream(replies + Farewell(e)), LeftWith(e))
  {
    var (end, replies) := HandledAll(digest, node, HeardOf(ms), lucks, n);
    StreamThenAnything(digest, node, ms, "", lucks, wires, n);
    assert Stream(ms) + "" == Stream(ms);
    EndOfStream(digest, end, lucks, wires, Skipped(n, ms));
    StreamConcat(replies, Farewell(if Refusal(ms).Some? then Refusal(ms).value else ConnectionClosed));
  }

  lemma EndOfStream(digest: string -> string, node: Node, lucks: Lucks, wires: Wires, n: nat)
    ensures Conversation(digest, node, "", lucks, wires, n) == Outcome(node, Stream([]), Err(ConnectionClosed))
  {
    assert NextFrame("") == (Err(ConnectionClosed), "");
  }

  // ---------- connections that break ----------

  /** The same turn with a write that breaks says a beginning of what it would have said. */
  lemma BrokenTurn(digest: string -> string, node: Node, read: Result<Message, ProtocolError>, luck: Luck, write: Write)
    ensures var (after, sent, left) := Turn(digest, node, read, luck, Whole);
            var (after', sent', left') := Turn(digest, node, read, luck, write);
            && after' == after && sent' <= sent
            && ((left' == left && sent' == sent) || left' == Some(Err(Io)))
  {
    if read.Err? {
      BrokenSaid(Farewell(read.error), write, Some(LeftWith(read.error)));
    } else {
      var h := Handle(digest, node, read.value, luck);
      BrokenSaid(h.replies, write, if h.next.Stop? then Some(h.next.result) else None);
    }
  }

  lemma BrokenSaid(replies: seq<Message>, write: Write, left: Left)
    ensures SaidFor(replies, write) <= SaidFor(replies, Whole)
    ensures || LeftAfter(replies, write, left) == Some(Err(Io))
            || (LeftAfter(replies, write, left) == left && SaidFor(replies, write) == SaidFor(replies, Whole))
  {
  }

  lemma PrefixAfter(a: string, b: string, c: string)
    requires b <= c
    ensures a + b <= a + c
  {
  }

  /** However its writes break, a connection has sent a beginning of what it would have sent if none had
      broken; and if it is not left with an I/O error, it makes no difference. */
  lemma {:induction false} BrokenSaysBeginning(digest: string -> string, node: Node, input: string, lucks: Lucks,
                                               wires: Wires, whole: Wires, n: nat)
    requires NeverBreaks(whole)
    ensures var a := Conversation(digest, node, input, lucks, wires, n);
            var b := Conversation(digest, node, input, lucks, whole, n);
            a.sent <= b.sent && (a == b || a.result == Err(Io))
    decreases |input|
  {
    var (read, rest) := NextFrame(input);
    assert WireAt(whole, n) == Whole;
    BrokenTurn(digest, node, read, LuckAt(lucks, n), WireAt(wires, n));
    var (after, sent, left) := Turn(digest, node, read, LuckAt(lucks, n), Whole);
    var left' := Turn(digest, node, read, LuckAt(lucks, n), WireAt(wires, n)).2;
    if left'.None? {
      BrokenSaysBeginning(digest, after, rest, lucks, wires, whole, Following(n));
      PrefixAfter(sent, Conversation(digest, after, rest, lucks, wires, Following(n)).sent,
                  Conversation(digest, after, rest, lucks, whole, Following(n)).sent);
    }
  }
}
