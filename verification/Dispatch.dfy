/** What a node does with each message (src/net/dispatch.rs). */
module Dispatch {
  import opened Wrappers
  import opened JsonText
  import opened Canonical
  import opened Storage
  import opened Text
  import opened PeerText
  import opened PeerLog
  import opened Messages

  datatype Config = Config(port: Port, userAgent: string, banned: seq<Peer>, publicNode: bool, myHost: string)

  const MAX_PEERS_PER_REPLY: nat := 10

  function Me(config: Config): Peer {
    Peer(config.myHost, config.port)
  }

  /** What one message's handling depends on besides the node: the order in which the peer map is
      enumerated and shuffled, whether the store fails when it is asked, and how far writing to the
      peers file gets. */
  datatype Luck = Luck(order: seq<Peer>, storeFault: bool, disk: Disk)

  /** The peers file takes `good` lines, and `kept` characters of the next. */
  datatype Disk = Disk(good: nat, kept: nat)

  // ---------- replies to GetPeers ----------

  function Unbanned(config: Config, ps: seq<Peer>): seq<Peer> {
    if ps == [] then []
    else (if ps[0] in config.banned then [] else [ps[0]]) + Unbanned(config, ps[1..])
  }

  function Without(ps: seq<Peer>, p: Peer): seq<Peer> {
    if ps == [] then []
    else (if ps[0] == p then [] else [ps[0]]) + Without(ps[1..], p)
  }

  function Truncated(ps: seq<Peer>, n: nat): seq<Peer> {
    if |ps| <= n then ps else ps[..n]
  }

  function PickedPeers(config: Config, order: seq<Peer>): seq<Peer> {
    var candidates := Truncated(Unbanned(config, order), MAX_PEERS_PER_REPLY);
    if config.publicNode then [Me(config)] + Without(candidates, Me(config)) else candidates
  }

  lemma {:induction false} UnbannedSnoc(config: Config, ps: seq<Peer>, p: Peer)
    ensures Unbanned(config, ps + [p]) == Unbanned(config, ps) + if p in config.banned then [] else [p]
  {
    if ps == [] {
      assert ps + [p] == [p] && [p][1..] == [];
    } else {
      assert (ps + [p])[1..] == ps[1..] + [p];
      UnbannedSnoc(config, ps[1..], p);
    }
  }

  lemma {:induction false} WithoutSnoc(ps: seq<Peer>, q: Peer, p: Peer)
    ensures Without(ps + [q], p) == Without(ps, p) + if q == p then [] else [q]
  {
    if ps == [] {
      assert ps + [q] == [q] && [q][1..] == [];
    } else {
      assert (ps + [q])[1..] == ps[1..] + [q];
      WithoutSnoc(ps[1..], q, p);
    }
  }

  /** `filter` on the ban list, keeping the order. */
  method FilterUnbanned(config: Config, ps: seq<Peer>) returns (kept: seq<Peer>)
    ensures kept == Unbanned(config, ps)
  {
    kept := [];
    for i := 0 to |ps|
      invariant kept == Unbanned(config, ps[..i])
    {
      assert ps[..i + 1] == ps[..i] + [ps[i]];
      UnbannedSnoc(config, ps[..i], ps[i]);
      if ps[i] !in config.banned {
        kept := kept + [ps[i]];
      }
    }
    assert ps[..|ps|] == ps;
  }

  /** `order` is the shuffled enumeration of the peer map: filtering commutes with shuffling. */
  method PickAndBuildPeers(config: Config, order: seq<Peer>) returns (candidates: seq<Peer>)
    ensures candidates == PickedPeers(config, order)
  {
    candidates := FilterUnbanned(config, order);
    if |candidates| > MAX_PEERS_PER_REPLY {
      candidates := candidates[..MAX_PEERS_PER_REPLY];
    }
    if config.publicNode {
      var me := Me(config);
      var retained := [];
      for i := 0 to |candidates|
        invariant retained == Without(candidates[..i], me)
      {
        assert candidates[..i + 1] == candidates[..i] + [candidates[i]];
        WithoutSnoc(candidates[..i], candidates[i], me);
        if candidates[i] != me {
          retained := retained + [candidates[i]];
        }
      }
      assert candidates[..|candidates|] == candidates;
      candidates := [me] + retained;
    }
  }

  /** Every peer of the map, once, in some order. */
  ghost predicate Enumerates(order: seq<Peer>, known: set<Peer>) {
    NoRepeats(order) && forall p :: p in order <==> p in known
  }

  lemma {:induction false} SomeOrder(known: set<Peer>) returns (order: seq<Peer>)
    ensures Enumerates(order, known)
    decreases known
  {
    if known == {} {
      order := [];
    } else {
      var p :| p in known;
      var rest := SomeOrder(known - {p});
      order := [p] + rest;
      assert forall q :: q in order <==> q == p || q in rest;
    }
  }

  lemma {:induction false} UnbannedFacts(config: Config, ps: seq<Peer>)
    ensures forall p :: p in Unbanned(config, ps) <==> p in ps && p !in config.banned
    ensures NoRepeats(ps) ==> NoRepeats(Unbanned(config, ps))
  {
    if ps != [] {
      UnbannedFacts(config, ps[1..]);
      assert forall p :: p in ps <==> p == ps[0] || p in ps[1..];
      if NoRepeats(ps) {
        assert NoRepeats(ps[1..]) && ps[0] !in ps[1..];
      }
    }
  }

  lemma {:induction false} WithoutFacts(ps: seq<Peer>, q: Peer)
    ensures forall p :: p in Without(ps, q) <==> p in ps && p != q
    ensures NoRepeats(ps) ==> NoRepeats(Without(ps, q))
    ensures |Without(ps, q)| <= |ps|
    ensures q !in ps ==> Without(ps, q) == ps
  {
    if ps != [] {
      WithoutFacts(ps[1..], q);
      assert forall p :: p in ps <==> p == ps[0] || p in ps[1..];
      if NoRepeats(ps) {
        assert NoRepeats(ps[1..]) && ps[0] !in ps[1..];
      }
    }
  }

  /** Whatever the shuffle: no duplicates, nobody unknown or banned but the node itself, a public node
      once and first, and otherwise at most ten peers, or all of them when there are fewer. */
  lemma PickedPeersFacts(config: Config, order: seq<Peer>, known: set<Peer>)
    requires Enumerates(order, known)
    ensures var reply, me := PickedPeers(config, order), Peer(config.myHost, config.port);
            && NoRepeats(reply)
            && (forall p | p in reply :: (p in known && p !in config.banned) || (config.publicNode && p == me))
            && (config.publicNode ==> reply != [] && reply[0] == me && |reply| <= 11)
            && (!config.publicNode ==> |reply| <= 10)
            && (|reply| < 10 ==> forall p | p in known && p !in config.banned :: p in reply)
  {
    var unbanned := Unbanned(config, order);
    UnbannedFacts(config, order);
    var candidates := Truncated(unbanned, MAX_PEERS_PER_REPLY);
    assert forall p | p in candidates :: p in unbanned;
    WithoutFacts(candidates, Me(config));
    WithoutLosesOne(candidates, Me(config));
  }

  lemma {:induction false} WithoutLosesOne(ps: seq<Peer>, q: Peer)
    requires NoRepeats(ps)
    ensures |Without(ps, q)| >= |ps| - 1
  {
    if ps != [] {
      if ps[0] == q {
        WithoutFacts(ps[1..], q);
      } else {
        WithoutLosesOne(ps[1..], q);
      }
    }
  }

  // ---------- incoming Peers ----------

  /** Appends one by one; the first write that fails ends it, after its peer has entered the
      map. */
  function Imported(log: Log, candidates: seq<Peer>, disk: Disk): Log
    decreases |candidates|
  {
    if candidates == [] then log
    else if candidates[0] in log.known then Imported(log, candidates[1..], disk)
    else if disk.good == 0 then Appended(log, candidates[0], Broken(disk.kept))
    else Imported(Appended(log, candidates[0], Whole), candidates[1..], disk.(good := disk.good - 1))
  }

  method ImportPeers(config: Config, peers: PeerStore, incoming: seq<Peer>, disk: Disk)
    returns (r: Result<(), PeersError>)
    modifies peers
    ensures Log(peers.known, peers.file) ==
            Imported(old(Log(peers.known, peers.file)), Unbanned(config, incoming), disk)
  {
    var candidates := FilterUnbanned(config, incoming);
    ghost var start := Log(peers.known, peers.file);
    var left := disk;
    for i := 0 to |candidates|
      invariant Imported(Log(peers.known, peers.file), candidates[i..], left) == Imported(start, candidates, disk)
    {
      assert candidates[i..][1..] == candidates[i + 1..];
      var isNew := candidates[i] !in peers.known;
      var appended := peers.AppendPeer(candidates[i], if left.good > 0 then Whole else Broken(left.kept));
      if appended.Err? {
        return Err(appended.error);
      }
      if isNew {
        left := left.(good := left.good - 1);
      }
    }
    r := Ok(());
  }

  // ---------- one message ----------

  /** `Stop` leaves the message loop; `PutNext` has found that an object is missing and is about to
      store it. */
  datatype Next = Continue | PutNext(id: string, raw: string) | Stop(result: Result<(), ProtocolError>)

  datatype Handled = Handled(log: Log, replies: seq<Message>, next: Next)

  datatype Node = Node(config: Config, store: map<string, string>, log: Log)

  datatype Verdict = Malformed | Mismatch(computedId: string) | Certifies

  /** What the raw JSON of an object message says about the id it is claimed to have. */
  function JudgeObject(digest: string -> string, claimedId: string, raw: string): Verdict {
    var v := FromStr(raw);
    if v.None? || EnsureObjectField(v.value).None? then Malformed
    else
      var computedId := ObjectId(digest, v.value);
      if computedId != claimedId then Mismatch(computedId) else Certifies
  }

  function MismatchError(claimedId: string, computedId: string): Message {
    Error("INVALID_FORMAT", "object_id mismatch: claimed " + claimedId + ", computed " + computedId)
  }

  /** The part of the loop body up to a possible `put`. */
  function Handle(digest: string -> string, node: Node, m: Message, luck: Luck): Handled {
    match m
    case GetPeers => Handled(node.log, [Peers(PickedPeers(node.config, luck.order))], Continue)
    case Peers(peers) => Handled(Imported(node.log, Unbanned(node.config, peers), luck.disk), [], Continue)
    case GetObject(id) =>
      if luck.storeFault then Handled(node.log, [], Stop(Err(Storage)))
      else if id !in node.store then Handled(node.log, [], Continue)
      else
        var reply := BuildObject(id, node.store[id]);
        if reply.Err? then Handled(node.log, [], Stop(Err(reply.error)))
        else Handled(node.log, [reply.value], Continue)
    case GotObject(id) =>
      if luck.storeFault then Handled(node.log, [], Stop(Err(Storage)))
      else Handled(node.log, if id in node.store then [] else [GetObject(id)], Continue)
    case Object(claimedId, raw) =>
      (match JudgeObject(digest, claimedId, raw)
       case Malformed => Handled(node.log, [], Stop(Err(InvalidFormat)))
       case Mismatch(computedId) => Handled(node.log, [MismatchError(claimedId, computedId)], Stop(Ok(())))
       case Certifies =>
         if luck.storeFault then Handled(node.log, [], Stop(Err(Storage)))
         else if claimedId in node.store then Handled(node.log, [], Continue)
         else Handled(node.log, [], PutNext(claimedId, raw)))
    case Hello(_, _) => Handled(node.log, [], Continue)
    case Error(_, _) => Handled(node.log, [], Continue)
    case Unknown => Handled(node.log, [], Continue)
  }

  /** Everyone named is in the node's map or on its ban list. */
  predicate Knows(node: Node, ps: seq<Peer>) {
    forall p | p in ps :: p in node.log.known || p in node.config.banned
  }

  lemma {:induction false} ImportedAll(log: Log, candidates: seq<Peer>, disk: Disk)
    requires |candidates| <= disk.good
    ensures log.known <= Imported(log, candidates, disk).known
    ensures forall p | p in candidates :: p in Imported(log, candidates, disk).known
    decreases |candidates|
  {
    if candidates != [] {
      if candidates[0] in log.known {
        ImportedAll(log, candidates[1..], disk);
      } else {
        ImportedAll(Appended(log, candidates[0], Whole), candidates[1..], disk.(good := disk.good - 1));
      }
    }
  }

  lemma {:induction false} UnbannedNoLonger(config: Config, ps: seq<Peer>)
    ensures |Unbanned(config, ps)| <= |ps|
  {
    if ps != [] {
      UnbannedNoLonger(config, ps[1..]);
    }
  }

  /** A list of peers is learnt whole when the peers file takes every line. */
  lemma PeersAreLearnt(digest: string -> string, node: Node, ps: seq<Peer>, luck: Luck)
    requires |ps| <= luck.disk.good
    ensures var log := Handle(digest, node, Peers(ps), luck).log;
            node.log.known <= log.known && Knows(node.(log := log), ps)
  {
    UnbannedFacts(node.config, ps);
    UnbannedNoLonger(node.config, ps);
    ImportedAll(node.log, Unbanned(node.config, ps), luck.disk);
  }

  /** A task of the node, serving one connection on the shared store and peer map. */
  class Dispatcher {
    const config: Config
    const store: RedbStore
    const peers: PeerStore

    constructor (config: Config, store: RedbStore, peers: PeerStore)
      ensures this.config == config && this.store == store && this.peers == peers
    {
      this.config := config;
      this.store := store;
      this.peers := peers;
    }

    function View(): Node
      reads this, store, peers
    {
      Node(config, store.table, Log(peers.known, peers.file))
    }

    /** The body of the loop for one message; `putFault` makes the final `put` fail. */
    method Dispatch(digest: string -> string, m: Message, luck: Luck, putFault: bool)
      returns (sent: seq<Message>, next: Next)
      modifies store, peers
      ensures var h := Handle(digest, old(View()), m, luck);
              && sent == h.replies
              && View().log == h.log
              && match h.next
                 case PutNext(id, raw) =>
                   && next == (if putFault then Stop(Err(Storage)) else Continue)
                   && View().store == (if putFault then old(View()).store else old(View()).store[id := raw])
                 case _ => next == h.next && View().store == old(View()).store
    {
      sent, next := [], Continue;
      match m
      case GetPeers =>
        var reply := PickAndBuildPeers(config, luck.order);
        sent := [Peers(reply)];
      case Peers(incoming) =>
        var imported := ImportPeers(config, peers, incoming, luck.disk);
      case GetObject(id) =>
        var found := store.Get(id, luck.storeFault);
        if found.Err? {
          next := Stop(Err(Storage));
        } else if found.value.Some? {
          var reply := BuildObject(id, found.value.value);
          if reply.Err? {
            next := Stop(Err(reply.error));
          } else {
            sent := [reply.value];
          }
        }
      case GotObject(id) =>
        var known := store.Has(id, luck.storeFault);
        if known.Err? {
          next := Stop(Err(Storage));
        } else if !known.value {
          sent := [GetObject(id)];
        }
      case Object(claimedId, raw) =>
        sent, next := ReceiveObject(digest, claimedId, raw, luck.storeFault, putFault);
      case _ =>
    }

    method ReceiveObject(digest: string -> string, claimedId: string, raw: string, storeFault: bool, putFault: bool)
      returns (sent: seq<Message>, next: Next)
      modifies store
      ensures var before := old(store.table);
              match JudgeObject(digest, claimedId, raw)
              case Malformed => sent == [] && next == Stop(Err(InvalidFormat)) && store.table == before
              case Mismatch(computedId) =>
                sent == [MismatchError(claimedId, computedId)] && next == Stop(Ok(())) && store.table == before
              case Certifies =>
                && sent == []
                && var stores := !storeFault && claimedId !in before;
                && next == (if storeFault || (stores && putFault) then Stop(Err(Storage)) else Continue)
                && store.table == if stores && !putFault then before[claimedId := raw] else before
    {
      sent := [];
      var v := FromStr(raw);
      if v.None? || EnsureObjectField(v.value).None? {
        return [], Stop(Err(InvalidFormat));
      }
      var computedId := ComputeObjectId(digest, v.value);
      if computedId != claimedId {
        return [MismatchError(claimedId, computedId)], Stop(Ok(()));
      }
      var known := store.Has(computedId, storeFault);
      if known.Err? {
        return [], Stop(Err(Storage));
      }
      if known.value {
        return [], Continue;
      }
      var old' := store.Put(computedId, raw, putFault);
      next := if old'.Err? then Stop(Err(Storage)) else Continue;
    }
  }
}
