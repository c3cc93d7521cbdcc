/** What gossip can spread: peer maps over every run of the network. */
module Gossip {
  import opened PeerText
  import opened Messages
  import opened Dispatch
  import opened Network

  // ---------- where a peer can come from ----------

  predicate KnownBy(s: Net, n: nat, p: Peer) {
    n < |s.nodes| && p in s.nodes[n].log.known
  }

  predicate InFlight(s: Net, i: nat, k: nat, p: Peer) {
    i < |s.tasks| && k < |s.tasks[i].inbox| && s.tasks[i].inbox[k].Peers? && p in s.tasks[i].inbox[k].peers
  }

  predicate OwnAddress(s: Net, n: nat, p: Peer) {
    n < |s.nodes| && s.nodes[n].config.publicNode && p == Me(s.nodes[n].config)
  }

  /** In some map, in some message under way, or the own address of a public node. */
  ghost predicate Origin(s: Net, p: Peer) {
    || (exists n: nat :: KnownBy(s, n, p))
    || (exists i: nat, k: nat :: InFlight(s, i, k, p))
    || (exists n: nat :: OwnAddress(s, n, p))
  }

  predicate AmongAll(ps: seq<Peer>, all: iset<Peer>) {
    forall p | p in ps :: p in all
  }

  predicate MessagesWithin(ms: seq<Message>, all: iset<Peer>) {
    forall k | 0 <= k < |ms| && ms[k].Peers? :: AmongAll(ms[k].peers, all)
  }

  predicate NodeWithin(node: Node, all: iset<Peer>) {
    (forall p | p in node.log.known :: p in all) && (node.config.publicNode ==> Me(node.config) in all)
  }

  predicate Within(s: Net, all: iset<Peer>) {
    && (forall n | 0 <= n < |s.nodes| :: NodeWithin(s.nodes[n], all))
    && forall i | 0 <= i < |s.tasks| :: MessagesWithin(s.tasks[i].inbox, all)
  }

  lemma HandleStaysWithin(digest: string -> string, node: Node, m: Message, luck: Luck, all: iset<Peer>)
    requires NodeWithin(node, all) && (m.Peers? ==> AmongAll(m.peers, all))
    requires Enumerates(luck.order, node.log.known)
    ensures var h := Handle(digest, node, m, luck);
            NodeWithin(node.(log := h.log), all) && MessagesWithin(h.replies, all)
  {
    match m
    case GetPeers => PickedPeersFacts(node.config, luck.order, node.log.known);
    case Peers(peers) =>
      UnbannedFacts(node.config, peers);
      ImportedFacts(node.log, Unbanned(node.config, peers), luck.disk);
    case _ =>
  }

  lemma StepStaysWithin(digest: string -> string, s: Net, step: Step, all: iset<Peer>)
    requires Enabled(s, step) && Within(s, all)
    ensures Within(Apply(digest, s, step), all)
  {
    var t := Apply(digest, s, step);
    var task := s.tasks[step.i];
    assert NodeWithin(s.nodes[task.node], all) && MessagesWithin(task.inbox, all);
    if step.Deliver? {
      HandleStaysWithin(digest, s.nodes[task.node], task.inbox[0], step.luck, all);
    }
    forall n | 0 <= n < |t.nodes| ensures NodeWithin(t.nodes[n], all) {
      assert NodeWithin(s.nodes[n], all);
    }
    forall i | 0 <= i < |t.tasks| ensures MessagesWithin(t.tasks[i].inbox, all) {
      assert MessagesWithin(s.tasks[i].inbox, all);
    }
  }

  lemma {:induction false} RunStaysWithin(digest: string -> string, r: Run, k: nat, all: iset<Peer>)
    requires IsRun(digest, r) && Within(r.states[0], all) && k < |r.states|
    ensures Within(r.states[k], all)
  {
    if k > 0 {
      RunStaysWithin(digest, r, k - 1, all);
      assert StepAt(digest, r, k - 1);
      StepStaysWithin(digest, r.states[k - 1], r.steps[k - 1], all);
    }
  }

  lemma OriginsAreWithin(s: Net, all: iset<Peer>)
    requires forall p :: Origin(s, p) ==> p in all
    ensures Within(s, all)
  {
    forall n | 0 <= n < |s.nodes| ensures NodeWithin(s.nodes[n], all) {
      forall p | p in s.nodes[n].log.known ensures p in all {
        assert KnownBy(s, n, p);
      }
      if s.nodes[n].config.publicNode {
        assert OwnAddress(s, n, Me(s.nodes[n].config));
      }
    }
    forall i | 0 <= i < |s.tasks| ensures MessagesWithin(s.tasks[i].inbox, all) {
      forall k | 0 <= k < |s.tasks[i].inbox| && s.tasks[i].inbox[k].Peers?
        ensures AmongAll(s.tasks[i].inbox[k].peers, all)
      {
        forall p | p in s.tasks[i].inbox[k].peers ensures p in all {
          assert InFlight(s, i, k, p);
        }
      }
    }
  }

  /** Gossip invents nobody: every peer in any map or message of a run was in some map or message at
      its start, or is the own address of a public node. */
  lemma GossipInventsNobody(digest: string -> string, r: Run, k: nat, p: Peer)
    requires IsRun(digest, r) && k < |r.states| && Origin(r.states[k], p)
    ensures Origin(r.states[0], p)
  {
    var all := iset q | Origin(r.states[0], q);
    OriginsAreWithin(r.states[0], all);
    RunStaysWithin(digest, r, k, all);
    var s := r.states[k];
    if n: nat :| KnownBy(s, n, p) {
      assert NodeWithin(s.nodes[n], all);
    } else if i: nat, l: nat :| InFlight(s, i, l, p) {
      assert MessagesWithin(s.tasks[i].inbox, all);
      assert AmongAll(s.tasks[i].inbox[l].peers, all);
    } else {
      var n: nat :| OwnAddress(s, n, p);
      assert NodeWithin(s.nodes[n], all);
    }
    assert p in all;
  }

  // ---------- bans ----------

  predicate FreeOfBanned(node: Node) {
    forall p | p in node.log.known :: p !in node.config.banned
  }

  /** A map free of its node's banned peers stays so, whatever the other nodes send. */
  lemma {:induction false} BansHold(digest: string -> string, r: Run, k: nat, n: nat)
    requires IsRun(digest, r) && k < |r.states|
    requires n < |r.states[0].nodes| && FreeOfBanned(r.states[0].nodes[n])
    ensures n < |r.states[k].nodes| && FreeOfBanned(r.states[k].nodes[n])
  {
    if k > 0 {
      BansHold(digest, r, k - 1, n);
      assert StepAt(digest, r, k - 1);
      var s, step := r.states[k - 1], r.steps[k - 1];
      var t := s.tasks[step.i];
      if step.Deliver? && t.node == n && t.inbox[0].Peers? {
        var config := s.nodes[n].config;
        UnbannedFacts(config, t.inbox[0].peers);
        ImportedFacts(s.nodes[n].log, Unbanned(config, t.inbox[0].peers), step.luck.disk);
      }
    }
  }

  /** A banned peer is named in a reply exactly when it is the public node's own address: that one is
      put first without being looked up in the ban list. */
  lemma BannedInReplyIffOwn(config: Config, order: seq<Peer>, known: set<Peer>, p: Peer)
    requires Enumerates(order, known) && p in config.banned
    ensures p in PickedPeers(config, order) <==> config.publicNode && p == Me(config)
  {
    PickedPeersFacts(config, order, known);
  }
}
