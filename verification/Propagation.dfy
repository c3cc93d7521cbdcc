/** What becomes of an announced object and of a peer that is named, in every run. */
module Propagation {
  import opened Wrappers
  import opened JsonText
  import opened PeerText
  import opened Canonical
  import opened Storage
  import opened Messages
  import opened Dispatch
  import opened Network
  import opened NetworkStore
  import opened NetworkWeights

  predicate Alive(s: Net, i: nat) {
    i < |s.tasks| && !s.tasks[i].state.Done?
  }

  predicate Carries(digest: string -> string, m: Message, id: string) {
    m.Object? && m.objectId == id && EntryOk(digest, id, m.raw)
  }

  predicate UnderWay(digest: string -> string, ms: seq<Message>, id: string) {
    exists k | 0 <= k < |ms| :: Carries(digest, ms[k], id)
  }

  /** The object is held by the receiver, announced to it, asked for, under way to it, or being stored. */
  predicate Coming(digest: string -> string, s: Net, i: nat, id: string)
    requires Wired(s) && i < |s.tasks| && Other(i) < |s.tasks|
  {
    || id in s.nodes[s.tasks[i].node].store
    || GotObject(id) in s.tasks[i].inbox
    || GetObject(id) in s.tasks[Other(i)].inbox
    || UnderWay(digest, s.tasks[i].inbox, id)
    || (s.tasks[i].state.Putting? && s.tasks[i].state.id == id)
  }

  /** Both ends are there, the far one has the object, and the object is coming. */
  ghost predicate OnItsWay(digest: string -> string, s: Net, i: nat, id: string) {
    && Wired(s) && Alive(s, i) && Alive(s, Other(i))
    && id in s.nodes[s.tasks[Other(i)].node].store && Coming(digest, s, i, id)
  }

  lemma AppendedKeeps(digest: string -> string, ms: seq<Message>, more: seq<Message>, id: string)
    ensures UnderWay(digest, ms, id) || UnderWay(digest, more, id) ==> UnderWay(digest, ms + more, id)
  {
    if k :| 0 <= k < |ms| && Carries(digest, ms[k], id) {
      assert Carries(digest, (ms + more)[k], id);
    }
    if k :| 0 <= k < |more| && Carries(digest, more[k], id) {
      assert Carries(digest, (ms + more)[|ms| + k], id);
    }
  }

  lemma TailKeeps(digest: string -> string, ms: seq<Message>, id: string)
    requires ms != []
    ensures UnderWay(digest, ms, id) ==> Carries(digest, ms[0], id) || UnderWay(digest, ms[1..], id)
    ensures forall m | m in ms :: m == ms[0] || m in ms[1..]
  {
    if k :| 0 <= k < |ms| && Carries(digest, ms[k], id) && k > 0 {
      assert Carries(digest, ms[1..][k - 1], id);
    }
  }

  /** What a delivery at a task that goes on does to the two ends of its connection. */
  lemma DeliverShape(digest: string -> string, s: Net, i: nat, luck: Luck)
    requires Enabled(s, Deliver(i, luck)) && Alive(s, Other(i)) && Alive(Apply(digest, s, Deliver(i, luck)), i)
    ensures var t, h := Apply(digest, s, Deliver(i, luck)), HandledBy(digest, s, i, luck);
            && Wired(t) && |t.tasks| == |s.tasks|
            && t.tasks[i] == Task(s.tasks[i].node, s.tasks[i].inbox[1..], StateAfter(h.next)) && !h.next.Stop?
            && t.tasks[Other(i)] == s.tasks[Other(i)].(inbox := s.tasks[Other(i)].inbox + h.replies)
            && |t.nodes| == |s.nodes| && forall n | 0 <= n < |s.nodes| :: t.nodes[n].store == s.nodes[n].store
  {
    StepExtends(digest, s, Deliver(i, luck));
  }

  /** The receiver's own turn. */
  lemma ReceiverTurn(digest: string -> string, s: Net, i: nat, id: string, luck: Luck)
    requires Enabled(s, Deliver(i, luck)) && OnItsWay(digest, s, i, id)
    requires Alive(Apply(digest, s, Deliver(i, luck)), i)
    ensures OnItsWay(digest, Apply(digest, s, Deliver(i, luck)), i, id)
  {
    DeliverShape(digest, s, i, luck);
    var h, inbox := HandledBy(digest, s, i, luck), s.tasks[i].inbox;
    TailKeeps(digest, inbox, id);
    if inbox[0] == GotObject(id) && id !in s.nodes[s.tasks[i].node].store {
      assert h.replies == [GetObject(id)];
      assert GetObject(id) in h.replies;
    }
  }

  lemma SenderReplies(digest: string -> string, sender: Node, id: string, luck: Luck)
    requires Certified(digest, sender.store) && RawStore(sender.store) && id in sender.store
    requires !Handle(digest, sender, GetObject(id), luck).next.Stop?
    ensures UnderWay(digest, Handle(digest, sender, GetObject(id), luck).replies, id)
  {
    var raw := sender.store[id];
    assert EntryOk(digest, id, raw) && IsRaw(raw);
    var replies := Handle(digest, sender, GetObject(id), luck).replies;
    assert replies == [Object(id, raw)];
    assert Carries(digest, replies[0], id);
  }

  /** The sender's turn. */
  lemma SenderTurn(digest: string -> string, s: Net, i: nat, id: string, luck: Luck)
    requires Enabled(s, Deliver(Other(i), luck)) && OnItsWay(digest, s, i, id)
    ensures AllCertified(digest, s) && AllRaw(s) && Alive(Apply(digest, s, Deliver(Other(i), luck)), Other(i)) ==>
              OnItsWay(digest, Apply(digest, s, Deliver(Other(i), luck)), i, id)
  {
    var j := Other(i);
    assert Other(j) == i;
    if AllCertified(digest, s) && AllRaw(s) && Alive(Apply(digest, s, Deliver(j, luck)), j) {
      DeliverShape(digest, s, j, luck);
      var replies, inbox := HandledBy(digest, s, j, luck).replies, s.tasks[j].inbox;
      TailKeeps(digest, inbox, id);
      AppendedKeeps(digest, s.tasks[i].inbox, replies, id);
      if inbox[0] == GetObject(id) {
        var sender := s.nodes[s.tasks[j].node];
        assert Certified(digest, sender.store) && RawStore(sender.store);
        SenderReplies(digest, sender, id, luck);
      }
    }
  }

  lemma OtherShape(digest: string -> string, s: Net, step: Step, i: nat)
    requires Enabled(s, step) && step.i != i && step.i != Other(i) && i < |s.tasks|
    ensures var t := Apply(digest, s, step); |t.tasks| == |s.tasks| && t.tasks[i] == s.tasks[i]
  {
    assert Other(step.i) != i;
  }

  /** Any other task's turn leaves the two ends alone, and only adds entries. */
  lemma OtherTurn(digest: string -> string, s: Net, step: Step, i: nat, id: string)
    requires Enabled(s, step) && OnItsWay(digest, s, i, id)
    requires step.i != i && step.i != Other(i)
    ensures OnItsWay(digest, Apply(digest, s, step), i, id)
  {
    StepExtends(digest, s, step);
    assert Other(Other(i)) == i;
    OtherShape(digest, s, step, i);
    OtherShape(digest, s, step, Other(i));
  }

  lemma OwnPut(digest: string -> string, s: Net, step: Step, i: nat, id: string)
    requires Enabled(s, step) && OnItsWay(digest, s, i, id) && step.Put?
    requires step.i == i || step.i == Other(i)
    ensures var t := Apply(digest, s, step); Alive(t, i) && Alive(t, Other(i)) ==> OnItsWay(digest, t, i, id)
  {
    StepExtends(digest, s, step);
  }

  lemma StepKeepsComing(digest: string -> string, s: Net, step: Step, i: nat, id: string)
    requires Enabled(s, step) && OnItsWay(digest, s, i, id)
    ensures var t := Apply(digest, s, step);
            AllCertified(digest, s) && AllRaw(s) && Alive(t, i) && Alive(t, Other(i)) ==> OnItsWay(digest, t, i, id)
  {
    if step.i != i && step.i != Other(i) {
      OtherTurn(digest, s, step, i, id);
    } else if step.Put? {
      OwnPut(digest, s, step, i, id);
    } else if step.Deliver? && step.i == i {
      if Alive(Apply(digest, s, step), i) {
        ReceiverTurn(digest, s, i, id, step.luck);
      }
    } else if step.Deliver? {
      SenderTurn(digest, s, i, id, step.luck);
    }
  }

  /** A task that is gone does not come back. */
  lemma StaysGone(digest: string -> string, s: Net, step: Step, i: nat)
    requires Enabled(s, step) && Alive(Apply(digest, s, step), i)
    ensures Alive(s, i)
  {
  }

  /** As long as neither end is gone, the object is on its way; stores certify themselves. */
  ghost predicate Tracked(digest: string -> string, s: Net, i: nat, id: string) {
    && AllCertified(digest, s) && AllRaw(s)
    && (Alive(s, i) && Alive(s, Other(i)) ==> OnItsWay(digest, s, i, id))
  }

  lemma StepKeepsTracked(digest: string -> string, s: Net, step: Step, i: nat, id: string)
    requires Enabled(s, step) && Tracked(digest, s, i, id)
    ensures Tracked(digest, Apply(digest, s, step), i, id)
  {
    StepKeepsCertified(digest, s, step);
    StepKeepsRaw(digest, s, step);
    var t := Apply(digest, s, step);
    if Alive(t, i) && Alive(t, Other(i)) {
      StaysGone(digest, s, step, i);
      StaysGone(digest, s, step, Other(i));
      StepKeepsComing(digest, s, step, i, id);
    }
  }

  lemma {:induction false} RunKeepsTracked(digest: string -> string, r: Run, k: nat, i: nat, id: string)
    requires IsRun(digest, r) && k < |r.states| && Tracked(digest, r.states[0], i, id)
    ensures Tracked(digest, r.states[k], i, id)
  {
    if k > 0 {
      RunKeepsTracked(digest, r, k - 1, i, id);
      assert StepAt(digest, r, k - 1);
      StepKeepsTracked(digest, r.states[k - 1], r.steps[k - 1], i, id);
    }
  }

  /** In every run, from any state in which an object is announced anywhere in a queue by a node that
      holds it: once nothing is left to deliver or store, and neither end is gone, the receiver holds it,
      whatever else was in the queues, whatever other connections did and whatever store or disk failed.
      A fault at one of the two ends makes that end leave; it cannot lose the object silently. */
  lemma AnnouncedObjectsArrive(digest: string -> string, r: Run, i: nat, id: string)
    requires IsRun(digest, r)
    requires AllCertified(digest, r.states[0]) && AllRaw(r.states[0])
    requires Alive(r.states[0], i) && Alive(r.states[0], Other(i)) && GotObject(id) in r.states[0].tasks[i].inbox
    requires id in r.states[0].nodes[r.states[0].tasks[Other(i)].node].store
    requires Quiet(Last(r)) && Alive(Last(r), i) && Alive(Last(r), Other(i))
    ensures Wired(Last(r)) && id in Last(r).nodes[Last(r).tasks[i].node].store
    ensures id in Last(r).nodes[Last(r).tasks[Other(i)].node].store
  {
    RunKeepsTracked(digest, r, |r.steps|, i, id);
  }

  /** What arrives is the value the sender holds, without a collision. */
  lemma WhatArrives(digest: string -> string, r: Run, i: nat, id: string, texts: iset<string>)
    requires IsRun(digest, r) && AllCertified(digest, r.states[0])
    requires i < |Last(r).tasks| && Other(i) < |Last(r).tasks| && Wired(Last(r))
    requires id in Last(r).nodes[Last(r).tasks[i].node].store
    requires id in Last(r).nodes[Last(r).tasks[Other(i)].node].store
    requires CollisionFree(digest, texts)
    requires forall n, bytes | 0 <= n < |Last(r).nodes| && Find(Last(r).nodes[n].store, id) == Some(bytes) ::
               CanonicalOf(bytes).Some? ==> CanonicalOf(bytes).value in texts
    ensures FromStr(Last(r).nodes[Last(r).tasks[i].node].store[id]) ==
            FromStr(Last(r).nodes[Last(r).tasks[Other(i)].node].store[id])
  {
    RunKeepsCertified(digest, r, |r.steps|);
    var end := Last(r);
    var a, b := end.tasks[i].node, end.tasks[Other(i)].node;
    assert Certified(digest, end.nodes[a].store) && Certified(digest, end.nodes[b].store);
    var x, y := end.nodes[a].store[id], end.nodes[b].store[id];
    assert EntryOk(digest, id, x) && EntryOk(digest, id, y);
    assert Find(end.nodes[a].store, id) == Some(x) && Find(end.nodes[b].store, id) == Some(y);
    SameIdSameValue(digest, id, x, y, texts);
  }

  // ---------- named peers ----------

  /** The node served by task `i`. */
  function Served(s: Net, i: nat): Node
    requires Wired(s) && i < |s.tasks|
  {
    s.nodes[s.tasks[i].node]
  }

  /** The peers are named in a message still to be read, or the node has read it. */
  ghost predicate Learning(s: Net, i: nat, ps: seq<Peer>) {
    Wired(s) && i < |s.tasks| && (Alive(s, i) ==> Peers(ps) in s.tasks[i].inbox || Knows(Served(s, i), ps))
  }

  /** If the step has task `i` read a list of peers, the peers file takes every line of it. */
  predicate DiskTakes(s: Net, step: Step, i: nat) {
    step.Deliver? && step.i == i < |s.tasks| && s.tasks[i].inbox != [] && s.tasks[i].inbox[0].Peers? ==>
      |s.tasks[i].inbox[0].peers| <= step.luck.disk.good
  }

  lemma ReadsFirst(digest: string -> string, s: Net, i: nat, luck: Luck)
    requires Enabled(s, Deliver(i, luck)) && Alive(Apply(digest, s, Deliver(i, luck)), i)
    ensures var t := Apply(digest, s, Deliver(i, luck));
            && t.tasks[i].node == s.tasks[i].node && t.tasks[i].inbox == s.tasks[i].inbox[1..]
            && Wired(t) && Served(t, i) == Served(s, i).(log := HandledBy(digest, s, i, luck).log)
  {
    StepExtends(digest, s, Deliver(i, luck));
  }

  lemma KnowsStays(s: Net, t: Net, n: nat, ps: seq<Peer>)
    requires Extends(s, t) && n < |s.nodes| && Knows(s.nodes[n], ps)
    ensures Knows(t.nodes[n], ps)
  {
  }

  lemma ReadingLearns(digest: string -> string, s: Net, i: nat, luck: Luck, ps: seq<Peer>)
    requires Enabled(s, Deliver(i, luck)) && Learning(s, i, ps) && DiskTakes(s, Deliver(i, luck), i)
    ensures Learning(Apply(digest, s, Deliver(i, luck)), i, ps)
  {
    var t := Apply(digest, s, Deliver(i, luck));
    StepExtends(digest, s, Deliver(i, luck));
    if Alive(t, i) {
      ReadsFirst(digest, s, i, luck);
      if Knows(Served(s, i), ps) {
        KnowsStays(s, t, s.tasks[i].node, ps);
      } else if s.tasks[i].inbox[0] == Peers(ps) {
        PeersAreLearnt(digest, Served(s, i), ps, luck);
      }
    }
  }

  /** A step that does not read from task `i` at most adds to its queue. */
  lemma QueueStays(digest: string -> string, s: Net, step: Step, i: nat)
    requires Enabled(s, step) && i < |s.tasks| && (step.Deliver? ==> step.i != i)
    ensures var t := Apply(digest, s, step);
            && |t.tasks| == |s.tasks| && t.tasks[i].node == s.tasks[i].node
            && (Alive(t, i) ==> Alive(s, i) && s.tasks[i].inbox <= t.tasks[i].inbox)
  {
  }

  lemma StepKeepsLearning(digest: string -> string, s: Net, step: Step, i: nat, ps: seq<Peer>)
    requires Enabled(s, step) && Learning(s, i, ps) && DiskTakes(s, step, i)
    ensures Learning(Apply(digest, s, step), i, ps)
  {
    if step.Deliver? && step.i == i {
      ReadingLearns(digest, s, i, step.luck, ps);
    } else {
      var t := Apply(digest, s, step);
      StepExtends(digest, s, step);
      QueueStays(digest, s, step, i);
      if Alive(t, i) {
        if Peers(ps) in s.tasks[i].inbox {
          assert forall m | m in s.tasks[i].inbox :: m in t.tasks[i].inbox;
        } else {
          KnowsStays(s, t, s.tasks[i].node, ps);
        }
      }
    }
  }

  lemma StepAtKeepsLearning(digest: string -> string, r: Run, k: nat, i: nat, ps: seq<Peer>)
    requires k < |r.steps| && |r.states| == |r.steps| + 1 && StepAt(digest, r, k)
    requires DiskTakes(r.states[k], r.steps[k], i)
    ensures Learning(r.states[k], i, ps) ==> Learning(r.states[k + 1], i, ps)
  {
    if Learning(r.states[k], i, ps) {
      StepKeepsLearning(digest, r.states[k], r.steps[k], i, ps);
    }
  }

  lemma {:induction false} RunKeepsLearning(digest: string -> string, r: Run, j: nat, k: nat, i: nat, ps: seq<Peer>)
    requires IsRun(digest, r) && j <= k < |r.states| && Learning(r.states[j], i, ps)
    requires forall l | j <= l < k :: DiskTakes(r.states[l], r.steps[l], i)
    ensures Learning(r.states[k], i, ps)
    decreases k - j
  {
    if j < k {
      RunKeepsLearning(digest, r, j, k - 1, i, ps);
      StepAtKeepsLearning(digest, r, k - 1, i, ps);
    }
  }

  /** In every run that ends with nothing left to deliver or store: whoever is named in a list of peers
      that is anywhere in the queue of a task at any time is, in the end, in the map of the node that
      task serves or on its ban list, if the task is still there and the peers file has taken every line
      it was given there since. Stores may fail, and other connections may do whatever they do. */
  lemma NamedPeersAreLearnt(digest: string -> string, r: Run, j: nat, i: nat, ps: seq<Peer>)
    requires IsRun(digest, r) && j < |r.states| && i < |r.states[j].tasks| && Peers(ps) in r.states[j].tasks[i].inbox
    requires forall l | j <= l < |r.steps| :: DiskTakes(r.states[l], r.steps[l], i)
    requires Quiet(Last(r)) && Alive(Last(r), i)
    ensures Wired(Last(r)) && Knows(Served(Last(r), i), ps)
  {
    RunExtends(digest, r, j, j);
    RunKeepsLearning(digest, r, j, |r.steps|, i, ps);
  }
}
