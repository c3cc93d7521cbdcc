/** The content-addressed stores of the network, in every interleaving. */
module NetworkStore {
  import opened Wrappers
  import opened Json
  import opened JsonText
  import opened Canonical
  import opened Storage
  import opened Messages
  import opened Dispatch
  import opened Network
  import opened Transaction
  import opened Spending

  /** Every stored entry, and every entry about to be stored, certifies itself. */
  ghost predicate AllCertified(digest: string -> string, s: Net) {
    && (forall n | 0 <= n < |s.nodes| :: Certified(digest, s.nodes[n].store))
    && forall i | 0 <= i < |s.tasks| && s.tasks[i].state.Putting? ::
         EntryOk(digest, s.tasks[i].state.id, s.tasks[i].state.raw)
  }

  lemma StepKeepsCertified(digest: string -> string, s: Net, step: Step)
    requires Enabled(s, step) && AllCertified(digest, s)
    ensures AllCertified(digest, Apply(digest, s, step))
  {
    var t := Apply(digest, s, step);
    forall i | 0 <= i < |t.tasks| && t.tasks[i].state.Putting?
      ensures EntryOk(digest, t.tasks[i].state.id, t.tasks[i].state.raw)
    {
      if s.tasks[i].state.Putting? {
        assert EntryOk(digest, s.tasks[i].state.id, s.tasks[i].state.raw);
      }
    }
    forall n | 0 <= n < |t.nodes| ensures Certified(digest, t.nodes[n].store) {
      assert Certified(digest, s.nodes[n].store);
    }
  }

  lemma StepAtKeepsCertified(digest: string -> string, r: Run, k: nat)
    requires k < |r.steps| && |r.states| == |r.steps| + 1 && StepAt(digest, r, k)
    ensures AllCertified(digest, r.states[k]) ==> AllCertified(digest, r.states[k + 1])
  {
    if AllCertified(digest, r.states[k]) {
      StepKeepsCertified(digest, r.states[k], r.steps[k]);
    }
  }

  /** In every interleaving of any number of connections, whatever is sent, the stores stay
      self-certifying. */
  lemma {:induction false} RunKeepsCertified(digest: string -> string, r: Run, k: nat)
    requires IsRun(digest, r) && AllCertified(digest, r.states[0]) && k < |r.states|
    ensures AllCertified(digest, r.states[k])
  {
    if k > 0 {
      RunKeepsCertified(digest, r, k - 1);
      StepAtKeepsCertified(digest, r, k - 1);
    }
  }

  /** The text stored by node `n` under `id` in state `k` of a run. */
  function StoredAt(r: Run, k: nat, n: nat, id: string): Option<string>
    requires k < |r.states| && n < |r.states[k].nodes|
  {
    Find(r.states[k].nodes[n].store, id)
  }

  /** An id once stored stays stored, and without a collision its value never changes, although its
      text may. */
  lemma StoredValueNeverChanges(digest: string -> string, r: Run, j: nat, k: nat, n: nat, id: string,
                                texts: iset<string>)
    requires IsRun(digest, r) && AllCertified(digest, r.states[0])
    requires j <= k < |r.states| && n < |r.states[j].nodes| == |r.states[k].nodes|
    requires StoredAt(r, j, n, id).Some?
    requires CollisionFree(digest, texts)
    requires forall l, bytes | (l == j || l == k) && StoredAt(r, l, n, id) == Some(bytes) ::
               CanonicalOf(bytes).Some? ==> CanonicalOf(bytes).value in texts
    ensures StoredAt(r, k, n, id).Some?
    ensures FromStr(StoredAt(r, j, n, id).value) == FromStr(StoredAt(r, k, n, id).value)
    ensures CanonicalOf(StoredAt(r, j, n, id).value) == CanonicalOf(StoredAt(r, k, n, id).value)
  {
    RunExtends(digest, r, j, k);
    RunKeepsCertified(digest, r, j);
    RunKeepsCertified(digest, r, k);
    var a, b := StoredAt(r, j, n, id).value, StoredAt(r, k, n, id).value;
    assert Certified(digest, r.states[j].nodes[n].store) && Certified(digest, r.states[k].nodes[n].store);
    assert EntryOk(digest, id, a) && EntryOk(digest, id, b);
    assert StoredAt(r, j, n, id) == Some(a) && StoredAt(r, k, n, id) == Some(b);
    SameIdSameValue(digest, id, a, b, texts);
  }

  // ---------- one delivery, one put ----------

  /** Task `i` is about to read `m`. */
  ghost predicate Awaits(s: Net, i: nat, m: Message, luck: Luck) {
    && Wired(s) && i < |s.tasks| && s.tasks[i].state == Running && s.tasks[i].inbox != [] && s.tasks[i].inbox[0] == m
    && Enumerates(luck.order, s.nodes[s.tasks[i].node].log.known)
  }

  /** Nothing moved but task `i`. */
  predicate OnlyTask(s: Net, t: Net, i: nat) {
    && |t.tasks| == |s.tasks|
    && forall j | 0 <= j < |s.tasks| && j != i :: t.tasks[j] == s.tasks[j]
  }

  lemma FindsMissing(digest: string -> string, s: Net, i: nat, id: string, raw: string, luck: Luck)
    requires Awaits(s, i, Object(id, raw), luck) && !luck.storeFault
    requires EntryOk(digest, id, raw) && id !in s.nodes[s.tasks[i].node].store
    ensures Enabled(s, Deliver(i, luck))
    ensures var t := Apply(digest, s, Deliver(i, luck));
            && Wired(t) && t.nodes == s.nodes && OnlyTask(s, t, i)
            && t.tasks[i] == Task(s.tasks[i].node, s.tasks[i].inbox[1..], Putting(id, raw))
  {
    StepExtends(digest, s, Deliver(i, luck));
    var h := HandledBy(digest, s, i, luck);
    assert h == Handled(s.nodes[s.tasks[i].node].log, [], PutNext(id, raw));
    assert Send(s.tasks[Other(i)], []) == s.tasks[Other(i)];
  }

  lemma Stores(digest: string -> string, s: Net, i: nat, id: string, raw: string)
    requires Wired(s) && i < |s.tasks| && s.tasks[i].state == Putting(id, raw)
    ensures Enabled(s, Step.Put(i, false))
    ensures var t, n := Apply(digest, s, Step.Put(i, false)), s.tasks[i].node;
            && Wired(t) && OnlyTask(s, t, i) && t.tasks[i] == s.tasks[i].(state := Running)
            && t.nodes == s.nodes[n := s.nodes[n].(store := s.nodes[n].store[id := raw])]
  {
    StepExtends(digest, s, Step.Put(i, false));
  }

  // ---------- validation beside the network ----------

  /** State `when(t)` of the run is the one that read `t` of a validation sees at node `n`. */
  ghost predicate Samples(hist: History, r: Run, n: nat, when: nat -> nat) {
    forall t: nat :: SampledAt(hist, r, n, when, t)
  }

  ghost predicate SampledAt(hist: History, r: Run, n: nat, when: nat -> nat, t: nat) {
    && when(t) <= when(t + 1) < |r.states|
    && n < |r.states[when(t)].nodes|
    && TableAt(hist, t) == r.states[when(t)].nodes[n].store
  }

  ghost predicate TextsAmong(hist: History, texts: iset<string>) {
    forall t: nat, id: string :: TextAmong(hist, t, id, texts)
  }

  predicate TextAmong(hist: History, t: nat, id: string, texts: iset<string>) {
    id in TableAt(hist, t) && CanonicalOf(TableAt(hist, t)[id]).Some? ==>
      CanonicalOf(TableAt(hist, t)[id]).value in texts
  }

  /** A node's store, sampled along any run, certifies itself and only grows. */
  lemma RunsGrow(digest: string -> string, r: Run, n: nat, hist: History, when: nat -> nat, texts: iset<string>)
    requires IsRun(digest, r) && AllCertified(digest, r.states[0])
    requires Samples(hist, r, n, when) && TextsAmong(hist, texts)
    ensures Grows(digest, hist, texts)
  {
    forall t: nat ensures StepOk(digest, hist, texts, t) {
      assert SampledAt(hist, r, n, when, t) && SampledAt(hist, r, n, when, t + 1);
      RunKeepsCertified(digest, r, when(t));
      RunExtends(digest, r, when(t), when(t + 1));
      assert Certified(digest, r.states[when(t)].nodes[n].store);
      forall id | id in TableAt(hist, t) ensures CanonicalOf(TableAt(hist, t)[id]).value in texts {
        assert TextAmong(hist, t, id, texts);
        assert EntryOk(digest, id, TableAt(hist, t)[id]);
      }
    }
  }

  /** Validating a transaction on a node while any number of its connections deliver objects never
      panics, and a transaction found valid is acceptable in the store as the last read found it. */
  lemma ValidationBesideTheNetwork(crypto: Crypto, obj: Value, reader: Reader, r: Run, n: nat,
                                   hist: History, when: nat -> nat, texts: iset<string>)
    requires IsRun(crypto.digest, r) && AllCertified(crypto.digest, r.states[0])
    requires Samples(hist, r, n, when) && ReadsFrom(reader, hist)
    requires TextsAmong(hist, texts) && CollisionFree(crypto.digest, texts)
    requires WellFormed(obj) && (TxOf(obj).Some? ==> Countable(TxOf(obj).value))
    ensures Judgement(crypto, obj, reader) != Panic
    ensures Judgement(crypto, obj, reader) == Valid ==>
              Acceptable(crypto, TableAt(hist, 2 * |TxOf(obj).value.inputs|), obj)
  {
    RunsGrow(crypto.digest, r, n, hist, when, texts);
    SecondPassCannotPanic(crypto, obj, reader, hist, texts);
    if Judgement(crypto, obj, reader) == Valid {
      FoundValidIsAcceptable(crypto, obj, reader, hist, texts);
    }
  }

  // ---------- passing an object on ----------

  /** Whatever form the stored text has, a certified object that is asked for is sent, and the loop goes
      on: building the reply never fails. */
  lemma HeldObjectIsSent(digest: string -> string, r: Run, k: nat, n: nat, id: string, luck: Luck)
    requires IsRun(digest, r) && AllCertified(digest, r.states[0])
    requires k < |r.states| && n < |r.states[k].nodes| && id in r.states[k].nodes[n].store && !luck.storeFault
    ensures var h := Handle(digest, r.states[k].nodes[n], GetObject(id), luck);
            h.next == Continue && |h.replies| == 1 && h.replies[0].Object? && h.replies[0].objectId == id
  {
    RunKeepsCertified(digest, r, k);
    var store := r.states[k].nodes[n].store;
    assert Certified(digest, store);
    assert EntryOk(digest, id, store[id]);
    ParsedTextIsSendable(id, store[id]);
  }

  predicate RawMessages(ms: seq<Message>) {
    forall k | 0 <= k < |ms| && ms[k].Object? :: IsRaw(ms[k].raw)
  }

  ghost predicate RawStore(store: map<string, string>) {
    forall id | id in store :: IsRaw(store[id])
  }

  predicate RawTask(t: Task) {
    RawMessages(t.inbox) && (t.state.Putting? ==> IsRaw(t.state.raw))
  }

  /** Every object on its way or stored is bare JSON text: what `RawValue` guarantees of a message. */
  ghost predicate AllRaw(s: Net) {
    && (forall n | 0 <= n < |s.nodes| :: RawStore(s.nodes[n].store))
    && forall i | 0 <= i < |s.tasks| :: RawTask(s.tasks[i])
  }

  lemma HandleKeepsRaw(digest: string -> string, node: Node, m: Message, luck: Luck)
    requires RawStore(node.store) && (m.Object? ==> IsRaw(m.raw))
    ensures var h := Handle(digest, node, m, luck);
            RawMessages(h.replies) && (h.next.PutNext? ==> IsRaw(h.next.raw))
  {
    if m.GetObject? && m.objectId in node.store {
      assert IsRaw(node.store[m.objectId]);
    }
  }

  lemma StepKeepsRaw(digest: string -> string, s: Net, step: Step)
    requires Enabled(s, step) && AllRaw(s)
    ensures AllRaw(Apply(digest, s, step))
  {
    var t := Apply(digest, s, step);
    assert RawTask(s.tasks[step.i]);
    if step.Deliver? {
      HandleKeepsRaw(digest, s.nodes[s.tasks[step.i].node], s.tasks[step.i].inbox[0], step.luck);
    }
    forall n | 0 <= n < |t.nodes| ensures RawStore(t.nodes[n].store) {
      assert RawStore(s.nodes[n].store);
    }
    forall i | 0 <= i < |t.tasks| ensures RawTask(t.tasks[i]) {
      assert RawTask(s.tasks[i]);
    }
  }

  lemma {:induction false} RunKeepsRaw(digest: string -> string, r: Run, k: nat)
    requires IsRun(digest, r) && AllRaw(r.states[0]) && k < |r.states|
    ensures AllRaw(r.states[k])
  {
    if k > 0 {
      RunKeepsRaw(digest, r, k - 1);
      assert StepAt(digest, r, k - 1);
      StepKeepsRaw(digest, r.states[k - 1], r.steps[k - 1]);
    }
  }

  /** In every reachable state, whoever asks a node for an object it holds is sent the stored text byte
      for byte, and every receiver finds that it certifies the id: an honest node is never answered
      with an id mismatch. */
  lemma RepliesAreCertified(digest: string -> string, r: Run, k: nat, n: nat, id: string, luck: Luck,
                            receiver: Node, atReceiver: Luck)
    requires IsRun(digest, r) && AllCertified(digest, r.states[0]) && AllRaw(r.states[0])
    requires k < |r.states| && n < |r.states[k].nodes| && id in r.states[k].nodes[n].store
    requires !luck.storeFault && !atReceiver.storeFault
    ensures var sender := r.states[k].nodes[n];
            && Handle(digest, sender, GetObject(id), luck) ==
               Handled(sender.log, [Object(id, sender.store[id])], Continue)
            && Handle(digest, receiver, Object(id, sender.store[id]), atReceiver) ==
               Handled(receiver.log, [], if id in receiver.store then Continue else PutNext(id, sender.store[id]))
  {
    RunKeepsCertified(digest, r, k);
    RunKeepsRaw(digest, r, k);
    var sender := r.states[k].nodes[n];
    assert Certified(digest, sender.store) && RawStore(sender.store);
    assert EntryOk(digest, id, sender.store[id]);
    assert IsRaw(sender.store[id]);
  }

  /** A delivery that stores nothing and teaches no peers moves one message to the other end. */
  lemma Answers(digest: string -> string, s: Net, i: nat, m: Message, reply: Message, luck: Luck)
    requires Awaits(s, i, m, luck) && Other(i) < |s.tasks|
    requires s.tasks[Other(i)].state == Running && s.tasks[Other(i)].inbox == []
    requires Handle(digest, s.nodes[s.tasks[i].node], m, luck) ==
             Handled(s.nodes[s.tasks[i].node].log, [reply], Continue)
    ensures Enabled(s, Deliver(i, luck))
    ensures var t := Apply(digest, s, Deliver(i, luck));
            && Wired(t) && t.nodes == s.nodes && |t.tasks| == |s.tasks|
            && t.tasks[i] == Task(s.tasks[i].node, s.tasks[i].inbox[1..], Running)
            && t.tasks[Other(i)] == Task(s.tasks[Other(i)].node, [reply], Running)
  {
    StepExtends(digest, s, Deliver(i, luck));
    assert HandledBy(digest, s, i, luck) == Handled(s.nodes[s.tasks[i].node].log, [reply], Continue);
  }

  /** The run of one exchange. */
  function Exchange(i: nat, atReceiver: Luck, atSender: Luck): seq<Step> {
    [Deliver(i, atReceiver), Deliver(Other(i), atSender), Deliver(i, atReceiver), Step.Put(i, false)]
  }

  /** A receiver missing what the other end has, both idle but for the announcement. */
  ghost predicate Announced(digest: string -> string, s: Net, i: nat, id: string, atReceiver: Luck, atSender: Luck) {
    && Awaits(s, i, GotObject(id), atReceiver) && |s.tasks[i].inbox| == 1 && Other(i) < |s.tasks|
    && s.tasks[Other(i)].state == Running && s.tasks[Other(i)].inbox == []
    && s.tasks[i].node != s.tasks[Other(i)].node
    && id !in s.nodes[s.tasks[i].node].store
    && Enumerates(atSender.order, s.nodes[s.tasks[Other(i)].node].log.known)
    && id in s.nodes[s.tasks[Other(i)].node].store
    && EntryOk(digest, id, s.nodes[s.tasks[Other(i)].node].store[id])
    && IsRaw(s.nodes[s.tasks[Other(i)].node].store[id])
    && !atReceiver.storeFault && !atSender.storeFault
  }

  lemma AskAndSend(digest: string -> string, s: Net, i: nat, id: string, atReceiver: Luck, atSender: Luck)
    returns (s1: Net, s2: Net)
    requires Announced(digest, s, i, id, atReceiver, atSender)
    ensures Enabled(s, Deliver(i, atReceiver)) && s1 == Apply(digest, s, Deliver(i, atReceiver))
    ensures Enabled(s1, Deliver(Other(i), atSender)) && s2 == Apply(digest, s1, Deliver(Other(i), atSender))
    ensures s2.nodes == s.nodes && |s2.tasks| == |s.tasks| && s2.tasks[i].node == s.tasks[i].node
    ensures Awaits(s2, i, Object(id, s.nodes[s.tasks[Other(i)].node].store[id]), atReceiver)
  {
    var j := Other(i);
    assert Other(j) == i;
    var raw := s.nodes[s.tasks[j].node].store[id];
    Answers(digest, s, i, GotObject(id), GetObject(id), atReceiver);
    s1 := Apply(digest, s, Deliver(i, atReceiver));
    assert Handle(digest, s1.nodes[s1.tasks[j].node], GetObject(id), atSender).replies == [Object(id, raw)];
    Answers(digest, s1, j, GetObject(id), Object(id, raw), atSender);
    s2 := Apply(digest, s1, Deliver(j, atSender));
  }

  /** An announced object is asked for, sent byte for byte, accepted and stored, whatever the two nodes'
      peer maps and other connections; afterwards the receiver holds the same bytes under the same id,
      and nothing else has changed at any node. */
  lemma AnnouncedObjectArrives(digest: string -> string, s: Net, i: nat, id: string, atReceiver: Luck, atSender: Luck)
    returns (r: Run)
    requires Announced(digest, s, i, id, atReceiver, atSender)
    ensures IsRun(digest, r) && r.states[0] == s && r.steps == Exchange(i, atReceiver, atSender) && |r.states| == 5
    ensures var receiver, sender := s.tasks[i].node, s.tasks[Other(i)].node;
            r.states[4].nodes == s.nodes[receiver := s.nodes[receiver].(
              store := s.nodes[receiver].store[id := s.nodes[sender].store[id]])]
  {
    var raw := s.nodes[s.tasks[Other(i)].node].store[id];
    var s1, s2 := AskAndSend(digest, s, i, id, atReceiver, atSender);
    FindsMissing(digest, s2, i, id, raw, atReceiver);
    var s3 := Apply(digest, s2, Deliver(i, atReceiver));
    Stores(digest, s3, i, id, raw);
    var s4 := Apply(digest, s3, Step.Put(i, false));
    r := Run([s, s1, s2, s3, s4], Exchange(i, atReceiver, atSender));
    assert StepAt(digest, r, 0) && StepAt(digest, r, 1) && StepAt(digest, r, 2) && StepAt(digest, r, 3);
  }
}
