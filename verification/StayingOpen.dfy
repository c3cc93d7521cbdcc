/** When a message ends the loop, and that between honest nodes none ever does (src/net/dispatch.rs, lines 43-117). */
module StayingOpen {
  import opened Wrappers
  import opened Json
  import opened JsonText
  import opened JsonGrammar
  import opened Canonical
  import opened Storage
  import opened Messages
  import opened ObjectForm
  import opened Dispatch
  import opened Network
  import opened NetworkStore

  /** The text is JSON, of any nesting. */
  ghost predicate IsJson(text: string) {
    exists before, t, after :: TextOf(text, before, t, after)
  }

  /** The text is that of an object, and the digest of its canonical form is the id. */
  predicate Proves(digest: string -> string, id: string, raw: string) {
    HoldsObject(raw) && digest(CanonicalText(FromStr(raw).value)) == id
  }

  /** The text is JSON nested less than 128 deep, and has an object under the key `object`. */
  predicate HoldsObject(raw: string) {
    var v := FromStr(raw);
    v.Some? && v.value.Obj? && HasKey(v.value.fields, "object") && Lookup(v.value.fields, "object").value.Obj?
  }

  /** Handling the message asks the store. */
  predicate AsksStore(digest: string -> string, m: Message) {
    m.GetObject? || m.GotObject? || (m.Object? && Proves(digest, m.objectId, m.raw))
  }

  /** The object is not what its id says, or is no object. */
  predicate BadObject(digest: string -> string, m: Message) {
    m.Object? && !Proves(digest, m.objectId, m.raw)
  }

  /** What is stored under the id asked for is no JSON. */
  ghost predicate BadEntry(node: Node, m: Message) {
    m.GetObject? && m.objectId in node.store && !IsJson(node.store[m.objectId])
  }

  /** The text is an object message's, but its id is another. */
  predicate OtherId(digest: string -> string, m: Message) {
    m.Object? && HoldsObject(m.raw) && digest(CanonicalText(FromStr(m.raw).value)) != m.objectId
  }

  lemma RawIffJson(text: string)
    ensures RawOf(text).Some? <==> IsJson(text)
  {
    if RawOf(text).Some? {
      RawIff(text, RawOf(text).value);
    }
    if before, t, after :| TextOf(text, before, t, after) {
      RawIff(text, Spelled(t));
    }
  }

  /** A message ends the loop exactly when the store fails on it, or it asks for a stored text that is no JSON, or it
      is an object that is malformed or has another id; only the last ends it without an error. An object is
      stored exactly when it certifies its id and is not held. */
  lemma StopsIff(digest: string -> string, node: Node, m: Message, luck: Luck)
    ensures var next := Handle(digest, node, m, luck).next;
            && (next.Stop? <==> (luck.storeFault && AsksStore(digest, m)) || BadEntry(node, m) || BadObject(digest, m))
            && (next == Stop(Ok(())) <==> OtherId(digest, m))
            && (next == Stop(Err(ProtocolError.Storage)) <==> luck.storeFault && AsksStore(digest, m))
            && (next.Stop? && next.result.Err? ==> next.result.error in {ProtocolError.Storage, InvalidFormat})
            && (next.PutNext? <==>
                !luck.storeFault && m.Object? && Proves(digest, m.objectId, m.raw) && m.objectId !in node.store)
            && (next.PutNext? ==> next == PutNext(m.objectId, m.raw))
  {
    if m.GetObject? && m.objectId in node.store {
      RawIffJson(node.store[m.objectId]);
    }
  }

  /** What is answered: a request for peers, a request for a JSON text that is held, an announcement of something
      not held, and an object with another id; nothing else, in particular no request for something not held.
      Only peers that are sent change the log. */
  lemma AnswersIff(digest: string -> string, node: Node, m: Message, luck: Luck)
    ensures var h := Handle(digest, node, m, luck);
            && (h.replies != [] <==>
                || m.GetPeers? || OtherId(digest, m)
                || (!luck.storeFault && m.GetObject? && m.objectId in node.store && IsJson(node.store[m.objectId]))
                || (!luck.storeFault && m.GotObject? && m.objectId !in node.store))
            && (m.GotObject? && h.replies != [] ==> h.replies == [GetObject(m.objectId)])
            && (OtherId(digest, m) ==>
                  h.replies == [Error("INVALID_FORMAT", "object_id mismatch: claimed " + m.objectId + ", computed " +
                                                        digest(CanonicalText(FromStr(m.raw).value)))])
            && (m.GetObject? && !luck.storeFault && m.objectId !in node.store ==> h == Handled(node.log, [], Continue))
            && (!m.Peers? ==> h.log == node.log)
  {
    if m.GetObject? && m.objectId in node.store {
      RawIffJson(node.store[m.objectId]);
    }
  }

  // ---------- between honest nodes ----------

  predicate HonestQueue(digest: string -> string, ms: seq<Message>) {
    forall k | 0 <= k < |ms| && ms[k].Object? :: Proves(digest, ms[k].objectId, ms[k].raw)
  }

  /** Nobody is gone, and every object on its way certifies its id. */
  predicate AllOpen(digest: string -> string, s: Net) {
    forall i | 0 <= i < |s.tasks| :: !s.tasks[i].state.Done? && HonestQueue(digest, s.tasks[i].inbox)
  }

  lemma HonestHandle(digest: string -> string, node: Node, m: Message, luck: Luck)
    requires Certified(digest, node.store) && RawStore(node.store) && !luck.storeFault
    requires m.Object? ==> Proves(digest, m.objectId, m.raw)
    ensures var h := Handle(digest, node, m, luck); !h.next.Stop? && HonestQueue(digest, h.replies)
  {
    if m.GetObject? && m.objectId in node.store {
      var raw := node.store[m.objectId];
      assert EntryOk(digest, m.objectId, raw) && IsRaw(raw);
      assert Handle(digest, node, m, luck).replies == [Object(m.objectId, raw)];
    }
  }

  lemma StepStaysOpen(digest: string -> string, s: Net, step: Step)
    requires Enabled(s, step) && AllCertified(digest, s) && AllRaw(s) && AllOpen(digest, s)
    requires NoFault(step) && !step.Drop?
    ensures AllOpen(digest, Apply(digest, s, step))
  {
    var t := Apply(digest, s, step);
    assert HonestQueue(digest, s.tasks[step.i].inbox);
    if step.Deliver? {
      var node := s.nodes[s.tasks[step.i].node];
      assert Certified(digest, node.store) && RawStore(node.store);
      HonestHandle(digest, node, s.tasks[step.i].inbox[0], step.luck);
    }
    forall i | 0 <= i < |t.tasks| ensures !t.tasks[i].state.Done? && HonestQueue(digest, t.tasks[i].inbox) {
      assert HonestQueue(digest, s.tasks[i].inbox);
    }
  }

  /** From certified stores of bare JSON text, with nobody gone and only certified objects on their way: in every
      run without store faults and lost connections, nobody ever leaves the loop. */
  lemma {:induction false} HonestRunsStayOpen(digest: string -> string, r: Run, k: nat)
    requires IsRun(digest, r) && k < |r.states| && FaultFree(r.steps) && forall step | step in r.steps :: !step.Drop?
    requires AllCertified(digest, r.states[0]) && AllRaw(r.states[0]) && AllOpen(digest, r.states[0])
    ensures AllOpen(digest, r.states[k])
  {
    if k > 0 {
      HonestRunsStayOpen(digest, r, k - 1);
      RunKeepsCertified(digest, r, k - 1);
      RunKeepsRaw(digest, r, k - 1);
      StepAtStaysOpen(digest, r, k - 1);
    }
  }

  lemma StepAtStaysOpen(digest: string -> string, r: Run, k: nat)
    requires IsRun(digest, r) && k < |r.steps| && NoFault(r.steps[k]) && !r.steps[k].Drop?
    requires AllCertified(digest, r.states[k]) && AllRaw(r.states[k]) && AllOpen(digest, r.states[k])
    ensures AllOpen(digest, r.states[k + 1])
  {
    assert StepAt(digest, r, k);
    StepStaysOpen(digest, r.states[k], r.steps[k]);
  }
}
