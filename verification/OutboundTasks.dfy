/** What an outbound task does with its own entry (src/net/client.rs, lines 42-75): a task that has been in the
    message loop removes it, one whose handshake has failed leaves it to a prune. */
module OutboundTasks {
  import opened PeerText
  import opened Outbound

  /** In the loop or on its way out of it; its handle is not in the map once it is past its removal. */
  predicate CleaningUp(s: Sys, id: nat) {
    && id < |s.tasks| && !Pending(s, id)
    && (Looped(s.tasks[id].stage) || ((AtStage(s, id, Exiting) || AtStage(s, id, Finished)) && id !in s.conns.Values))
  }

  predicate Looped(stage: Stage) {
    stage == Looping || stage == Cleaning
  }

  lemma StepCleansUp(max: nat, s: Sys, step: Step, id: nat)
    requires Inv(max, s) && Enabled(s, step) && CleaningUp(s, id) && step != Crash(id)
    ensures CleaningUp(Apply(max, s, step), id)
  {
    var t := Apply(max, s, step);
    forall p | p in t.conns ensures t.conns[p] in s.conns.Values || Pending(s, t.conns[p]) {
      if p in s.conns {
        assert s.conns[p] in s.conns.Values;
      }
    }
    if step == Remove(id) {
      forall p | p in t.conns ensures t.conns[p] != id {
        RemovesOwnEntry(max, s, id, p);
      }
    }
  }

  /** In every interleaving: once a task that has been in the message loop, with its handle inserted, has left it,
      its handle is not in the map when it ends, unless it is aborted. */
  lemma {:induction false} LoopedTasksCleanUp(max: nat, peers: set<Peer>, r: Run, j: nat, k: nat, id: nat)
    requires IsRun(max, r) && r.states[0] == Start(peers) && j <= k < |r.states|
    requires AtStage(r.states[j], id, Looping) && !Pending(r.states[j], id)
    requires forall l | j <= l < k :: r.steps[l] != Crash(id)
    ensures CleaningUp(r.states[k], id)
    decreases k - j
  {
    if j < k {
      LoopedTasksCleanUp(max, peers, r, j, k - 1, id);
      RunKeepsInv(max, r, k - 1);
      assert StepAt(max, r, k - 1);
      StepCleansUp(max, r.states[k - 1], r.steps[k - 1], id);
    }
  }

  /** The task is over without having removed its entry. */
  predicate LeftBehind(s: Sys, id: nat, p: Peer) {
    (AtStage(s, id, Exiting) || AtStage(s, id, Finished)) && p in s.conns && s.conns[p] == id
  }

  lemma StepLeavesBehind(max: nat, s: Sys, step: Step, id: nat, p: Peer)
    requires Inv(max, s) && Enabled(s, step) && LeftBehind(s, id, p)
    requires step != SpawnerVisits(p) && step != KeeperVisits(p)
    ensures LeftBehind(Apply(max, s, step), id, p)
  {
    match step
    case Remove(other) => RemovesOwnEntry(max, s, other, p);
    case Insert => assert Reserved(s)[0] == s.tasks[s.spawner.id].peer;
    case _ =>
  }

  /** In every interleaving: the entry of a task whose handshake fails stays until a prune looks at it, so its peer
      is not dialled again before that. */
  lemma {:induction false} FailedTasksWaitForPrune(max: nat, peers: set<Peer>, r: Run, j: nat, k: nat, id: nat,
                                                   p: Peer)
    requires IsRun(max, r) && r.states[0] == Start(peers) && j < k < |r.states|
    requires r.steps[j] == Shaken(id, false) && p in r.states[j].conns && r.states[j].conns[p] == id
    requires forall l | j <= l < k :: r.steps[l] != SpawnerVisits(p) && r.steps[l] != KeeperVisits(p)
    ensures LeftBehind(r.states[k], id, p)
    decreases k - j
  {
    assert StepAt(max, r, k - 1);
    if j + 1 < k {
      FailedTasksWaitForPrune(max, peers, r, j, k - 1, id, p);
      RunKeepsInv(max, r, k - 1);
      StepLeavesBehind(max, r.states[k - 1], r.steps[k - 1], id, p);
    }
  }
}
