/** The outbound connections: a loop that spawns tasks, the tasks themselves, and a second loop that
    prunes, all on one shared map (src/net/client.rs, src/net/housekeeping.rs). Every access to the map
    is a step of its own. */
module Outbound {
  import opened PeerText

  /** `Cleaning` is about to remove its entry, `Exiting` has nothing left to do but is not yet seen as
      finished. */
  datatype Stage = Shaking | Looping | Cleaning | Exiting | Finished

  datatype Task = Task(peer: Peer, stage: Stage)

  /** `retain` has still to look at the keys in `todo`, and may look at others. */
  datatype Keeper = Asleep | Pruning(todo: set<Peer>)

  datatype Spawner =
    | Resting
    | Retaining(todo: set<Peer>)
    | Counting(most: nat)
    | Choosing(room: nat)
    | Spawning(left: seq<Peer>)
    | Inserting(id: nat, left: seq<Peer>)

  /** A task's handle is its place in `tasks`; `conns` holds the handles of the shared map. */
  datatype Sys = Sys(tasks: seq<Task>, conns: map<Peer, nat>, peers: set<Peer>, spawner: Spawner, keeper: Keeper)

  datatype Step =
    | WakeSpawner | SpawnerVisits(key: Peer) | SpawnerRetained | Count(active: nat)
    | Choose(candidates: seq<Peer>) | Spawn | Insert | Rest
    | WakeKeeper | KeeperVisits(key: Peer) | KeeperRetained
    | Shaken(id: nat, ok: bool) | LoopEnds(id: nat) | Remove(id: nat) | Finish(id: nat) | Crash(id: nat)
    | Learn(peer: Peer)

  predicate AtStage(s: Sys, id: nat, stage: Stage) {
    id < |s.tasks| && s.tasks[id].stage == stage
  }

  /** Peers that are known and not connected, each at most once, and no more than there is room for:
      what filtering and then choosing at random can give. */
  predicate Choosable(s: Sys, candidates: seq<Peer>, room: nat) {
    NoRepeats(candidates) && |candidates| <= room && forall p | p in candidates :: p in s.peers && p !in s.conns
  }

  /** Only the spawner inserts, so a count of the map taken while others remove from it lies between
      its size before and its size after. */
  predicate Enabled(s: Sys, step: Step) {
    match step
    case WakeSpawner => s.spawner.Resting?
    case SpawnerVisits(key) => s.spawner.Retaining? && (key in s.spawner.todo || key in s.conns)
    case SpawnerRetained => s.spawner.Retaining? && s.spawner.todo == {}
    case Count(active) => s.spawner.Counting? && |s.conns| <= active <= s.spawner.most
    case Choose(candidates) => s.spawner.Choosing? && Choosable(s, candidates, s.spawner.room)
    case Spawn => s.spawner.Spawning? && s.spawner.left != []
    case Insert => s.spawner.Inserting? && s.spawner.id < |s.tasks|
    case Rest => s.spawner.Spawning? && s.spawner.left == []
    case WakeKeeper => s.keeper.Asleep?
    case KeeperVisits(key) => s.keeper.Pruning? && (key in s.keeper.todo || key in s.conns)
    case KeeperRetained => s.keeper.Pruning? && s.keeper.todo == {}
    case Shaken(id, _) => AtStage(s, id, Shaking)
    case LoopEnds(id) => AtStage(s, id, Looping)
    case Remove(id) => AtStage(s, id, Cleaning)
    case Finish(id) => AtStage(s, id, Exiting)
    case Crash(id) => id < |s.tasks|
    case Learn(_) => true
  }

  /** What `retain` does with one entry. */
  function Visited(s: Sys, key: Peer): map<Peer, nat> {
    if key in s.conns && AtStage(s, s.conns[key], Finished) then s.conns - {key} else s.conns
  }

  function Staged(s: Sys, id: nat, stage: Stage): Sys
    requires id < |s.tasks|
  {
    s.(tasks := s.tasks[id := s.tasks[id].(stage := stage)])
  }

  function Apply(max: nat, s: Sys, step: Step): Sys
    requires Enabled(s, step)
  {
    match step
    case WakeSpawner => s.(spawner := Retaining(s.conns.Keys))
    case SpawnerVisits(key) => s.(conns := Visited(s, key), spawner := Retaining(s.spawner.todo - {key}))
    case SpawnerRetained => s.(spawner := Counting(|s.conns|))
    case Count(active) => s.(spawner := if active < max then Choosing(max - active) else Resting)
    case Choose(candidates) => s.(spawner := Spawning(candidates))
    case Spawn =>
      s.(tasks := s.tasks + [Task(s.spawner.left[0], Shaking)], spawner := Inserting(|s.tasks|, s.spawner.left[1..]))
    case Insert =>
      s.(conns := s.conns[s.tasks[s.spawner.id].peer := s.spawner.id], spawner := Spawning(s.spawner.left))
    case Rest => s.(spawner := Resting)
    case WakeKeeper => s.(keeper := Pruning(s.conns.Keys))
    case KeeperVisits(key) => s.(conns := Visited(s, key), keeper := Pruning(s.keeper.todo - {key}))
    case KeeperRetained => s.(keeper := Asleep)
    case Shaken(id, ok) => Staged(s, id, if ok then Looping else Exiting)
    case LoopEnds(id) => Staged(s, id, Cleaning)
    case Remove(id) => Staged(s, id, Exiting).(conns := s.conns - {s.tasks[id].peer})
    case Finish(id) => Staged(s, id, Finished)
    case Crash(id) => Staged(s, id, Finished)
    case Learn(peer) => s.(peers := s.peers + {peer})
  }

  function Start(peers: set<Peer>): Sys {
    Sys([], map[], peers, Resting, Asleep)
  }

  datatype Run = Run(states: seq<Sys>, steps: seq<Step>)

  predicate StepAt(max: nat, r: Run, k: nat)
    requires k < |r.steps| && |r.states| == |r.steps| + 1
  {
    Enabled(r.states[k], r.steps[k]) && r.states[k + 1] == Apply(max, r.states[k], r.steps[k])
  }

  predicate IsRun(max: nat, r: Run) {
    |r.states| == |r.steps| + 1 && forall k | 0 <= k < |r.steps| :: StepAt(max, r, k)
  }

  function Last(r: Run): Sys
    requires |r.states| > 0
  {
    r.states[|r.states| - 1]
  }

  function Extended(max: nat, r: Run, step: Step): (e: Run)
    requires IsRun(max, r) && Enabled(Last(r), step)
    ensures IsRun(max, e) && e.states[0] == r.states[0] && |e.states| == |r.states| + 1
    ensures Last(e) == Apply(max, Last(r), step) && e.steps == r.steps + [step]
  {
    var e := Run(r.states + [Apply(max, Last(r), step)], r.steps + [step]);
    assert forall k | 0 <= k < |e.steps| :: StepAt(max, e, k) by {
      forall k | 0 <= k < |e.steps| ensures StepAt(max, e, k) {
        assert k < |r.steps| ==> StepAt(max, r, k);
      }
    }
    e
  }

  // ---------- the invariant ----------

  /** Connecting, talking, or about to remove its entry. */
  predicate Holds(t: Task) {
    t.stage == Shaking || t.stage == Looping || t.stage == Cleaning
  }

  /** A task spawned and not yet inserted, and the peers still to be spawned. */
  function Reserved(s: Sys): seq<Peer> {
    match s.spawner
    case Spawning(left) => left
    case Inserting(id, left) => (if id < |s.tasks| then [s.tasks[id].peer] else []) + left
    case _ => []
  }

  predicate Pending(s: Sys, id: nat) {
    s.spawner.Inserting? && s.spawner.id == id
  }

  predicate EntriesOk(s: Sys) {
    forall p | p in s.conns :: s.conns[p] < |s.tasks| && s.tasks[s.conns[p]].peer == p
  }

  predicate Tracked(s: Sys, id: nat)
    requires id < |s.tasks|
  {
    Pending(s, id) || (s.tasks[id].peer in s.conns && s.conns[s.tasks[id].peer] == id)
  }

  predicate ReservedOk(s: Sys) {
    && NoRepeats(Reserved(s)) && (forall p | p in Reserved(s) :: p !in s.conns)
    && (s.spawner.Inserting? ==> s.spawner.id < |s.tasks|)
    && (s.spawner.Counting? ==> |s.conns| <= s.spawner.most)
  }

  function Claims(s: Sys): nat {
    if s.spawner.Choosing? then s.spawner.room else |Reserved(s)|
  }

  /** Every entry is its own task's; every task that holds a connection has its entry, or is the one
      about to get it; nobody is spawned twice; and the map never outgrows its bound, even when all that
      is planned is in it. */
  predicate Inv(max: nat, s: Sys) {
    && EntriesOk(s) && ReservedOk(s)
    && (forall id | 0 <= id < |s.tasks| && Holds(s.tasks[id]) :: Tracked(s, id))
    && |s.conns| + Claims(s) <= max
  }

  lemma RemovalShrinks(m: map<Peer, nat>, key: Peer)
    ensures |m - {key}| <= |m|
    ensures key in m ==> |m - {key}| == |m| - 1
  {
    assert (m - {key}).Keys == m.Keys - {key};
    assert |(m - {key}).Keys| == |m - {key}|;
  }

  lemma InsertionGrows(m: map<Peer, nat>, key: Peer, id: nat)
    requires key !in m
    ensures |m[key := id]| == |m| + 1
  {
    assert m[key := id].Keys == m.Keys + {key};
    assert |m[key := id].Keys| == |m[key := id]|;
  }

  lemma HeadStandsOut(p: Peer, rest: seq<Peer>)
    requires NoRepeats([p] + rest)
    ensures p in [p] + rest && p !in rest && NoRepeats(rest)
    ensures forall q | q in rest :: q in [p] + rest
  {
    var all := [p] + rest;
    assert all[0] == p;
    forall i | 0 <= i < |rest| ensures rest[i] == all[i + 1] {}
    forall i, j | 0 <= i < j < |rest| ensures rest[i] != rest[j] {
      assert all[i + 1] != all[j + 1];
    }
  }

  lemma SpawnerKeepsInv(max: nat, s: Sys, step: Step)
    requires Enabled(s, step) && Inv(max, s)
    requires step.Count? || step.Choose? || step.Spawn? || step.Insert? || step.Rest?
    ensures Inv(max, Apply(max, s, step))
  {
    var t := Apply(max, s, step);
    match step
    case Spawn =>
      assert Reserved(t) == Reserved(s);
    case Insert =>
      var p := s.tasks[s.spawner.id].peer;
      assert Reserved(s) == [p] + Reserved(t);
      HeadStandsOut(p, Reserved(t));
      InsertionGrows(s.conns, p, s.spawner.id);
    case _ =>
  }

  /** A task that removes its entry removes no other. */
  lemma RemovesOwnEntry(max: nat, s: Sys, id: nat, p: Peer)
    requires AtStage(s, id, Cleaning) && Inv(max, s) && p in s.conns
    ensures p == s.tasks[id].peer <==> s.conns[p] == id
  {
    assert Tracked(s, id);
    if Pending(s, id) {
      assert Reserved(s)[0] == s.tasks[id].peer;
    }
  }

  /** Entries may go, and tasks may advance, as long as every task still holding has its entry. */
  predicate Shrunk(s: Sys, t: Sys) {
    && t.spawner == s.spawner && |t.tasks| == |s.tasks| && |t.conns| <= |s.conns|
    && (forall p | p in t.conns :: p in s.conns && t.conns[p] == s.conns[p])
    && (forall i | 0 <= i < |s.tasks| :: t.tasks[i].peer == s.tasks[i].peer)
  }

  lemma ShrunkKeepsInv(max: nat, s: Sys, t: Sys)
    requires Inv(max, s) && Shrunk(s, t)
    requires forall i | 0 <= i < |t.tasks| && Holds(t.tasks[i]) :: Tracked(t, i)
    ensures Inv(max, t)
  {
    assert Reserved(t) == Reserved(s);
  }

  lemma StillTracked(max: nat, s: Sys, id: nat, i: nat)
    requires Enabled(s, Remove(id)) && Inv(max, s) && i < |s.tasks| && i != id && Tracked(s, i)
    ensures Tracked(Apply(max, s, Remove(id)), i)
  {
    if !Pending(s, i) {
      RemovesOwnEntry(max, s, id, s.tasks[i].peer);
    }
  }

  lemma RemoveShrinks(max: nat, s: Sys, id: nat)
    requires Enabled(s, Remove(id))
    ensures Shrunk(s, Apply(max, s, Remove(id)))
  {
    RemovalShrinks(s.conns, s.tasks[id].peer);
  }

  lemma RemoveKeepsInv(max: nat, s: Sys, id: nat)
    requires Enabled(s, Remove(id)) && Inv(max, s)
    ensures Inv(max, Apply(max, s, Remove(id)))
  {
    RemoveShrinks(max, s, id);
    var t := Apply(max, s, Remove(id));
    forall i | 0 <= i < |t.tasks| && Holds(t.tasks[i]) ensures Tracked(t, i) {
      assert Holds(s.tasks[i]);
      StillTracked(max, s, id, i);
    }
    ShrunkKeepsInv(max, s, t);
  }

  lemma TaskShrinks(max: nat, s: Sys, step: Step)
    requires Enabled(s, step)
    requires step.Shaken? || step.LoopEnds? || step.Finish? || step.Crash? || step.Learn?
    ensures var t := Apply(max, s, step);
            && Shrunk(s, t) && t.conns == s.conns
            && forall i | 0 <= i < |t.tasks| && Holds(t.tasks[i]) :: Holds(s.tasks[i])
  {
  }

  lemma TaskKeepsInv(max: nat, s: Sys, step: Step)
    requires Enabled(s, step) && Inv(max, s)
    requires step.Shaken? || step.LoopEnds? || step.Finish? || step.Crash? || step.Learn?
    ensures Inv(max, Apply(max, s, step))
  {
    TaskShrinks(max, s, step);
    var t := Apply(max, s, step);
    forall i | 0 <= i < |t.tasks| && Holds(t.tasks[i]) ensures Tracked(t, i) {
      assert Tracked(s, i);
    }
    ShrunkKeepsInv(max, s, t);
  }

  lemma VisitShrinks(s: Sys, key: Peer)
    ensures Shrunk(s, s.(conns := Visited(s, key)))
  {
    RemovalShrinks(s.conns, key);
  }

  lemma VisitedKeepsInv(max: nat, s: Sys, key: Peer)
    requires Inv(max, s)
    ensures Inv(max, s.(conns := Visited(s, key)))
  {
    VisitShrinks(s, key);
    var t := s.(conns := Visited(s, key));
    forall i | 0 <= i < |t.tasks| && Holds(t.tasks[i]) ensures Tracked(t, i) {
      assert Tracked(s, i);
    }
    ShrunkKeepsInv(max, s, t);
  }

  /** The invariant does not read where a prune has got to. */
  lemma VisitKeepsInv(max: nat, s: Sys, step: Step)
    requires Enabled(s, step) && Inv(max, s)
    requires step.SpawnerVisits? || step.KeeperVisits?
    ensures Inv(max, Apply(max, s, step))
  {
    VisitedKeepsInv(max, s, step.key);
    var t, u := s.(conns := Visited(s, step.key)), Apply(max, s, step);
    assert u.tasks == t.tasks && u.conns == t.conns && Reserved(u) == Reserved(t);
    forall i | 0 <= i < |u.tasks| && Holds(u.tasks[i]) ensures Tracked(u, i) {
      assert Tracked(t, i);
    }
  }

  lemma StepKeepsInv(max: nat, s: Sys, step: Step)
    requires Enabled(s, step) && Inv(max, s)
    ensures Inv(max, Apply(max, s, step))
  {
    match step
    case Count(_) => SpawnerKeepsInv(max, s, step);
    case Choose(_) => SpawnerKeepsInv(max, s, step);
    case Spawn => SpawnerKeepsInv(max, s, step);
    case Insert => SpawnerKeepsInv(max, s, step);
    case Rest => SpawnerKeepsInv(max, s, step);
    case Remove(id) => RemoveKeepsInv(max, s, id);
    case SpawnerVisits(_) => VisitKeepsInv(max, s, step);
    case KeeperVisits(_) => VisitKeepsInv(max, s, step);
    case WakeSpawner =>
    case SpawnerRetained =>
    case WakeKeeper =>
    case KeeperRetained =>
    case _ => TaskKeepsInv(max, s, step);
  }

  lemma StepAtKeepsInv(max: nat, r: Run, k: nat)
    requires IsRun(max, r) && k < |r.steps|
    ensures Inv(max, r.states[k]) ==> Inv(max, r.states[k + 1])
  {
    assert StepAt(max, r, k);
    if Inv(max, r.states[k]) {
      StepKeepsInv(max, r.states[k], r.steps[k]);
    }
  }

  lemma {:induction false} RunKeepsInv(max: nat, r: Run, k: nat)
    requires IsRun(max, r) && Inv(max, r.states[0]) && k < |r.states|
    ensures Inv(max, r.states[k])
  {
    if k > 0 {
      RunKeepsInv(max, r, k - 1);
      StepAtKeepsInv(max, r, k - 1);
    }
  }

  // ---------- what the invariant means ----------

  function Holding(s: Sys): set<nat> {
    set id: nat | id < |s.tasks| && Holds(s.tasks[id])
  }

  lemma {:induction false} ValuesAtMostKeys(m: map<Peer, nat>)
    ensures |m.Values| <= |m|
    decreases |m|
  {
    if m != map[] {
      var p :| p in m;
      var rest := m - {p};
      RemovalShrinks(m, p);
      ValuesAtMostKeys(rest);
      assert m.Values == rest.Values + {m[p]} by {
        forall v | v in m.Values ensures v in rest.Values + {m[p]} {
          var q :| q in m && m[q] == v;
          assert q == p || (q in rest && rest[q] == v);
        }
      }
    } else {
      assert m.Values == {};
    }
  }

  /** In every interleaving of the spawning loop, the pruning of either loop and the tasks' own steps,
      no more than `max` tasks hold a connection, no two hold one to the same peer, and the map has at
      most `max` entries. */
  lemma BoundedInEveryInterleaving(max: nat, peers: set<Peer>, r: Run, k: nat)
    requires IsRun(max, r) && r.states[0] == Start(peers) && k < |r.states|
    ensures var s := r.states[k];
            && |Holding(s)| <= max && |s.conns| <= max
            && forall i, j | i in Holding(s) && j in Holding(s) && i != j :: s.tasks[i].peer != s.tasks[j].peer
  {
    RunKeepsInv(max, r, k);
    var s := r.states[k];
    HoldersAreBounded(max, s);
    forall i, j | i in Holding(s) && j in Holding(s) && i != j ensures s.tasks[i].peer != s.tasks[j].peer {
      assert Tracked(s, i) && Tracked(s, j);
      if s.spawner.Inserting? {
        assert s.tasks[s.spawner.id].peer in Reserved(s) by { assert Reserved(s)[0] == s.tasks[s.spawner.id].peer; }
      }
    }
  }

  lemma HoldersAreBounded(max: nat, s: Sys)
    requires Inv(max, s)
    ensures |Holding(s)| <= max && |s.conns| <= max
  {
    ValuesAtMostKeys(s.conns);
    var most := s.conns.Values + if s.spawner.Inserting? then {s.spawner.id} else {};
    forall id | id in Holding(s) ensures id in most {
      assert Tracked(s, id);
    }
    SubsetSize(Holding(s), most);
  }

  lemma SubsetSize(a: set<nat>, b: set<nat>)
    requires a <= b
    ensures |a| <= |b|
  {
    assert b == a + (b - a);
  }

  /** A handle leaves the map only when its task has finished, or by that very task's own removal:
      no task removes the handle of another, no insertion replaces one, no prune drops a live one. */
  lemma OnlyDoneOrOwnHandlesLeave(max: nat, s: Sys, step: Step, p: Peer)
    requires Inv(max, s) && Enabled(s, step) && p in s.conns
    ensures var id, after := s.conns[p], Apply(max, s, step).conns;
            (p in after && after[p] == id) || AtStage(s, id, Finished) || step == Remove(id)
  {
    match step
    case Remove(id) => assert Tracked(s, id);
    case Insert => assert Reserved(s)[0] == s.tasks[s.spawner.id].peer;
    case _ =>
  }

  /** In every interleaving: as long as its task has neither finished nor removed itself, a handle that
      is in the map stays under its peer. */
  lemma {:induction false} LiveHandlesStay(max: nat, peers: set<Peer>, r: Run, j: nat, k: nat, p: Peer)
    requires IsRun(max, r) && r.states[0] == Start(peers) && j <= k < |r.states|
    requires p in r.states[j].conns && var id := r.states[j].conns[p];
             && !AtStage(r.states[k], id, Finished)
             && forall l | j <= l < k :: r.steps[l] != Remove(id)
    ensures p in r.states[k].conns && r.states[k].conns[p] == r.states[j].conns[p]
    decreases k
  {
    if j < k {
      var id := r.states[j].conns[p];
      assert StepAt(max, r, k - 1);
      if AtStage(r.states[k - 1], id, Finished) {
        FinishedForGood(max, r.states[k - 1], r.steps[k - 1], id);
      }
      LiveHandlesStay(max, peers, r, j, k - 1, p);
      RunKeepsInv(max, r, k - 1);
      OnlyDoneOrOwnHandlesLeave(max, r.states[k - 1], r.steps[k - 1], p);
    }
  }

  lemma FinishedForGood(max: nat, s: Sys, step: Step, id: nat)
    requires Enabled(s, step) && AtStage(s, id, Finished)
    ensures AtStage(Apply(max, s, step), id, Finished)
  {
  }

  // ---------- stale handles ----------

  /** Task `id` has finished, and its handle, if it is in the map, is under a key in `todo`. */
  predicate Doomed(s: Sys, id: nat, todo: set<Peer>) {
    AtStage(s, id, Finished) && !Pending(s, id) && forall p | p in s.conns && s.conns[p] == id :: p in todo
  }

  lemma StepKeepsDoomed(max: nat, s: Sys, step: Step, id: nat, todo: set<Peer>)
    requires Enabled(s, step) && Doomed(s, id, todo)
    ensures Doomed(Apply(max, s, step), id, todo)
  {
  }

  lemma VisitLooks(max: nat, s: Sys, step: Step, id: nat, todo: set<Peer>)
    requires Enabled(s, step) && Doomed(s, id, todo) && (step.KeeperVisits? || step.SpawnerVisits?)
    ensures Doomed(Apply(max, s, step), id, todo - {step.key})
  {
  }

  lemma {:induction false} GoneForGood(max: nat, r: Run, k: nat, l: nat, id: nat)
    requires IsRun(max, r) && k <= l < |r.states| && Doomed(r.states[k], id, {})
    ensures Doomed(r.states[l], id, {})
    decreases l
  {
    if k < l {
      GoneForGood(max, r, k, l - 1, id);
      assert StepAt(max, r, l - 1);
      StepKeepsDoomed(max, r.states[l - 1], r.steps[l - 1], id, {});
    }
  }

  /** One prune of the housekeeping loop: it starts with step `j` and is complete with step `k`. */
  predicate KeeperPrunes(r: Run, j: nat, k: nat) {
    && j < k < |r.steps| && r.steps[j].WakeKeeper? && r.steps[k].KeeperRetained?
    && forall l | j < l < k :: !r.steps[l].KeeperRetained?
  }

  /** One prune of the spawning loop. */
  predicate SpawnerPrunes(r: Run, j: nat, k: nat) {
    && j < k < |r.steps| && r.steps[j].WakeSpawner? && r.steps[k].SpawnerRetained?
    && forall l | j < l < k :: !r.steps[l].SpawnerRetained?
  }

  lemma {:induction false} KeeperLooks(max: nat, r: Run, j: nat, k: nat, l: nat, id: nat)
    requires IsRun(max, r) && KeeperPrunes(r, j, k) && j < l <= k
    requires AtStage(r.states[j], id, Finished) && !Pending(r.states[j], id)
    ensures r.states[l].keeper.Pruning? && Doomed(r.states[l], id, r.states[l].keeper.todo)
  {
    assert StepAt(max, r, l - 1);
    if j + 1 < l {
      KeeperLooks(max, r, j, k, l - 1, id);
      var s, step := r.states[l - 1], r.steps[l - 1];
      if step.KeeperVisits? {
        VisitLooks(max, s, step, id, s.keeper.todo);
      } else {
        StepKeepsDoomed(max, s, step, id, s.keeper.todo);
      }
    }
  }

  lemma {:induction false} SpawnerLooks(max: nat, r: Run, j: nat, k: nat, l: nat, id: nat)
    requires IsRun(max, r) && SpawnerPrunes(r, j, k) && j < l <= k && AtStage(r.states[j], id, Finished)
    ensures r.states[l].spawner.Retaining? && Doomed(r.states[l], id, r.states[l].spawner.todo)
  {
    assert StepAt(max, r, l - 1);
    if j + 1 < l {
      SpawnerLooks(max, r, j, k, l - 1, id);
      var s, step := r.states[l - 1], r.steps[l - 1];
      if step.SpawnerVisits? {
        VisitLooks(max, s, step, id, s.spawner.todo);
      } else {
        StepKeepsDoomed(max, s, step, id, s.spawner.todo);
      }
    }
  }

  /** The handle of a task that has finished before a prune of the spawning loop starts is gone for good
      once that prune is complete. */
  lemma SpawnerPruneEndsStaleHandles(max: nat, r: Run, j: nat, k: nat, l: nat, id: nat, p: Peer)
    requires IsRun(max, r) && SpawnerPrunes(r, j, k) && k < l < |r.states|
    requires AtStage(r.states[j], id, Finished) && p in r.states[l].conns
    ensures r.states[l].conns[p] != id
  {
    SpawnerLooks(max, r, j, k, k, id);
    assert StepAt(max, r, k);
    StepKeepsDoomed(max, r.states[k], r.steps[k], id, {});
    GoneForGood(max, r, k + 1, l, id);
  }

  /** A prune of the housekeeping loop does the same, unless the handle had still to be inserted when the
      prune started. */
  lemma KeeperPruneEndsStaleHandles(max: nat, r: Run, j: nat, k: nat, l: nat, id: nat, p: Peer)
    requires IsRun(max, r) && KeeperPrunes(r, j, k) && k < l < |r.states|
    requires AtStage(r.states[j], id, Finished) && p in r.states[l].conns && r.states[l].conns[p] == id
    ensures Pending(r.states[j], id)
  {
    if !Pending(r.states[j], id) {
      KeeperLooks(max, r, j, k, k, id);
      assert StepAt(max, r, k);
      StepKeepsDoomed(max, r.states[k], r.steps[k], id, {});
      GoneForGood(max, r, k + 1, l, id);
    }
  }

  predicate HandleIn(s: Sys, id: nat) {
    id < |s.tasks| && s.tasks[id].peer in s.conns && s.conns[s.tasks[id].peer] == id
  }

  /** A prune under way that has passed the place of a handle, and has not come to its end. */
  predicate PassedBy(r: Run, id: nat) {
    && |r.states| == |r.steps| + 1 && r.steps != [] && r.steps[0].WakeKeeper?
    && (forall l | 0 < l < |r.steps| :: !r.steps[l].KeeperRetained?)
    && HandleIn(Last(r), id) && Last(r).keeper.Pruning?
    && Last(r).tasks[id].peer !in Last(r).keeper.todo
  }

  lemma {:induction false} VisitTheRest(max: nat, r: Run, id: nat) returns (e: Run)
    requires IsRun(max, r) && PassedBy(r, id)
    ensures IsRun(max, e) && PassedBy(e, id) && e.states[0] == r.states[0] && Last(e).keeper.todo == {}
    decreases Last(r).keeper.todo
  {
    if Last(r).keeper.todo == {} {
      e := r;
    } else {
      var key :| key in Last(r).keeper.todo;
      e := Extended(max, r, KeeperVisits(key));
      e := VisitTheRest(max, e, id);
    }
  }

  /** And then it can survive the prune, from every state meeting the invariant: it is inserted behind
      the prune's back, at a key that is not to be visited. */
  lemma LateInsertOutlivesPrune(max: nat, s: Sys, id: nat) returns (r: Run)
    requires Inv(max, s) && AtStage(s, id, Finished) && Pending(s, id) && s.keeper.Asleep?
    ensures IsRun(max, r) && r.states[0] == s && |r.steps| > 1 && KeeperPrunes(r, 0, |r.steps| - 1)
    ensures HandleIn(Last(r), id)
  {
    assert Reserved(s)[0] == s.tasks[id].peer;
    r := Extended(max, Run([s], []), WakeKeeper);
    r := Extended(max, r, Insert);
    r := VisitTheRest(max, r, id);
    r := Extended(max, r, KeeperRetained);
  }

  /** Some run from `s` starts with a prune of the housekeeping loop, completes it, and has the handle of
      `id` in the map some time after. */
  ghost predicate CanOutlivePrune(max: nat, s: Sys, id: nat) {
    exists r, k: nat, l: nat :: Outlives(max, s, id, r, k, l)
  }

  ghost predicate Outlives(max: nat, s: Sys, id: nat, r: Run, k: nat, l: nat) {
    && IsRun(max, r) && r.states[0] == s && KeeperPrunes(r, 0, k) && k < l < |r.states|
    && HandleIn(r.states[l], id)
  }

  /** The handle of a finished task can outlive a prune of the housekeeping loop exactly when it has
      still to be inserted when the prune starts. */
  lemma OutlivesIffPending(max: nat, s: Sys, id: nat)
    requires Inv(max, s) && AtStage(s, id, Finished) && s.keeper.Asleep?
    ensures CanOutlivePrune(max, s, id) <==> Pending(s, id)
  {
    if Pending(s, id) {
      var r := LateInsertOutlivesPrune(max, s, id);
      assert Outlives(max, s, id, r, |r.steps| - 1, |r.states| - 1);
    } else if r, k: nat, l: nat :| Outlives(max, s, id, r, k, l) {
      KeeperPruneEndsStaleHandles(max, r, 0, k, l, id, r.states[l].tasks[id].peer);
    }
  }

  lemma FirstChosen(max: nat, p: Peer) returns (r: Run)
    requires max > 0
    ensures IsRun(max, r) && r.states[0] == Start({p}) && |r.states| == 5
    ensures Last(r) == Start({p}).(spawner := Spawning([p]))
  {
    r := Run([Start({p})], []);
    assert Start({p}).conns.Keys == {};
    r := Extended(max, r, WakeSpawner);
    r := Extended(max, r, SpawnerRetained);
    r := Extended(max, r, Count(0));
    r := Extended(max, r, Choose([p]));
  }

  /** Such a state is reached whenever the handshake of the first task spawned fails before the spawning
      loop gets to insert its handle. */
  lemma LateInsertHappens(max: nat, p: Peer) returns (r: Run)
    requires max > 0
    ensures IsRun(max, r) && r.states[0] == Start({p}) && |r.states| == 8
    ensures var s := r.states[7];
            Inv(max, s) && AtStage(s, 0, Finished) && Pending(s, 0) && s.keeper.Asleep? && s.tasks[0].peer == p
  {
    r := FirstChosen(max, p);
    r := Extended(max, r, Spawn);
    r := Extended(max, r, Shaken(0, false));
    r := Extended(max, r, Finish(0));
    RunKeepsInv(max, r, 7);
  }
}
