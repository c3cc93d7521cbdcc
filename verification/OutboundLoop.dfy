/** One turn of the spawning loop as the code writes it (src/net/client.rs, lines 19-77), when nothing
    else touches the map meanwhile: one of the runs of the interleaving model. */
module OutboundLoop {
  import opened PeerText
  import opened Outbound

  /** `choose_multiple`: as many of the available peers as asked for, or all, each at most once. */
  ghost predicate Picks(available: set<Peer>, n: nat, chosen: seq<Peer>) {
    && NoRepeats(chosen) && (forall p | p in chosen :: p in available)
    && |chosen| == if |available| < n then |available| else n
  }

  type Picker = (set<Peer>, nat) -> seq<Peer>

  function Pick(pick: Picker, available: set<Peer>, n: nat): seq<Peer> {
    pick(available, n)
  }

  ghost predicate PicksAlways(pick: Picker) {
    forall available: set<Peer>, n: nat :: Picks(available, n, Pick(pick, available, n))
  }

  /** The entries whose tasks have not finished. */
  function Retained(tasks: seq<Task>, conns: map<Peer, nat>): map<Peer, nat> {
    map p | p in conns && !(conns[p] < |tasks| && tasks[conns[p]].stage == Finished) :: conns[p]
  }

  function Room(max: nat, active: nat): nat {
    if active < max then max - active else 0
  }

  function Chosen(max: nat, peers: set<Peer>, conns: map<Peer, nat>, pick: Picker): seq<Peer> {
    if |conns| < max then Pick(pick, peers - conns.Keys, Room(max, |conns|)) else []
  }

  function Started(chosen: seq<Peer>): (ts: seq<Task>)
    ensures |ts| == |chosen| && forall i | 0 <= i < |ts| :: ts[i] == Task(chosen[i], Shaking)
  {
    if chosen == [] then [] else Started(chosen[..|chosen| - 1]) + [Task(chosen[|chosen| - 1], Shaking)]
  }

  function Next(id: nat): nat {
    id + 1
  }

  /** The map with handles `id`, `id + 1`, ... under the chosen peers. */
  function Inserted(conns: map<Peer, nat>, id: nat, chosen: seq<Peer>): map<Peer, nat>
    decreases |chosen|
  {
    if chosen == [] then conns
    else Inserted(conns[chosen[0] := id], Next(id), chosen[1..])
  }

  /** The map as its entries: nothing retained is replaced, and each chosen peer has its own task. */
  lemma {:induction false} InsertedEntries(conns: map<Peer, nat>, id: nat, chosen: seq<Peer>)
    requires NoRepeats(chosen) && forall p | p in chosen :: p !in conns
    ensures var after := Inserted(conns, id, chosen);
            && (forall p | p in conns :: p in after && after[p] == conns[p])
            && (forall i | 0 <= i < |chosen| :: chosen[i] in after && after[chosen[i]] == id + i)
            && forall p | p in after :: p in conns || p in chosen
    decreases |chosen|
  {
    if chosen != [] {
      var next := conns[chosen[0] := id];
      assert chosen == [chosen[0]] + chosen[1..];
      HeadStandsOut(chosen[0], chosen[1..]);
      InsertedEntries(next, Next(id), chosen[1..]);
      forall i | 0 <= i < |chosen|
        ensures var after := Inserted(conns, id, chosen); chosen[i] in after && after[chosen[i]] == id + i
      {
        if i > 0 {
          assert chosen[i] == chosen[1..][i - 1];
        }
      }
    }
  }

  lemma {:induction false} InsertedSize(conns: map<Peer, nat>, id: nat, chosen: seq<Peer>)
    requires NoRepeats(chosen) && forall p | p in chosen :: p !in conns
    ensures |Inserted(conns, id, chosen)| == |conns| + |chosen|
    decreases |chosen|
  {
    if chosen != [] {
      assert chosen == [chosen[0]] + chosen[1..];
      HeadStandsOut(chosen[0], chosen[1..]);
      InsertionGrows(conns, chosen[0], id);
      InsertedSize(conns[chosen[0] := id], Next(id), chosen[1..]);
    }
  }

  /** A turn fills the room there is: afterwards the map is full, or nobody known is left out of it. */
  lemma TurnFillsTheRoom(max: nat, peers: set<Peer>, kept: map<Peer, nat>, pick: Picker, id: nat)
    requires PicksAlways(pick) && |kept| <= max
    ensures var after := Inserted(kept, id, Chosen(max, peers, kept, pick));
            && kept.Keys <= after.Keys <= kept.Keys + peers && |after| <= max
            && (|after| == max || peers <= after.Keys)
  {
    var available := peers - kept.Keys;
    var chosen := Chosen(max, peers, kept, pick);
    assert Picks(available, Room(max, |kept|), Pick(pick, available, Room(max, |kept|)));
    var after := Inserted(kept, id, chosen);
    if |kept| < max {
      assert forall p | p in chosen :: p in available;
      InsertedEntries(kept, id, chosen);
      InsertedSize(kept, id, chosen);
      if |after| < max {
        AllChosen(available, chosen);
        forall p | p in peers ensures p in after.Keys {
          if p !in kept {
            assert p in available;
            var i :| 0 <= i < |chosen| && chosen[i] == p;
          }
        }
      }
    }
  }

  /** As many different members as the set has are all of them. */
  lemma {:induction false} AllChosen(available: set<Peer>, chosen: seq<Peer>)
    requires NoRepeats(chosen) && (forall p | p in chosen :: p in available) && |chosen| == |available|
    ensures forall p | p in available :: p in chosen
    decreases |chosen|
  {
    if chosen != [] {
      assert chosen == [chosen[0]] + chosen[1..];
      HeadStandsOut(chosen[0], chosen[1..]);
      AllChosen(available - {chosen[0]}, chosen[1..]);
    }
  }

  class OutboundConnections {
    const max: nat
    var tasks: seq<Task>
    var conns: map<Peer, nat>
    var peers: set<Peer>

    constructor (max: nat, peers: set<Peer>)
      ensures this.max == max && View(Resting) == Start(peers)
    {
      this.max := max;
      this.peers := peers;
      this.tasks := [];
      this.conns := map[];
    }

    function View(spawner: Spawner): Sys
      reads this
    {
      Sys(tasks, conns, peers, spawner, Asleep)
    }

    method Retain(ghost before: Run) returns (ghost r: Run)
      requires IsRun(max, before) && Last(before) == View(Resting)
      modifies `conns
      ensures conns == Retained(tasks, old(conns))
      ensures IsRun(max, r) && r.states[0] == before.states[0] && Last(r) == View(Counting(|conns|))
    {
      r := Extended(max, before, WakeSpawner);
      var todo := conns.Keys;
      while todo != {}
        invariant IsRun(max, r) && r.states[0] == before.states[0] && Last(r) == View(Retaining(todo))
        invariant todo <= conns.Keys
        invariant forall p | p in conns :: p in old(conns) && conns[p] == old(conns)[p]
        invariant forall p | p in old(conns) :: p in conns <==> p in todo || p in Retained(tasks, old(conns))
      {
        var key :| key in todo;
        r := Extended(max, r, SpawnerVisits(key));
        if conns[key] < |tasks| && tasks[conns[key]].stage == Finished {
          conns := conns - {key};
        }
        todo := todo - {key};
      }
      r := Extended(max, r, SpawnerRetained);
    }

    /** One task is spawned and its handle inserted before the next is spawned. */
    method SpawnAll(ghost before: Run, candidates: seq<Peer>) returns (ghost r: Run)
      requires IsRun(max, before) && Last(before) == View(Spawning(candidates))
      modifies `conns, `tasks
      ensures conns == Inserted(old(conns), |old(tasks)|, candidates)
      ensures tasks == old(tasks) + Started(candidates)
      ensures IsRun(max, r) && r.states[0] == before.states[0] && Last(r) == View(Spawning([]))
    {
      r := before;
      ghost var first := |tasks|;
      for i := 0 to |candidates|
        invariant IsRun(max, r) && r.states[0] == before.states[0] && Last(r) == View(Spawning(candidates[i..]))
        invariant |tasks| == first + i && tasks == old(tasks) + Started(candidates[..i])
        invariant Inserted(conns, |tasks|, candidates[i..]) == Inserted(old(conns), first, candidates)
      {
        assert candidates[i..][1..] == candidates[i + 1..];
        assert candidates[..i + 1][..i] == candidates[..i];
        r := Extended(max, r, Spawn);
        var handle := |tasks|;
        tasks := tasks + [Task(candidates[i], Shaking)];
        r := Extended(max, r, Insert);
        conns := conns[candidates[i] := handle];
      }
      assert candidates[..|candidates|] == candidates;
    }

    /** As many new tasks are started as there is room for and peers to connect to. */
    method FillRoom(ghost before: Run, pick: Picker) returns (ghost r: Run)
      requires PicksAlways(pick) && |conns| < max
      requires IsRun(max, before) && Last(before) == View(Choosing(max - |conns|))
      modifies `conns, `tasks
      ensures var chosen := Chosen(max, peers, old(conns), pick);
              conns == Inserted(old(conns), |old(tasks)|, chosen) && tasks == old(tasks) + Started(chosen)
      ensures IsRun(max, r) && r.states[0] == before.states[0] && Last(r) == View(Spawning([]))
    {
      var available := peers - conns.Keys;
      var candidates := Pick(pick, available, Room(max, |conns|));
      assert Picks(available, Room(max, |conns|), candidates);
      r := Extended(max, before, Choose(candidates));
      r := SpawnAll(r, candidates);
    }

    /** The turn: finished tasks leave the map, then its room is filled. */
    method Turn(pick: Picker) returns (ghost r: Run)
      requires PicksAlways(pick)
      modifies `conns, `tasks
      ensures var kept := Retained(old(tasks), old(conns));
              var chosen := Chosen(max, peers, kept, pick);
              && conns == Inserted(kept, |old(tasks)|, chosen)
              && tasks == old(tasks) + Started(chosen)
      ensures IsRun(max, r) && r.states[0] == old(View(Resting)) && Last(r) == View(Resting)
    {
      r := Retain(Run([View(Resting)], []));
      var active := |conns|;
      r := Extended(max, r, Count(active));
      if active < max {
        r := FillRoom(r, pick);
        r := Extended(max, r, Rest);
      }
    }
  }
}
