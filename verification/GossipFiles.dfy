/** The peers files of a network: what is read from them after any run, and what that does to bans. */
module GossipFiles {
  import opened Text
  import opened PeerText
  import opened PeerLog
  import opened PeerFiles
  import opened Messages
  import opened Dispatch
  import opened Network
  import opened NetworkStore
  import opened Gossip

  // ---------- what a run writes ----------

  /** The text an import writes: whole lines, and what the first write that breaks leaves behind. */
  function ImportText(log: Log, candidates: seq<Peer>, disk: Disk): string
    decreases |candidates|
  {
    if candidates == [] then ""
    else
      var p, rest := candidates[0], candidates[1..];
      if p in log.known then ImportText(log, rest, disk)
      else if disk.good == 0 then Kept(LineOf(p), Broken(disk.kept))
      else LineOf(p) + ImportText(Appended(log, p, Whole), rest, disk.(good := disk.good - 1))
  }

  lemma {:induction false} ImportWrites(log: Log, candidates: seq<Peer>, disk: Disk)
    ensures Imported(log, candidates, disk).file == log.file + ImportText(log, candidates, disk)
    decreases |candidates|
  {
    if candidates == [] {
      assert log.file + "" == log.file;
    } else {
      var p, rest := candidates[0], candidates[1..];
      if p in log.known {
        ImportWrites(log, rest, disk);
      } else if disk.good > 0 {
        var next, left := Appended(log, p, Whole), disk.(good := disk.good - 1);
        ImportWrites(next, rest, left);
        Regroup(log.file, LineOf(p), ImportText(next, rest, left));
      }
    }
  }

  /** The text a step writes to the file of node `n`. */
  function TextBy(s: Net, step: Step, n: nat): string {
    if step.Deliver? && step.i < |s.tasks| && s.tasks[step.i].node == n < |s.nodes|
       && s.tasks[step.i].inbox != [] && s.tasks[step.i].inbox[0].Peers?
    then ImportText(s.nodes[n].log, Unbanned(s.nodes[n].config, s.tasks[step.i].inbox[0].peers), step.luck.disk)
    else ""
  }

  function TextIn(r: Run, n: nat, k: nat): string
    requires k < |r.states| == |r.steps| + 1
  {
    if k == 0 then "" else TextIn(r, n, k - 1) + TextBy(r.states[k - 1], r.steps[k - 1], n)
  }

  lemma StepWrites(digest: string -> string, s: Net, step: Step, n: nat)
    requires Enabled(s, step) && n < |s.nodes|
    ensures var t := Apply(digest, s, step);
            |t.nodes| == |s.nodes| && t.nodes[n].log.file == s.nodes[n].log.file + TextBy(s, step, n)
  {
    StepExtends(digest, s, step);
    var file := s.nodes[n].log.file;
    if step.Deliver? && s.tasks[step.i].node == n && s.tasks[step.i].inbox[0].Peers? {
      ImportWrites(s.nodes[n].log, Unbanned(s.nodes[n].config, s.tasks[step.i].inbox[0].peers), step.luck.disk);
    } else {
      assert file + "" == file;
    }
  }

  lemma StepAtWrites(digest: string -> string, r: Run, k: nat, n: nat, before: string)
    requires |r.states| == |r.steps| + 1 && k < |r.steps| && StepAt(digest, r, k) && n < |r.states[k].nodes|
    requires r.states[k].nodes[n].log.file == before + TextIn(r, n, k)
    ensures n < |r.states[k + 1].nodes|
    ensures r.states[k + 1].nodes[n].log.file == before + TextIn(r, n, k + 1)
  {
    StepWrites(digest, r.states[k], r.steps[k], n);
    Regroup(before, TextIn(r, n, k), TextBy(r.states[k], r.steps[k], n));
  }

  lemma {:induction false} FilesGrow(digest: string -> string, r: Run, k: nat, n: nat)
    requires IsRun(digest, r) && k < |r.states| && n < |r.states[0].nodes|
    ensures n < |r.states[k].nodes|
    ensures r.states[k].nodes[n].log.file == r.states[0].nodes[n].log.file + TextIn(r, n, k)
  {
    var before := r.states[0].nodes[n].log.file;
    if k == 0 {
      assert before + "" == before;
    } else {
      FilesGrow(digest, r, k - 1, n);
      StepAtWrites(digest, r, k - 1, n, before);
    }
  }

  /** What is read from behind the finished lines a run starts from. */
  function ReadSince(r: Run, n: nat, k: nat): set<Peer>
    requires k < |r.states| == |r.steps| + 1 && n < |r.states[0].nodes|
  {
    Recorded(Tail(r.states[0].nodes[n].log.file) + TextIn(r, n, k))
  }

  function FinishedAtStart(r: Run, n: nat): set<Peer>
    requires |r.states| > 0 && n < |r.states[0].nodes|
  {
    Recorded(Closed(r.states[0].nodes[n].log.file))
  }

  /** In every run, whatever becomes of each write: what is read from a node's file is exactly what was
      read from the finished lines it started with, and what was written since, behind the unfinished
      one. */
  lemma FilesReadAsWritten(digest: string -> string, r: Run, k: nat, n: nat)
    requires IsRun(digest, r) && k < |r.states| && n < |r.states[0].nodes|
    ensures n < |r.states[k].nodes|
    ensures Recorded(r.states[k].nodes[n].log.file) == FinishedAtStart(r, n) + ReadSince(r, n, k)
    ensures Recorded(r.states[0].nodes[n].log.file) ==
            FinishedAtStart(r, n) + Recorded(Tail(r.states[0].nodes[n].log.file))
  {
    FilesGrow(digest, r, k, n);
    RecordedAfter(r.states[0].nodes[n].log.file, TextIn(r, n, k));
  }

  /** A file that replays to peers of the map does so again, in every state of every run, exactly when the
      map has everyone read from what was written meanwhile; and no record is lost exactly when those of
      the unfinished line it started with are still read, as they are when there is none. */
  lemma FilesAreCoveredIff(digest: string -> string, r: Run, k: nat, n: nat)
    requires IsRun(digest, r) && k < |r.states| && n < |r.states[0].nodes|
    ensures n < |r.states[k].nodes|
    ensures var start, log := r.states[0].nodes[n].log, r.states[k].nodes[n].log;
            && (Recorded(start.file) <= start.known ==>
                  (Recorded(log.file) <= log.known <==> ReadSince(r, n, k) <= log.known))
            && (Recorded(start.file) <= Recorded(log.file) <==>
                  Recorded(Tail(start.file)) <= FinishedAtStart(r, n) + ReadSince(r, n, k))
            && (EndsClean(start.file) ==> Recorded(start.file) <= Recorded(log.file))
  {
    FilesReadAsWritten(digest, r, k, n);
    RunExtends(digest, r, 0, k);
    ClosedAndTail(r.states[0].nodes[n].log.file);
    assert Lines("") == [] && Recorded("") == {};
  }

  // ---------- runs in which no write breaks off inside a line ----------

  /** What the lines of these peers are read as. */
  function ReadFromAll(ps: set<Peer>): set<Peer> {
    set p, q | p in ps && q in ReadFrom(p.host, p.port) :: q
  }

  lemma ReadFromUnion(a: set<Peer>, b: set<Peer>)
    ensures ReadFromAll(a + b) == ReadFromAll(a) + ReadFromAll(b)
  {
  }

  /** The text is whole lines of these peers. */
  ghost predicate LinesOf(text: string, ps: set<Peer>) {
    EndsClean(text) && Recorded(text) == ReadFromAll(ps)
  }

  lemma NoLines()
    ensures LinesOf("", {})
  {
    assert Lines("") == [] && Recorded("") == {};
  }

  lemma MoreLines(a: string, ps: set<Peer>, b: string, qs: set<Peer>)
    requires LinesOf(a, ps) && LinesOf(b, qs)
    ensures LinesOf(a + b, ps + qs)
  {
    RecordedConcat(a, b);
    ReadFromUnion(ps, qs);
    if b != "" {
      assert (a + b)[|a + b| - 1] == b[|b| - 1];
    } else {
      assert a + b == a;
    }
  }

  lemma OneLine(p: Peer)
    ensures LinesOf(LineOf(p), {p})
  {
    LineReadsAs(p);
  }

  lemma {:induction false} ImportedLines(log: Log, candidates: seq<Peer>, disk: Disk) returns (ps: set<Peer>)
    requires disk.kept == 0
    ensures LinesOf(ImportText(log, candidates, disk), ps) && ps <= Imported(log, candidates, disk).known
    decreases |candidates|
  {
    NoLines();
    ps := {};
    if candidates != [] {
      var p, rest := candidates[0], candidates[1..];
      if p in log.known {
        ps := ImportedLines(log, rest, disk);
      } else if disk.good > 0 {
        var next, left := Appended(log, p, Whole), disk.(good := disk.good - 1);
        var later := ImportedLines(next, rest, left);
        OneLine(p);
        MoreLines(LineOf(p), {p}, ImportText(next, rest, left), later);
        ps := {p} + later;
        ImportedFacts(next, rest, left);
      }
    }
  }

  /** No write breaks off in the middle of a line; the file may fail to open at any time. */
  predicate Unbroken(step: Step) {
    step.Deliver? ==> step.luck.disk.kept == 0
  }

  lemma StepLines(digest: string -> string, s: Net, step: Step, n: nat) returns (ps: set<Peer>)
    requires Enabled(s, step) && Unbroken(step) && n < |s.nodes|
    ensures LinesOf(TextBy(s, step, n), ps)
    ensures n < |Apply(digest, s, step).nodes| && ps <= Apply(digest, s, step).nodes[n].log.known
  {
    StepExtends(digest, s, step);
    if step.Deliver? && s.tasks[step.i].node == n && s.tasks[step.i].inbox[0].Peers? {
      ps := ImportedLines(s.nodes[n].log, Unbanned(s.nodes[n].config, s.tasks[step.i].inbox[0].peers),
                          step.luck.disk);
    } else {
      NoLines();
      ps := {};
    }
  }

  /** In such a run what is written is whole lines of peers of the map. */
  lemma {:induction false} TextIsLines(digest: string -> string, r: Run, k: nat, n: nat) returns (ps: set<Peer>)
    requires IsRun(digest, r) && k < |r.states| && forall l | 0 <= l < |r.steps| :: Unbroken(r.steps[l])
    requires n < |r.states[0].nodes|
    ensures n < |r.states[k].nodes| && ps <= r.states[k].nodes[n].log.known
    ensures LinesOf(TextIn(r, n, k), ps)
  {
    if k == 0 {
      NoLines();
      ps := {};
    } else {
      var before := TextIsLines(digest, r, k - 1, n);
      assert StepAt(digest, r, k - 1);
      var now := StepLines(digest, r.states[k - 1], r.steps[k - 1], n);
      StepExtends(digest, r.states[k - 1], r.steps[k - 1]);
      MoreLines(TextIn(r, n, k - 1), before, TextBy(r.states[k - 1], r.steps[k - 1], n), now);
      ps := before + now;
    }
  }

  /** So when every host a network starts from is clean, files without unfinished lines replay to peers of
      the map in every state. */
  lemma FilesAreCovered(digest: string -> string, r: Run, k: nat, n: nat)
    requires IsRun(digest, r) && k < |r.states| && forall l | 0 <= l < |r.steps| :: Unbroken(r.steps[l])
    requires forall p :: Origin(r.states[0], p) ==> CleanHost(p.host)
    requires n < |r.states[0].nodes| && EndsClean(r.states[0].nodes[n].log.file)
    requires Recorded(r.states[0].nodes[n].log.file) <= r.states[0].nodes[n].log.known
    ensures n < |r.states[k].nodes| && Recorded(r.states[k].nodes[n].log.file) <= r.states[k].nodes[n].log.known
    ensures Recorded(r.states[0].nodes[n].log.file) <= Recorded(r.states[k].nodes[n].log.file)
  {
    var ps := TextIsLines(digest, r, k, n);
    forall p, q | p in ps && q in ReadFrom(p.host, p.port) ensures q in r.states[k].nodes[n].log.known {
      assert KnownBy(r.states[k], n, p);
      GossipInventsNobody(digest, r, k, p);
      CleanReadsItself(p);
    }
    NoTail(r.states[0].nodes[n].log.file, TextIn(r, n, k));
    FilesAreCoveredIff(digest, r, k, n);
  }

  // ---------- bans and reloading ----------

  predicate NoneBanned(config: Config, ps: set<Peer>) {
    forall p | p in ps :: p !in config.banned
  }

  /** In every run: a node that starts again from its file is free of banned peers exactly when the
      finished lines it started with were, and none is read from what was written since. That the map
      itself is free of them, as it always stays, is not enough. */
  lemma BansHoldAfterReloadIff(digest: string -> string, r: Run, k: nat, n: nat)
    requires IsRun(digest, r) && k < |r.states| && n < |r.states[0].nodes|
    ensures n < |r.states[k].nodes| && r.states[k].nodes[n].config == r.states[0].nodes[n].config
    ensures FreeOfBanned(r.states[0].nodes[n]) ==> FreeOfBanned(r.states[k].nodes[n])
    ensures var config := r.states[0].nodes[n].config;
            NoneBanned(config, Recorded(r.states[k].nodes[n].log.file)) <==>
            NoneBanned(config, FinishedAtStart(r, n)) && NoneBanned(config, ReadSince(r, n, k))
  {
    FilesReadAsWritten(digest, r, k, n);
    RunExtends(digest, r, 0, k);
    if FreeOfBanned(r.states[0].nodes[n]) {
      BansHold(digest, r, k, n);
    }
  }

  /** And it can fail: any banned peer with a clean host comes back with a reload, when a peer that
      carries its line as host is gossiped to the node. */
  lemma BannedPeerComesBack(digest: string -> string, s: Net, i: nat, q: Peer, port: Port, luck: Luck)
    requires var x := Peer(q.host + "," + Digits(q.port), port);
             && Awaits(s, i, Peers([x]), luck) && luck.disk.good > 0
             && var node := s.nodes[s.tasks[i].node];
             && q in node.config.banned && x !in node.config.banned && x !in node.log.known
             && CleanHost(q.host) && EndsClean(node.log.file) && FreeOfBanned(node)
    ensures Enabled(s, Deliver(i, luck))
    ensures var n := s.tasks[i].node;
            var after := Apply(digest, s, Deliver(i, luck)).nodes[n];
            FreeOfBanned(after) && q in Recorded(after.log.file) && q in after.config.banned
  {
    var x := Peer(q.host + "," + Digits(q.port), port);
    var n := s.tasks[i].node;
    var node := s.nodes[n];
    AnyCleanPeerCanBePlanted(q, port);
    AppendedReadsAs(node.log.file, x);
    OneImported(node, x, luck.disk);
  }

  lemma OneImported(node: Node, x: Peer, disk: Disk)
    requires x !in node.config.banned && x !in node.log.known
    ensures Imported(node.log, Unbanned(node.config, [x]), disk) ==
            Appended(node.log, x, if disk.good > 0 then Whole else Broken(disk.kept))
  {
    assert [x][1..] == [];
    assert Unbanned(node.config, []) == [];
    assert Unbanned(node.config, [x]) == [x];
    if disk.good > 0 {
      var next := Appended(node.log, x, Whole);
      assert Imported(next, [], disk.(good := disk.good - 1)) == next;
    }
  }

  /** Or when a write breaks off before the last digit of a port, although only peers that are not banned
      were ever gossiped. */
  lemma BrokenWriteBringsBack(digest: string -> string, s: Net, i: nat, p: Peer, luck: Luck)
    requires p.port >= 10 && Awaits(s, i, Peers([p]), luck)
    requires var cut := p.host + "," + Digits(p.port / 10); luck.disk == Disk(0, |cut|)
    requires var node := s.nodes[s.tasks[i].node];
             && Peer(p.host, p.port / 10) in node.config.banned && p !in node.config.banned && p !in node.log.known
             && CleanHost(p.host) && EndsClean(node.log.file) && FreeOfBanned(node)
             && NoneBanned(node.config, Recorded(node.log.file))
    ensures Enabled(s, Deliver(i, luck))
    ensures var n := s.tasks[i].node;
            var after := Apply(digest, s, Deliver(i, luck)).nodes[n];
            FreeOfBanned(after) && Peer(p.host, p.port / 10) in Recorded(after.log.file)
  {
    var node := s.nodes[s.tasks[i].node];
    OneImported(node, p, luck.disk);
    BrokenPortPlants(p);
    RecordedConcat(node.log.file, Kept(LineOf(p), Broken(luck.disk.kept)));
  }
}
