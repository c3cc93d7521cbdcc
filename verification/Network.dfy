/** Any number of nodes joined by connections, each served by one task at either end; tasks of one node
    share its store and peer map, and interleave between looking an id up and storing it. */
module Network {
  import opened Text
  import opened PeerText
  import opened PeerLog
  import opened Messages
  import opened Dispatch

  datatype TaskState = Running | Putting(id: string, raw: string) | Done

  /** `inbox` holds the messages on their way to this task, oldest first. */
  datatype Task = Task(node: nat, inbox: seq<Message>, state: TaskState)

  datatype Net = Net(nodes: seq<Node>, tasks: seq<Task>)

  /** Tasks `2k` and `2k + 1` serve the two ends of connection `k`. */
  predicate Wired(s: Net) {
    |s.tasks| % 2 == 0 && forall i | 0 <= i < |s.tasks| :: s.tasks[i].node < |s.nodes|
  }

  function Other(i: nat): (j: nat)
    ensures j != i && j / 2 == i / 2
  {
    if i % 2 == 0 then i + 1 else i - 1
  }

  /** Deliver the next message to a task; let a task store what it found missing; lose a connection. */
  datatype Step = Deliver(i: nat, luck: Luck) | Put(i: nat, fault: bool) | Drop(i: nat)

  ghost predicate Enabled(s: Net, step: Step) {
    && Wired(s) && step.i < |s.tasks|
    && var t := s.tasks[step.i];
    match step
    case Deliver(_, luck) => t.state.Running? && t.inbox != [] && Enumerates(luck.order, s.nodes[t.node].log.known)
    case Put(_, _) => t.state.Putting?
    case Drop(_) => !t.state.Done?
  }

  function StateAfter(next: Next): TaskState {
    match next
    case Continue => Running
    case PutNext(id, raw) => Putting(id, raw)
    case Stop(_) => Done
  }

  /** Messages to a task that is gone are lost. */
  function Send(t: Task, ms: seq<Message>): Task {
    if t.state.Done? then t else t.(inbox := t.inbox + ms)
  }

  function HandledBy(digest: string -> string, s: Net, i: nat, luck: Luck): Handled
    requires Wired(s) && i < |s.tasks| && s.tasks[i].inbox != []
  {
    Handle(digest, s.nodes[s.tasks[i].node], s.tasks[i].inbox[0], luck)
  }

  function Apply(digest: string -> string, s: Net, step: Step): Net
    requires Enabled(s, step)
  {
    var i := step.i;
    var t := s.tasks[i];
    var node := s.nodes[t.node];
    match step
    case Deliver(_, luck) =>
      var h := HandledBy(digest, s, i, luck);
      var inbox := if h.next.Stop? then [] else t.inbox[1..];
      var tasks := s.tasks[i := Task(t.node, inbox, StateAfter(h.next))];
      Net(s.nodes[t.node := node.(log := h.log)], tasks[Other(i) := Send(tasks[Other(i)], h.replies)])
    case Put(_, fault) =>
      if fault then s.(tasks := s.tasks[i := Task(t.node, [], Done)])
      else Net(s.nodes[t.node := node.(store := node.store[t.state.id := t.state.raw])],
               s.tasks[i := t.(state := Running)])
    case Drop(_) => s.(tasks := s.tasks[i := Task(t.node, [], Done)])
  }

  /** A run: the states passed through and the steps between them. */
  datatype Run = Run(states: seq<Net>, steps: seq<Step>)

  ghost predicate StepAt(digest: string -> string, r: Run, k: nat)
    requires k < |r.steps| && |r.states| == |r.steps| + 1
  {
    Enabled(r.states[k], r.steps[k]) && r.states[k + 1] == Apply(digest, r.states[k], r.steps[k])
  }

  ghost predicate IsRun(digest: string -> string, r: Run) {
    |r.states| == |r.steps| + 1 && Wired(r.states[0]) && forall k | 0 <= k < |r.steps| :: StepAt(digest, r, k)
  }

  /** Neither looking up nor storing fails. */
  predicate FaultFree(steps: seq<Step>) {
    forall k | 0 <= k < |steps| :: NoFault(steps[k])
  }

  predicate NoFault(step: Step) {
    match step
    case Deliver(_, luck) => !luck.storeFault
    case Put(_, fault) => !fault
    case Drop(_) => true
  }

  function Last(r: Run): Net
    requires |r.states| > 0
  {
    r.states[|r.states| - 1]
  }

  ghost function Extended(digest: string -> string, r: Run, step: Step): (e: Run)
    requires IsRun(digest, r) && Enabled(Last(r), step)
    ensures IsRun(digest, e) && |e.states| == |r.states| + 1 && e.states[..|r.states|] == r.states
    ensures e.states[0] == r.states[0] && e.steps == r.steps + [step] && Last(e) == Apply(digest, Last(r), step)
  {
    var e := Run(r.states + [Apply(digest, Last(r), step)], r.steps + [step]);
    assert forall k | 0 <= k < |e.steps| :: StepAt(digest, e, k) by {
      forall k | 0 <= k < |e.steps| ensures StepAt(digest, e, k) {
        assert k < |r.steps| ==> StepAt(digest, r, k);
      }
    }
    e
  }

  // ---------- what a step can change ----------

  /** Nodes keep their configuration; peer maps and the ids stored only grow. */
  predicate Extends(s: Net, t: Net) {
    && |s.nodes| == |t.nodes|
    && forall n | 0 <= n < |s.nodes| ::
         && t.nodes[n].config == s.nodes[n].config
         && s.nodes[n].store.Keys <= t.nodes[n].store.Keys
         && s.nodes[n].log.known <= t.nodes[n].log.known
  }

  lemma {:induction false} ImportedFacts(log: Log, candidates: seq<Peer>, disk: Disk)
    ensures var after := Imported(log, candidates, disk);
            log.known <= after.known && forall p | p in after.known :: p in log.known || p in candidates
    decreases |candidates|
  {
    if candidates != [] {
      var p, rest := candidates[0], candidates[1..];
      assert p in candidates && forall q | q in rest :: q in candidates;
      if p in log.known {
        ImportedFacts(log, rest, disk);
      } else if disk.good > 0 {
        var next := Appended(log, p, Whole);
        assert next.known == log.known + {p};
        ImportedFacts(next, rest, disk.(good := disk.good - 1));
      }
    }
  }

  lemma HandleGrowsLog(digest: string -> string, node: Node, m: Message, luck: Luck)
    ensures node.log.known <= Handle(digest, node, m, luck).log.known
  {
    if m.Peers? {
      ImportedFacts(node.log, Unbanned(node.config, m.peers), luck.disk);
    }
  }

  lemma StepExtends(digest: string -> string, s: Net, step: Step)
    requires Enabled(s, step)
    ensures Extends(s, Apply(digest, s, step)) && Wired(Apply(digest, s, step))
  {
    if step.Deliver? {
      var t := s.tasks[step.i];
      HandleGrowsLog(digest, s.nodes[t.node], t.inbox[0], step.luck);
    }
  }

  lemma {:induction false} RunExtends(digest: string -> string, r: Run, j: nat, k: nat)
    requires IsRun(digest, r) && j <= k < |r.states|
    ensures Extends(r.states[j], r.states[k]) && Wired(r.states[k])
  {
    if k == 0 {
    } else if j < k {
      RunExtends(digest, r, j, k - 1);
      assert StepAt(digest, r, k - 1);
      StepExtends(digest, r.states[k - 1], r.steps[k - 1]);
    } else {
      RunExtends(digest, r, j - 1, k - 1);
      assert StepAt(digest, r, k - 1);
      StepExtends(digest, r.states[k - 1], r.steps[k - 1]);
    }
  }
}
