/** No reply loops: every run of the network is finite, and ends with nothing left to deliver. */
module NetworkWeights {
  import opened Messages
  import opened Dispatch
  import opened Network

  /** An announcement can still cause a request, a request an object, an object a put or an error. */
  function Weight(m: Message): nat {
    match m
    case GotObject(_) => 4
    case GetObject(_) => 3
    case Object(_, _) => 2
    case GetPeers => 2
    case _ => 1
  }

  function InboxWeight(ms: seq<Message>): nat {
    if ms == [] then 0 else Weight(ms[0]) + InboxWeight(ms[1..])
  }

  function StateWeight(state: TaskState): nat {
    match state
    case Done => 0
    case Running => 1
    case Putting(_, _) => 2
  }

  function TaskWeight(t: Task): nat {
    InboxWeight(t.inbox) + StateWeight(t.state)
  }

  function TotalWeight(ts: seq<Task>): nat {
    if ts == [] then 0 else TaskWeight(ts[0]) + TotalWeight(ts[1..])
  }

  lemma {:induction false} InboxWeightConcat(a: seq<Message>, b: seq<Message>)
    ensures InboxWeight(a + b) == InboxWeight(a) + InboxWeight(b)
  {
    if a == [] {
      assert a + b == b;
    } else {
      assert (a + b)[1..] == a[1..] + b;
      InboxWeightConcat(a[1..], b);
    }
  }

  lemma {:induction false} TotalWeightUpdate(ts: seq<Task>, i: nat, t: Task)
    requires i < |ts|
    ensures TotalWeight(ts[i := t]) + TaskWeight(ts[i]) == TotalWeight(ts) + TaskWeight(t)
  {
    if i == 0 {
      assert ts[i := t][1..] == ts[1..];
    } else {
      assert ts[i := t][1..] == ts[1..][i - 1 := t];
      TotalWeightUpdate(ts[1..], i - 1, t);
    }
  }

  lemma SendWeight(t: Task, ms: seq<Message>)
    ensures TaskWeight(Send(t, ms)) <= TaskWeight(t) + InboxWeight(ms)
  {
    InboxWeightConcat(t.inbox, ms);
  }

  /** What handling a message sends and leaves to do weighs less than the message. */
  lemma HandleLightens(digest: string -> string, node: Node, m: Message, luck: Luck)
    ensures var h := Handle(digest, node, m, luck);
            InboxWeight(h.replies) + StateWeight(StateAfter(h.next)) < Weight(m) + 1
  {
    var h := Handle(digest, node, m, luck);
    assert |h.replies| <= 1;
    if h.replies != [] {
      assert h.replies == [h.replies[0]] && h.replies[1..] == [];
      assert InboxWeight(h.replies) == Weight(h.replies[0]);
    }
  }

  lemma DeliverLightens(digest: string -> string, s: Net, i: nat, luck: Luck)
    requires Enabled(s, Deliver(i, luck))
    ensures TotalWeight(Apply(digest, s, Deliver(i, luck)).tasks) < TotalWeight(s.tasks)
  {
    var t := s.tasks[i];
    var h := HandledBy(digest, s, i, luck);
    HandleLightens(digest, s.nodes[t.node], t.inbox[0], luck);
    var now := Task(t.node, if h.next.Stop? then [] else t.inbox[1..], StateAfter(h.next));
    assert TaskWeight(now) + InboxWeight(h.replies) < TaskWeight(t);
    TotalWeightUpdate(s.tasks, i, now);
    var tasks := s.tasks[i := now];
    SendWeight(tasks[Other(i)], h.replies);
    TotalWeightUpdate(tasks, Other(i), Send(tasks[Other(i)], h.replies));
  }

  lemma StepLightens(digest: string -> string, s: Net, step: Step)
    requires Enabled(s, step)
    ensures TotalWeight(Apply(digest, s, step).tasks) < TotalWeight(s.tasks)
  {
    var i, t := step.i, s.tasks[step.i];
    match step
    case Put(_, fault) =>
      TotalWeightUpdate(s.tasks, i, if fault then Task(t.node, [], Done) else t.(state := Running));
    case Drop(_) =>
      TotalWeightUpdate(s.tasks, i, Task(t.node, [], Done));
    case Deliver(_, luck) => DeliverLightens(digest, s, i, luck);
  }

  /** However the network is wired, whatever is in flight and however its steps interleave, it takes
      no more steps than its weight. */
  lemma {:induction false} RunsAreFinite(digest: string -> string, r: Run, k: nat)
    requires IsRun(digest, r) && k < |r.states|
    ensures k + TotalWeight(r.states[k].tasks) <= TotalWeight(r.states[0].tasks)
  {
    if k > 0 {
      RunsAreFinite(digest, r, k - 1);
      assert StepAt(digest, r, k - 1);
      StepLightens(digest, r.states[k - 1], r.steps[k - 1]);
    }
  }

  /** Nothing left to deliver or to store. */
  predicate Quiet(s: Net) {
    forall i | 0 <= i < |s.tasks| ::
      !s.tasks[i].state.Putting? && (s.tasks[i].state.Running? ==> s.tasks[i].inbox == [])
  }

  /** A network that is not quiet can take a step that loses no connection. */
  lemma SomeStep(s: Net) returns (step: Step)
    requires Wired(s) && !Quiet(s)
    ensures Enabled(s, step) && !step.Drop? && NoFault(step)
  {
    var i :| 0 <= i < |s.tasks| && (s.tasks[i].state.Putting? || (s.tasks[i].state.Running? && s.tasks[i].inbox != []));
    if s.tasks[i].state.Putting? {
      step := Step.Put(i, false);
    } else {
      var order := SomeOrder(s.nodes[s.tasks[i].node].log.known);
      step := Deliver(i, Luck(order, false, Disk(0, 0)));
    }
  }

  /** From every state, quiet is reached by delivering and storing alone, without a fault. */
  lemma {:induction false} QuietIsReachable(digest: string -> string, s: Net) returns (r: Run)
    requires Wired(s)
    ensures IsRun(digest, r) && r.states[0] == s && Quiet(r.states[|r.steps|])
    ensures FaultFree(r.steps) && forall step | step in r.steps :: !step.Drop?
    decreases TotalWeight(s.tasks)
  {
    if Quiet(s) {
      r := Run([s], []);
    } else {
      var step := SomeStep(s);
      var next := Apply(digest, s, step);
      StepExtends(digest, s, step);
      StepLightens(digest, s, step);
      var rest := QuietIsReachable(digest, next);
      r := Run([s] + rest.states, [step] + rest.steps);
      forall k | 0 <= k < |r.steps| ensures StepAt(digest, r, k) {
        if k > 0 {
          assert StepAt(digest, rest, k - 1);
        }
      }
    }
  }
}
