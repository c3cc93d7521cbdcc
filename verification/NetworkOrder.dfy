/** Every connection of the network delivers what is sent on it, once and in order. */
module NetworkOrder {
  import opened Messages
  import opened Dispatch
  import opened Network

  /** What step `k` has task `i` read. */
  function ReadAtStep(r: Run, i: nat, k: nat): seq<Message>
    requires k < |r.steps| && |r.states| == |r.steps| + 1
  {
    var s, step := r.states[k], r.steps[k];
    if step.Deliver? && step.i == i < |s.tasks| && s.tasks[i].inbox != [] then [s.tasks[i].inbox[0]] else []
  }

  /** What step `k` has task `i` send to the other end. */
  function SentAtStep(digest: string -> string, r: Run, i: nat, k: nat): seq<Message>
    requires k < |r.steps| && |r.states| == |r.steps| + 1
  {
    var s, step := r.states[k], r.steps[k];
    if step.Deliver? && step.i == i < |s.tasks| && s.tasks[i].inbox != [] && s.tasks[i].node < |s.nodes|
    then Handle(digest, s.nodes[s.tasks[i].node], s.tasks[i].inbox[0], step.luck).replies
    else []
  }

  function ReadBy(r: Run, i: nat, k: nat): seq<Message>
    requires k < |r.states| == |r.steps| + 1
  {
    if k == 0 then [] else ReadBy(r, i, k - 1) + ReadAtStep(r, i, k - 1)
  }

  function SentBy(digest: string -> string, r: Run, i: nat, k: nat): seq<Message>
    requires k < |r.states| == |r.steps| + 1
  {
    if k == 0 then [] else SentBy(digest, r, i, k - 1) + SentAtStep(digest, r, i, k - 1)
  }

  /** One step on the queue of a task that is still there. */
  lemma StepOnQueue(digest: string -> string, r: Run, i: nat, k: nat)
    requires k < |r.steps| && |r.states| == |r.steps| + 1 && StepAt(digest, r, k)
    requires i < |r.states[k].tasks| && Other(i) < |r.states[k].tasks|
    ensures var s, t := r.states[k], r.states[k + 1];
            && |t.tasks| == |s.tasks|
            && (!t.tasks[i].state.Done? ==>
                  && !s.tasks[i].state.Done?
                  && ReadAtStep(r, i, k) + t.tasks[i].inbox ==
                     s.tasks[i].inbox + SentAtStep(digest, r, Other(i), k))
  {
    var s, step := r.states[k], r.steps[k];
    assert Other(Other(i)) == i;
    if step.Deliver? && step.i == i {
      assert s.tasks[i].inbox == [s.tasks[i].inbox[0]] + s.tasks[i].inbox[1..];
    } else if step.i != Other(i) {
      assert Other(step.i) != i;
    }
  }

  lemma Rearrange(read: seq<Message>, now: seq<Message>, before: seq<Message>, start: seq<Message>, sent: seq<Message>,
                  more: seq<Message>, after: seq<Message>)
    requires read + before == start + sent && now + after == before + more
    ensures (read + now) + after == start + (sent + more)
  {
    assert (read + now) + after == read + (now + after) == (read + before) + more;
  }

  /** In every run, as long as a task is there: what it has read and what is in its queue is what was in its queue
      at the start and what the other end has sent since, in that order, without loss or repetition. */
  lemma {:induction false} DeliveredInOrder(digest: string -> string, r: Run, i: nat, k: nat)
    requires IsRun(digest, r) && k < |r.states|
    requires i < |r.states[0].tasks| && Other(i) < |r.states[0].tasks|
    ensures |r.states[k].tasks| == |r.states[0].tasks|
    ensures !r.states[k].tasks[i].state.Done? ==>
              ReadBy(r, i, k) + r.states[k].tasks[i].inbox ==
              r.states[0].tasks[i].inbox + SentBy(digest, r, Other(i), k)
  {
    if k == 0 {
      var inbox := r.states[0].tasks[i].inbox;
      assert [] + inbox == inbox + [];
    } else {
      DeliveredInOrder(digest, r, i, k - 1);
      assert StepAt(digest, r, k - 1);
      StepOnQueue(digest, r, i, k - 1);
      if !r.states[k].tasks[i].state.Done? {
        Rearrange(ReadBy(r, i, k - 1), ReadAtStep(r, i, k - 1), r.states[k - 1].tasks[i].inbox,
                  r.states[0].tasks[i].inbox, SentBy(digest, r, Other(i), k - 1),
                  SentAtStep(digest, r, Other(i), k - 1), r.states[k].tasks[i].inbox);
      }
    }
  }
}
