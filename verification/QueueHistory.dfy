/**
 What the state of a queue says about the operations before it, over all runs of `QueueOrder`:
 when it is stopped, what a post and a start come to, and why an SRB was completed.
 */
module QueueHistory {
  import opened IoqSpec
  import opened QueueOrder
  import Sequences

  // A reset that stops is among the first n operations.
  ghost predicate StopAmong<S(!new)>(ops: seq<Op<S>>, n: nat)
    requires n <= |ops|
  {
    exists k :: 0 <= k < n && ops[k] == Op.Reset(true)
  }

  // Only a stopping reset stops a queue, however many others came, and for good.
  lemma {:induction false} StoppedExactlyByAStop<S(!new)>(run: seq<State<S>>, ops: seq<Op<S>>, i: nat)
    requires IsRun(run, ops) && i < |run|
    ensures run[i].q.stopped <==> StopAmong(ops, i)
  {
    if i > 0 {
      StoppedExactlyByAStop(run, ops, i - 1);
      assert run[i - 1 + 1] == Step(run[i - 1], ops[i - 1]);
      assert StopAmong(ops, i) <==> StopAmong(ops, i - 1) || ops[i - 1] == Op.Reset(true);
    }
  }

  // An SRB that is posted waits at the end of the queue, unless the queue was stopped before.
  lemma PostWaits<S(!new)>(run: seq<State<S>>, ops: seq<Op<S>>, i: nat, x: S)
    requires IsRun(run, ops) && i < |ops| && ops[i] == Op.Post(x)
    ensures StopAmong(ops, i) ==> run[i + 1].q.pending == run[i + 1].q.process == []
    ensures !StopAmong(ops, i) ==>
      && run[i + 1].q.pending == run[i].q.pending + [x] && run[i + 1].q.process == run[i].q.process
      && run[i + 1].q.token
  {
    StoppedExactlyByAStop(run, ops, i);
    AlwaysOrdered(run, ops, i + 1);
  }

  // A start is cancelled exactly after a stop, comes back without an SRB exactly when a running
  // queue has none waiting, and otherwise hands out the head.
  lemma StartReturns<S(!new)>(run: seq<State<S>>, ops: seq<Op<S>>, i: nat)
    requires IsRun(run, ops) && i < |ops| && ops[i] == Op.Start
    ensures var q, r := run[i].q, run[i].q.Start().1;
      && (r == Cancelled <==> StopAmong(ops, i))
      && (r == Unsuccessful <==> !StopAmong(ops, i) && q.pending == [])
      && (r.Delivered? <==> q.pending != [])
      && (r.Delivered? ==>
           q.pending == [r.srb] + run[i + 1].q.pending && run[i + 1].q.process == q.process + [r.srb])
  {
    StoppedExactlyByAStop(run, ops, i);
    AlwaysOrdered(run, ops, i);
  }

  // ----- Completions -----

  // The operation completes x with this status: the device's answer to an SRB that is processing,
  // or a cancel or a reset while it is queued.
  predicate Completes<S(==)>(q: Queue<S>, op: Op<S>, x: S, status: SrbStatus) {
    || (op == Op.End(x, status) && status != Pending && x in q.process)
    || (status == Aborted && q.Holds(x) && (op == Op.Cancel(x) || op.Reset?))
  }

  lemma StepCompletes<S(!new)>(s: State<S>, op: Op<S>)
    requires Ordered(s) && Enabled(s, op)
    ensures s.q.done <= Step(s, op).q.done
    ensures var done' := Step(s, op).q.done;
      forall m :: |s.q.done| <= m < |done'| ==> Completes(s.q, op, done'[m].srb, done'[m].status)
  {
    hide Split, Accounted;
    var done' := Step(s, op).q.done;
    if op.Reset? && !s.q.stopped {
      ResetInOrder(s, op.stop);
    }
  }

  lemma ResetInOrder<S(!new)>(s: State<S>, stop: bool)
    requires !s.q.stopped
    ensures var held, done' := s.q.pending + s.q.process, Step(s, Op.Reset(stop)).q.done;
      && |done'| == |s.q.done| + |held| && s.q.done <= done'
      && forall j :: 0 <= j < |held| ==> done'[|s.q.done| + j] == Completion(held[j], Aborted)
    ensures Step(s, Op.Reset(stop)).q.pending == Step(s, Op.Reset(stop)).q.process == []
  {
  }

  lemma {:induction false} WhyCompleted<S(!new)>(run: seq<State<S>>, ops: seq<Op<S>>, i: nat, m: nat) returns (k: nat)
    requires IsRun(run, ops) && i < |run| && m < |run[i].q.done|
    ensures k < i && |run[k].q.done| <= m < |run[k + 1].q.done|
    ensures var c := run[i].q.done[m];
      run[k + 1].q.done[m] == c && Completes(run[k].q, ops[k], c.srb, c.status)
  {
    hide Step, Enabled, Ordered, Completes;
    if i > 0 {
      AlwaysOrdered(run, ops, i - 1);
      StepCompletes(run[i - 1], ops[i - 1]);
      assert run[i - 1 + 1] == Step(run[i - 1], ops[i - 1]);
      if m < |run[i - 1].q.done| {
        k := WhyCompleted(run, ops, i - 1, m);
      } else {
        k := i - 1;
      }
    }
  }

  ghost predicate Notified<S(!new)>(q: Queue<S>, q': Queue<S>, x: S) {
    exists m :: |q.done| <= m < |q'.done| && q'.done[m].srb == x
  }

  // What completes an SRB is notified in the same step, a reset's SRBs in the order of the two
  // lists; and an SRB leaves the queue in no other way.
  lemma CompletedAtOnce<S(!new)>(run: seq<State<S>>, ops: seq<Op<S>>, i: nat)
    requires IsRun(run, ops) && i < |ops|
    ensures var q, q' := run[i].q, run[i + 1].q;
      && (forall x, status :: ops[i] == Op.End(x, status) && status != Pending ==>
            q'.done == q.done + [Completion(x, status)])
      && (forall x :: ops[i] == Op.Cancel(x) && q.Holds(x) ==> q'.done == q.done + [Completion(x, Aborted)])
      && (ops[i].Reset? ==>
            && |q'.done| == |q.done| + |q.pending| + |q.process|
            && forall j :: 0 <= j < |q.pending + q.process| ==>
                 q'.done[|q.done| + j] == Completion((q.pending + q.process)[j], Aborted))
      && (forall x :: q.Holds(x) && !q'.Holds(x) ==> Notified(q, q', x))
  {
    AlwaysOrdered(run, ops, i);
    var s, op := run[i], ops[i];
    QueuedIsRunning(s);
    if op.Reset? && !s.q.stopped { ResetInOrder(s, op.stop); }
    hide Ordered, Notified;
    forall x | s.q.Holds(x) && !run[i + 1].q.Holds(x) ensures Notified(s.q, run[i + 1].q, x) {
      if op.Reset? { ResetNotifies(s, op.stop, x); } else { LeavesNotified(s, op, x); }
    }
  }

  lemma QueuedIsRunning<S(!new)>(s: State<S>)
    requires Ordered(s)
    ensures forall x :: s.q.Holds(x) ==> !s.q.stopped
  {
  }

  lemma ResetNotifies<S(!new)>(s: State<S>, stop: bool, x: S)
    requires !s.q.stopped && s.q.Holds(x)
    ensures Notified(s.q, Step(s, Op.Reset(stop)).q, x)
  {
    ResetInOrder(s, stop);
    var held := s.q.pending + s.q.process;
    assert x in held;
    var j :| 0 <= j < |held| && held[j] == x;
    assert Step(s, Op.Reset(stop)).q.done[|s.q.done| + j].srb == x;
  }

  // A start or a repost keeps its SRB; a cancel or an answer takes none but its own.
  lemma LeavesNotified<S(!new)>(s: State<S>, op: Op<S>, x: S)
    requires Enabled(s, op) && !s.q.stopped && s.q.Holds(x) && !Step(s, op).q.Holds(x) && !op.Reset?
    ensures Notified(s.q, Step(s, op).q, x)
  {
    hide Sequences.Without;
    var q' := Step(s, op).q;
    match op
    case Cancel(y) =>
      if y != x { Sequences.WithoutOther(s.q.pending, y, x); Sequences.WithoutOther(s.q.process, y, x); }
      assert q'.done[|s.q.done|].srb == y;
    case End(y, status) =>
      if y != x { Sequences.WithoutOther(s.q.process, y, x); }
      if status != Pending { assert q'.done[|s.q.done|].srb == y; }
    case _ =>
  }
}
