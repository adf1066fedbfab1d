/**
 The order in which the interleaved driver serves the SRBs of a unit: what `Driver` does to the
 unit's queue is a run of `QueueOrder`.
 */
module DriverOrder {
  import opened Driver
  import opened DriverRuns
  import opened IoqSpec
  import Q = QueueOrder
  import opened Wrappers

  predicate ByThread(a: Action) {
    a.PostSrb? || a.CancelSrb? || a.ResetQueue? || a.StopRemoved? || a.Delete? || a.EndSrb? || a.Consume? || a.Lock?
  }

  // What an action is for the queue of unit u, if it is anything.
  function OpOf(s: State, a: Action, u: UnitId): Option<Q.Op<Srb>>
    requires u in s.units
  {
    if !ByThread(a) || At(s, a.t).Idle? || At(s, a.t).unit != u then None
    else
      match a
      case PostSrb(_, srb) => Some(Q.Post(srb))
      case CancelSrb(_, srb) => Some(Q.Cancel(srb))
      case ResetQueue(_, stop) => Some(Q.Reset(stop))
      case StopRemoved(_) => Some(Q.Reset(true))
      case Delete(_) => Some(Q.Reset(false))
      case EndSrb(_, hint, status) => if hint in s.units[u].queue.process then Some(Q.End(hint, status)) else None
      case Consume(_) => Some(Q.TakeToken)
      case Lock(_) => Some(Q.Start)
      case _ => None
  }

  lemma Untouched(s: State, a: Action, u: UnitId)
    requires Enabled(s, a) && u in s.units && OpOf(s, a, u).None?
    ensures u in Step(s, a).units && Step(s, a).units[u].queue == s.units[u].queue
  {
    hide InTable, Queue.Post, Queue.Cancel, Queue.Reset, Queue.End, Queue.Start;
  }

  lemma PostProjects(s: State, t: Tid, srb: Srb, u: UnitId, qs: Q.State<Srb>)
    requires Enabled(s, PostSrb(t, srb)) && u in s.units && At(s, t).unit == u && qs.q == s.units[u].queue
    ensures Q.Enabled(qs, Q.Post(srb)) && u in Step(s, PostSrb(t, srb)).units
    ensures Q.Step(qs, Q.Post(srb)).q == Step(s, PostSrb(t, srb)).units[u].queue
  {
  }

  lemma OtherProjects(s: State, a: Action, u: UnitId, qs: Q.State<Srb>)
    requires Enabled(s, a) && !a.PostSrb? && u in s.units && OpOf(s, a, u).Some? && qs.q == s.units[u].queue
    ensures u in Step(s, a).units && Q.Enabled(qs, OpOf(s, a, u).value)
    ensures Q.Step(qs, OpOf(s, a, u).value).q == Step(s, a).units[u].queue
  {
    hide InTable, Queue.Post, Queue.Cancel, Queue.Reset, Queue.End, Queue.Start;
  }

  lemma StepProjects(s: State, a: Action, u: UnitId, qs: Q.State<Srb>)
    requires Enabled(s, a) && u in s.units && qs.q == s.units[u].queue
    ensures u in Step(s, a).units
    ensures match OpOf(s, a, u)
      case None => Step(s, a).units[u].queue == qs.q
      case Some(op) => Q.Enabled(qs, op) && Q.Step(qs, op).q == Step(s, a).units[u].queue
  {
    if OpOf(s, a, u).None? {
      Untouched(s, a, u);
    } else if a.PostSrb? {
      PostProjects(s, a.t, a.srb, u, qs);
    } else {
      OtherProjects(s, a, u, qs);
    }
    hide Enabled, Step, Q.Enabled, Q.Step;
  }

  // The operations on the queue of u among the actions from lo to hi.
  ghost function Ops(run: seq<State>, acts: seq<Action>, u: UnitId, lo: nat, hi: nat): seq<Q.Op<Srb>>
    requires lo <= hi <= |acts| <= |run| && forall k :: lo <= k < hi ==> u in run[k].units
    decreases hi - lo
  {
    if lo == hi then []
    else
      Ops(run, acts, u, lo, hi - 1)
      + match OpOf(run[hi - 1], acts[hi - 1], u) case None => [] case Some(op) => [op]
  }

  lemma {:induction false} StaysKnown(run: seq<State>, acts: seq<Action>, u: UnitId, lo: nat, k: nat)
    requires Steps(run, acts) && lo <= k < |run| && u in run[lo].units
    ensures u in run[k].units
  {
    if lo < k {
      hide Enabled, Step;
      StaysKnown(run, acts, u, lo, k - 1);
      assert run[k - 1 + 1] == Step(run[k - 1], acts[k - 1]);
      StepProjects(run[k - 1], acts[k - 1], u, Q.State(run[k - 1].units[u].queue, 0, map[], {}));
    }
  }

  // A unit was provisioned just before lo.
  ghost predicate BornAt(run: seq<State>, acts: seq<Action>, u: UnitId, lo: nat) {
    Steps(run, acts) && 0 < lo <= |acts| && acts[lo - 1].Provision? && acts[lo - 1].unit == u
  }

  lemma BornEmpty(run: seq<State>, acts: seq<Action>, u: UnitId, lo: nat)
    requires BornAt(run, acts, u, lo)
    ensures u in run[lo].units && run[lo].units[u].queue == Queue(false, false, [], [], [])
  {
    assert run[lo - 1 + 1] == Step(run[lo - 1], acts[lo - 1]);
  }

  lemma Extend(qrun: seq<Q.State<Srb>>, ops: seq<Q.Op<Srb>>, op: Q.Op<Srb>)
    requires Q.IsRun(qrun, ops) && Q.Enabled(qrun[|ops|], op)
    ensures Q.IsRun(qrun + [Q.Step(qrun[|ops|], op)], ops + [op])
  {
    hide Q.Enabled, Q.Step;
  }

  // From its provision on, the queue of a unit makes a run of its own.
  lemma {:induction false} Projects(run: seq<State>, acts: seq<Action>, u: UnitId, lo: nat, hi: nat) returns (qrun: seq<Q.State<Srb>>)
    requires BornAt(run, acts, u, lo) && lo <= hi <= |acts|
    ensures forall k :: lo <= k <= hi ==> u in run[k].units
    ensures Q.IsRun(qrun, Ops(run, acts, u, lo, hi))
    ensures qrun[|Ops(run, acts, u, lo, hi)|].q == run[hi].units[u].queue
    decreases hi - lo
  {
    hide Enabled, Step, OpOf, Q.Enabled, Q.Step;
    BornEmpty(run, acts, u, lo);
    forall k | lo <= k <= hi ensures u in run[k].units { StaysKnown(run, acts, u, lo, k); }
    if lo == hi {
      qrun := [Q.State(Queue(false, false, [], [], []), 0, map[], {})];
    } else {
      qrun := Projects(run, acts, u, lo, hi - 1);
      var ops := Ops(run, acts, u, lo, hi - 1);
      assert run[hi - 1 + 1] == Step(run[hi - 1], acts[hi - 1]);
      StepProjects(run[hi - 1], acts[hi - 1], u, qrun[|ops|]);
      match OpOf(run[hi - 1], acts[hi - 1], u)
      case None => assert Ops(run, acts, u, lo, hi) == ops;
      case Some(op) =>
        Extend(qrun, ops, op);
        qrun := qrun + [Q.Step(qrun[|ops|], op)];
    }
  }

  // In every run of the driver: when a waiter is handed an SRB that was not started since its
  // last post, that post came before those of all other SRBs that wait, and none of them was
  // started either.
  lemma DriverServesInOrder(run: seq<State>, acts: seq<Action>, u: UnitId, lo: nat, j: nat, x: Srb, y: Srb)
    returns (qrun: seq<Q.State<Srb>>, m: nat, n: nat)
    requires BornAt(run, acts, u, lo) && lo <= j < |acts| && u in run[j].units
    requires OpOf(run[j], acts[j], u) == Some(Q.Start) && run[j].units[u].queue.Start().1 == Delivered(x)
    requires y in run[j].units[u].queue.pending && y != x
    ensures forall k :: lo <= k <= j ==> u in run[k].units
    ensures var ops := Ops(run, acts, u, lo, j);
      && Q.IsRun(qrun, ops) && qrun[|ops|].q == run[j].units[u].queue
      && (x !in qrun[|ops|].started ==>
            && y !in qrun[|ops|].started
            && m < n < |ops| && ops[m] == Q.Post(x) && ops[n] == Q.Post(y)
            && (forall k :: m < k < |ops| && !qrun[k].q.stopped ==> ops[k] != Q.Post(x))
            && (forall k :: n < k < |ops| && !qrun[k].q.stopped ==> ops[k] != Q.Post(y)))
  {
    hide Enabled, Step, OpOf, Q.Enabled, Q.Step;
    qrun := Projects(run, acts, u, lo, j);
    var ops := Ops(run, acts, u, lo, j);
    m, n := 0, 0;
    if x !in qrun[|ops|].started {
      StartEnabled(qrun[|ops|]);
      Extend(qrun, ops, Q.Start);
      var longer := qrun + [Q.Step(qrun[|ops|], Q.Start)];
      Q.FirstComeFirstServed(longer, ops + [Q.Start], |ops|, x, y);
      m, n := Q.PostedBefore(longer, ops + [Q.Start], |ops|, x, y);
      assert forall k :: 0 <= k < |ops| ==> longer[k] == qrun[k] && (ops + [Q.Start])[k] == ops[k];
    }
  }

  lemma StartEnabled(qs: Q.State<Srb>)
    ensures Q.Enabled(qs, Q.Start)
  {
  }

  ghost predicate Heads(s: State, u: UnitId, x: Srb) {
    u in s.units && Q.AtHead(Q.State(s.units[u].queue, 0, map[], {}), x)
  }

  lemma {:induction false} HeadsUntil(run: seq<State>, acts: seq<Action>, u: UnitId, x: Srb, i: nat, j: nat)
    requires Steps(run, acts) && i <= j < |run| && Heads(run[i], u, x)
    requires forall k :: i <= k < j && u in run[k].units ==>
      var op := OpOf(run[k], acts[k], u); op.Some? ==> Q.Between(op.value, x)
    ensures Heads(run[j], u, x)
  {
    if i < j {
      hide Enabled, Step, OpOf, Q.Between, Q.Step, Q.Enabled;
      HeadsUntil(run, acts, u, x, i, j - 1);
      var s, a := run[j - 1], acts[j - 1];
      assert run[j - 1 + 1] == Step(s, a);
      var qs := Q.State(s.units[u].queue, 0, map[], {});
      StepProjects(s, a, u, qs);
      if OpOf(s, a, u).Some? { Q.HeadStays(qs, OpOf(s, a, u).value, x); }
    }
  }

  // And an SRB with a further chunk goes to the next waiter, whatever threads do in between that
  // is not a start, a reset, its cancel or another repost on that unit.
  lemma DriverRepostedIsNext(capacity: nat, run: seq<State>, acts: seq<Action>, u: UnitId, i: nat, j: nat, x: Srb)
    requires IsRun(capacity, run, acts) && i < j < |acts| && u in run[i].units
    requires OpOf(run[i], acts[i], u) == Some(Q.End(x, Pending))
    requires forall k :: i < k < j && u in run[k].units ==>
      var op := OpOf(run[k], acts[k], u); op.Some? ==> Q.Between(op.value, x)
    ensures u in run[j].units && run[j].units[u].queue.Start().1 == Delivered(x)
  {
    ReachableInv(capacity, run, acts, i);
    RepostsAtHead(run[i], acts[i], u, x);
    assert run[i + 1] == Step(run[i], acts[i]);
    HeadsUntil(run, acts, u, x, i + 1, j);
  }

  lemma RepostsAtHead(s: State, a: Action, u: UnitId, x: Srb)
    requires Inv(s) && Enabled(s, a) && u in s.units && OpOf(s, a, u) == Some(Q.End(x, Pending))
    ensures Heads(Step(s, a), u, x)
  {
    assert QueueOk(s, u);
    hide Inv, SlotsOk, CtxOk;
  }
}
