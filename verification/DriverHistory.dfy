/**
 What the state of the interleaved driver says about the steps before it: when a unit's queue is
 stopped, what becomes of a post, and how a waiter leaves its wait.
 */
module DriverHistory {
  import opened Driver
  import opened DriverRuns
  import opened IoqSpec
  import opened UnitSlots
  import opened Wrappers

  // A thread stops unit u: the unprovisioning one, or one that resets the queue to stop it.
  predicate Stops(s: State, a: Action, u: UnitId) {
    (a.StopRemoved? || (a.ResetQueue? && a.stop)) && !At(s, a.t).Idle? && At(s, a.t).unit == u
  }

  ghost predicate StopBefore(run: seq<State>, acts: seq<Action>, u: UnitId, n: nat)
    requires n <= |acts| <= |run|
  {
    exists k :: 0 <= k < n && Stops(run[k], acts[k], u)
  }

  lemma StepStops(s: State, a: Action, u: UnitId)
    requires Inv(s) && Enabled(s, a) && u in Step(s, a).units
    ensures u in s.units ==> (Step(s, a).units[u].queue.stopped <==> s.units[u].queue.stopped || Stops(s, a, u))
    ensures u !in s.units ==> !Step(s, a).units[u].queue.stopped && !Stops(s, a, u)
  {
    hide SlotsOk, AllRefs, AllBase, AllWake, AllQueues, CtxOk, InTable;
    if a.Delete? { DeletingIsLast(s, a.t); }
  }

  // A unit's queue is stopped exactly if its unprovisioning or a stopping reset came before: no
  // device or bus reset stops it, nor anything else that threads do.
  lemma {:induction false} StoppedExactlyByAStop(capacity: nat, run: seq<State>, acts: seq<Action>, i: nat, u: UnitId)
    requires IsRun(capacity, run, acts) && i < |run| && u in run[i].units
    ensures run[i].units[u].queue.stopped <==> StopBefore(run, acts, u, i)
  {
    hide Inv, Step, Enabled, Stops;
    if i > 0 {
      ReachableInv(capacity, run, acts, i - 1);
      assert run[i - 1 + 1] == Step(run[i - 1], acts[i - 1]);
      StepStops(run[i - 1], acts[i - 1], u);
      if u in run[i - 1].units {
        StoppedExactlyByAStop(capacity, run, acts, i - 1, u);
      } else {
        NeverStopped(run, acts, u, i - 1);
      }
      assert StopBefore(run, acts, u, i) <==> StopBefore(run, acts, u, i - 1) || Stops(run[i - 1], acts[i - 1], u);
    }
  }

  lemma StopsKnown(s: State, a: Action, u: UnitId)
    requires Enabled(s, a) && Stops(s, a, u)
    ensures u in s.units
  {
  }

  lemma StaysKnown(s: State, a: Action, u: UnitId)
    requires Enabled(s, a) && u in s.units
    ensures u in Step(s, a).units
  {
  }

  lemma {:induction false} NeverStopped(run: seq<State>, acts: seq<Action>, u: UnitId, i: nat)
    requires Steps(run, acts) && i < |run| && u !in run[i].units
    ensures !StopBefore(run, acts, u, i)
  {
    hide Step, Enabled, Stops;
    if i > 0 {
      assert run[i - 1 + 1] == Step(run[i - 1], acts[i - 1]);
      if u in run[i - 1].units { StaysKnown(run[i - 1], acts[i - 1], u); }
      NeverStopped(run, acts, u, i - 1);
      if Stops(run[i - 1], acts[i - 1], u) { StopsKnown(run[i - 1], acts[i - 1], u); }
    }
  }

  // So after any number of other resets a posted SRB is accepted and waits behind the others;
  // after a stop none is.
  lemma PostWaits(capacity: nat, run: seq<State>, acts: seq<Action>, i: nat, t: Tid, srb: Srb)
    requires IsRun(capacity, run, acts) && i < |acts| && acts[i] == PostSrb(t, srb)
    ensures var u := At(run[i], t).unit;
      && u in run[i].units && u in run[i + 1].units
      && var x, x' := run[i].units[u], run[i + 1].units[u];
      && (!StopBefore(run, acts, u, i) ==>
            && x'.queue.pending == x.queue.pending + [srb] && x'.queue.process == x.queue.process
            && x'.posted == x.posted + multiset{srb})
      && (StopBefore(run, acts, u, i) ==> x'.queue == x.queue && x'.posted == x.posted)
  {
    assert run[i + 1] == Step(run[i], acts[i]);
    StoppedExactlyByAStop(capacity, run, acts, i, At(run[i], t).unit);
  }

  // A waiter leaves its wait with the head of the queue or after a stop, unless it is aborted;
  // otherwise it goes on waiting.
  lemma WaiterLeaves(capacity: nat, run: seq<State>, acts: seq<Action>, i: nat, u: UnitId)
    requires IsRun(capacity, run, acts) && i < |acts| && IsWaitStep(run[i], acts[i], u) && !acts[i].AbortWait?
    ensures u in run[i].units && u in run[i + 1].units
    ensures var q, q' := run[i].units[u].queue, run[i + 1].units[u].queue;
      var served := acts[i].Lock? && q.pending != [];
      && (At(run[i + 1], acts[i].t) == Using(u, Ready) <==>
            served || (StopBefore(run, acts, u, i) && !acts[i].Consume?))
      && (served ==> q.pending == [q.pending[0]] + q'.pending && q'.process == q.process + [q.pending[0]])
      && (!served ==> q'.pending == q.pending && q'.process == q.process)
      && Owns(At(run[i + 1], acts[i].t), u)
  {
    assert run[i + 1] == Step(run[i], acts[i]);
    ReachableInv(capacity, run, acts, i);
    StoppedExactlyByAStop(capacity, run, acts, i, u);
    WaitStepLeaves(run[i], acts[i], u);
    hide Inv, StopBefore, Step, Enabled, IsWaitStep;
  }

  lemma WaitStepLeaves(s: State, a: Action, u: UnitId)
    requires Inv(s) && Enabled(s, a) && IsWaitStep(s, a, u) && !a.AbortWait?
    ensures u in s.units && u in Step(s, a).units
    ensures var q, q' := s.units[u].queue, Step(s, a).units[u].queue;
      var served := a.Lock? && q.pending != [];
      && (At(Step(s, a), a.t) == Using(u, Ready) <==> served || (q.stopped && !a.Consume?))
      && (served ==> q.pending == [q.pending[0]] + q'.pending && q'.process == q.process + [q.pending[0]])
      && (!served ==> q'.pending == q.pending && q'.process == q.process)
      && Owns(At(Step(s, a), a.t), u)
  {
    hide Inv, Step;
    UsesKnown(s, a, u);
    if s.units[u].queue.stopped { StoppedIsEmpty(s, u); }
    if a.Lock? { LockLeaves(s, a.t, u); } else { OtherLeaves(s, a, u); }
  }

  lemma UsesKnown(s: State, a: Action, u: UnitId)
    requires Inv(s) && Enabled(s, a) && IsWaitStep(s, a, u)
    ensures u in s.units && At(s, a.t).Using? && At(s, a.t).unit == u
  {
    hide SlotsOk, AllRefs, AllBase, AllWake, AllQueues;
  }

  // Taking the token, or looking again whether the queue is stopped.
  lemma OtherLeaves(s: State, a: Action, u: UnitId)
    requires Enabled(s, a) && IsWaitStep(s, a, u) && (a.Consume? || a.RecheckStopped?) && u in s.units
    ensures u in Step(s, a).units
    ensures var q, q', c := s.units[u].queue, Step(s, a).units[u].queue, At(Step(s, a), a.t);
      && c == (if a.Consume? then Using(u, Awake) else Using(u, if q.stopped then Ready else Waiting))
      && q'.pending == q.pending && q'.process == q.process
  {
    hide InTable;
  }

  lemma LockLeaves(s: State, t: Tid, u: UnitId)
    requires Enabled(s, Lock(t)) && At(s, t).unit == u && (s.units[u].queue.stopped ==> s.units[u].queue.pending == [])
    ensures u in Step(s, Lock(t)).units
    ensures var q, q', c := s.units[u].queue, Step(s, Lock(t)).units[u].queue, At(Step(s, Lock(t)), t);
      && c == Using(u, if q.pending != [] || q.stopped then Ready else Recheck)
      && (q.pending != [] ==> q.pending == [q.pending[0]] + q'.pending && q'.process == q.process + [q.pending[0]])
      && (q.pending == [] ==> q'.pending == q.pending && q'.process == q.process)
  {
    hide InTable;
  }

  // The unit was put in the slot at k, and the slot was not cleared since.
  ghost predicate PutAt(acts: seq<Action>, index: nat, e: Entry, k: nat, i: nat)
    requires i <= |acts|
  {
    && k < i && acts[k] == Provision(e.unit, e.guid, e.owner, index)
    && forall j :: k < j < i && acts[j].RemoveSlot? ==> acts[j].index != index
  }

  lemma StepSlots(s: State, a: Action, index: nat)
    requires Enabled(s, a) && index < |s.slots|
    ensures |Step(s, a).slots| == |s.slots|
    ensures Step(s, a).slots[index] ==
      if a.Provision? && a.index == index then Some(Entry(a.guid, a.owner, a.unit))
      else if a.RemoveSlot? && a.index == index then None
      else s.slots[index]
    ensures a.Provision? && a.index == index ==> s.slots[index].None?
    ensures a.RemoveSlot? && a.index == index ==> s.slots[index].Some? && s.slots[index].value.owner == a.pid
  {
  }

  // In every run the table holds in a slot exactly what was last provisioned there, by GUID, owner
  // and unit, unless the slot was cleared since.
  lemma {:induction false} SlotHolds(capacity: nat, run: seq<State>, acts: seq<Action>, i: nat, index: nat, e: Entry)
    requires IsRun(capacity, run, acts) && i < |run| && index < capacity
    ensures |run[i].slots| == capacity
    ensures run[i].slots[index] == Some(e) <==> exists k: nat :: PutAt(acts, index, e, k, i)
  {
    hide Step, Enabled;
    if i > 0 {
      var s, a := run[i - 1], acts[i - 1];
      SlotHolds(capacity, run, acts, i - 1, index, e);
      assert run[i - 1 + 1] == Step(s, a);
      StepSlots(s, a, index);
      if run[i].slots[index] == Some(e) {
        if a.Provision? && a.index == index {
          assert PutAt(acts, index, e, i - 1, i);
        } else {
          var k: nat :| PutAt(acts, index, e, k, i - 1);
          assert PutAt(acts, index, e, k, i);
        }
      }
      if k: nat :| PutAt(acts, index, e, k, i) {
        if k < i - 1 { assert PutAt(acts, index, e, k, i - 1); }
      }
    }
  }

  // So a reference is to the unit that was provisioned at the target, ...
  lemma ReferencesProvisioned(capacity: nat, run: seq<State>, acts: seq<Action>, i: nat, t: Tid, index: nat) returns (k: nat, e: Entry)
    requires IsRun(capacity, run, acts) && i < |acts| && acts[i] == Reference(t, index)
    ensures PutAt(acts, index, e, k, i) && At(run[i + 1], t) == Using(e.unit, Ready)
  {
    assert run[i + 1] == Step(run[i], acts[i]);
    SlotsStay(capacity, run, acts, i);
    e := run[i].slots[index].value;
    SlotHolds(capacity, run, acts, i, index, e);
    k :| PutAt(acts, index, e, k, i);
  }

  // ... and only the process that provisioned a unit removes it.
  lemma OnlyOwnerRemoves(capacity: nat, run: seq<State>, acts: seq<Action>, i: nat, t: Tid, index: nat, pid: Pid) returns (k: nat, e: Entry)
    requires IsRun(capacity, run, acts) && i < |acts| && acts[i] == RemoveSlot(t, index, pid)
    ensures PutAt(acts, index, e, k, i) && e.owner == pid && At(run[i + 1], t) == Removed(e.unit)
  {
    assert run[i + 1] == Step(run[i], acts[i]);
    SlotsStay(capacity, run, acts, i);
    e := run[i].slots[index].value;
    SlotHolds(capacity, run, acts, i, index, e);
    k :| PutAt(acts, index, e, k, i);
  }

  lemma {:induction false} SlotsStay(capacity: nat, run: seq<State>, acts: seq<Action>, i: nat)
    requires IsRun(capacity, run, acts) && i < |run|
    ensures |run[i].slots| == capacity
  {
    if i > 0 {
      SlotsStay(capacity, run, acts, i - 1);
      assert run[i - 1 + 1] == Step(run[i - 1], acts[i - 1]);
    }
  }
}
