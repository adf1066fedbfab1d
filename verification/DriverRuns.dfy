/**
 What every run of the kernel request path satisfies: theorems over whole runs of `Driver`,
 consequences of its invariant.
 */
module DriverRuns {
  import opened IoqSpec
  import opened UnitSlots
  import opened Driver

  // `run` is the states of a run and `acts` its actions.
  ghost predicate Steps(run: seq<State>, acts: seq<Action>) {
    && |run| == |acts| + 1
    && forall i :: 0 <= i < |acts| ==> Enabled(run[i], acts[i]) && run[i + 1] == Step(run[i], acts[i])
  }

  ghost predicate IsRun(capacity: nat, run: seq<State>, acts: seq<Action>) {
    Steps(run, acts) && run[0] == Init(capacity)
  }

  lemma {:induction false} ReachableInv(capacity: nat, run: seq<State>, acts: seq<Action>, i: nat)
    requires IsRun(capacity, run, acts) && i < |run|
    ensures Inv(run[i])
  {
    if i > 0 {
      hide Inv, Step;
      ReachableInv(capacity, run, acts, i - 1);
      StepKeepsInv(run[i - 1], acts[i - 1]);
    }
  }

  // An SRB held by a queue points to the queue's own unit, which has not been freed and still
  // has an owner; no other queue holds it.
  lemma QueuedSrbIsSafe(capacity: nat, run: seq<State>, acts: seq<Action>, i: nat, u: UnitId, srb: Srb)
    requires IsRun(capacity, run, acts) && i < |run|
    requires u in run[i].units && run[i].units[u].queue.Holds(srb)
    ensures srb in run[i].home && run[i].home[srb] == u
    ensures !run[i].units[u].freed && run[i].units[u].refCount > 0
    ensures forall v :: v in run[i].units && v != u ==> !run[i].units[v].queue.Holds(srb)
  {
    var s := run[i];
    ReachableInv(capacity, run, acts, i);
    assert QueueOk(s, u) && BaseHeld(s, u) && RefsOk(s, u);
    if SomeThread(s, Removed(u)) {
      var t :| t in s.ctx && s.ctx[t] == Removed(u);
      OwnerCounts(s, t, u);
    }
    forall v | v in s.units && v != u ensures !s.units[v].queue.Holds(srb) {
      assert QueueOk(s, v);
    }
  }

  function Occurrences(xs: seq<Srb>, srb: Srb): nat { multiset(xs)[srb] }

  // Every accepted SRB is pending, processing or completed: as often as it was accepted, and
  // queued at most once at a time.
  lemma AcceptedSrbsAreAccounted(capacity: nat, run: seq<State>, acts: seq<Action>, i: nat, u: UnitId, srb: Srb)
    requires IsRun(capacity, run, acts) && i < |run| && u in run[i].units
    ensures var x := run[i].units[u]; var q := x.queue;
      && x.posted[srb] == Occurrences(q.pending, srb) + Occurrences(q.process, srb) + Occurrences(Srbs(q.done), srb)
      && Occurrences(q.pending, srb) + Occurrences(q.process, srb) <= 1
  {
    ReachableInv(capacity, run, acts, i);
    assert QueueOk(run[i], u);
    var q := run[i].units[u].queue;
    assert multiset(q.pending + q.process) == multiset(q.pending) + multiset(q.process);
    if q.Holds(srb) { assert srb in q.pending + q.process; }
  }

  // Once stopped, both lists stay empty and nothing is accepted or completed any more.
  lemma {:induction false} StoppedForever(capacity: nat, run: seq<State>, acts: seq<Action>, i: nat, j: nat, u: UnitId)
    requires IsRun(capacity, run, acts) && i <= j < |run|
    requires u in run[i].units && run[i].units[u].queue.stopped
    ensures u in run[j].units
    ensures var x := run[j].units[u];
      && x.queue.stopped && x.queue.pending == [] && x.queue.process == []
      && x.queue.done == run[i].units[u].queue.done && x.posted == run[i].units[u].posted
  {
    hide Inv, Step, Enabled;
    if i < j {
      StoppedForever(capacity, run, acts, i, j - 1, u);
      StoppedStep(run[j - 1], acts[j - 1], u);
    }
    ReachableInv(capacity, run, acts, j);
    StoppedIsEmpty(run[j], u);
  }

  lemma StoppedIsEmpty(s: State, u: UnitId)
    requires Inv(s) && u in s.units && s.units[u].queue.stopped
    ensures s.units[u].queue.pending == [] && s.units[u].queue.process == []
  {
    assert QueueOk(s, u);
  }

  lemma StoppedStep(s: State, a: Action, u: UnitId)
    requires Enabled(s, a) && u in s.units && s.units[u].queue.stopped
    ensures u in Step(s, a).units && Step(s, a).units[u].queue.stopped
    ensures Step(s, a).units[u].queue.done == s.units[u].queue.done && Step(s, a).units[u].posted == s.units[u].posted
  {
  }

  // A thread that is about to free a unit is alone with it, the queue was stopped before, and
  // once freed the unit stays freed: no step frees it again and no thread refers to it.
  lemma FreedOnceAndLast(capacity: nat, run: seq<State>, acts: seq<Action>, i: nat, j: nat, u: UnitId)
    requires IsRun(capacity, run, acts) && i < j < |run|
    requires acts[i].Delete? && At(run[i], acts[i].t).unit == u
    ensures u in run[i].units && !run[i].units[u].freed && run[i].units[u].queue.stopped
    ensures !InTable(run[i], u) && Holders(run[i], u) == {}
    ensures u in run[j].units && run[j].units[u].freed && !InTable(run[j], u)
    ensures forall t :: t in run[j].ctx && !run[j].ctx[t].Idle? ==> run[j].ctx[t].unit != u
    ensures j < |acts| && acts[j].Delete? ==> At(run[j], acts[j].t).unit != u
  {
    ReachableInv(capacity, run, acts, i);
    DeletingIsLast(run[i], acts[i].t);
    FreedStays(run, acts, i + 1, j, u);
    ReachableInv(capacity, run, acts, j);
    assert RefsOk(run[j], u);
  }

  lemma {:induction false} FreedStays(run: seq<State>, acts: seq<Action>, i: nat, j: nat, u: UnitId)
    requires Steps(run, acts) && i <= j < |run| && u in run[i].units && run[i].units[u].freed
    ensures u in run[j].units && run[j].units[u].freed
  {
    hide Enabled, Step;
    if i < j {
      FreedStays(run, acts, i, j - 1, u);
      FreedStep(run[j - 1], acts[j - 1], u);
    }
  }

  lemma FreedStep(s: State, a: Action, u: UnitId)
    requires Enabled(s, a) && u in s.units && s.units[u].freed
    ensures u in Step(s, a).units && Step(s, a).units[u].freed
  {
  }

  // ----- Wakeups -----

  // A queue with work, or a stopped one, has its token set or a thread that already took it.
  lemma NoLostWakeup(capacity: nat, run: seq<State>, acts: seq<Action>, i: nat, u: UnitId)
    requires IsRun(capacity, run, acts) && i < |run| && u in run[i].units
    requires run[i].units[u].queue.stopped || run[i].units[u].queue.pending != []
    ensures run[i].units[u].queue.token || SomeThread(run[i], Using(u, Awake))
  {
    ReachableInv(capacity, run, acts, i);
    assert WakeOk(run[i], u);
  }

  // The steps of SpdIoctlTransact's wait loop, taken by a thread that uses unit u.
  ghost predicate IsWaitStep(s: State, a: Action, u: UnitId) {
    && (a.Consume? || a.Lock? || a.RecheckStopped? || a.AbortWait?)
    && At(s, a.t).Using? && At(s, a.t).unit == u
  }

  function Asleep(s: State, u: UnitId): set<Tid> { set t | t in s.ctx && s.ctx[t] == Using(u, Waiting) }

  function Up(s: State, u: UnitId): set<Tid> {
    set t | t in s.ctx && (s.ctx[t] == Using(u, Awake) || s.ctx[t] == Using(u, Recheck))
  }

  ghost predicate Released(s: State, u: UnitId) { Asleep(s, u) == {} && Up(s, u) == {} }

  // How many wait steps a stopped unit's threads can still take.
  function Remaining(s: State, u: UnitId): nat { 2 * |Asleep(s, u)| + |Up(s, u)| }

  // While a stopped unit has a waiter, some wait step can be taken.
  lemma SomeWaiterCanMove(s: State, u: UnitId) returns (a: Action)
    requires Inv(s) && u in s.units && s.units[u].queue.stopped && !Released(s, u)
    ensures Enabled(s, a) && IsWaitStep(s, a, u) && !a.AbortWait?
  {
    assert WakeOk(s, u);
    if SomeThread(s, Using(u, Awake)) {
      var t :| t in s.ctx && s.ctx[t] == Using(u, Awake);
      a := Lock(t);
    } else if Asleep(s, u) != {} {
      var t :| t in Asleep(s, u);
      a := Consume(t);
    } else {
      var t :| t in Up(s, u);
      assert s.ctx[t] == Using(u, Recheck);
      a := RecheckStopped(t);
    }
  }

  // On a stopped unit every wait step brings its thread nearer to leaving.
  lemma WaitStepDescends(s: State, a: Action, u: UnitId)
    requires Enabled(s, a) && IsWaitStep(s, a, u) && u in s.units && s.units[u].queue.stopped
    ensures Remaining(Step(s, a), u) < Remaining(s, u)
    ensures u in Step(s, a).units && Step(s, a).units[u].queue.stopped
  {
    hide InTable;
    var s' := Step(s, a);
    var t := a.t;
    StoppedStep(s, a, u);
    WaitersAfter(s, s', t, u);
    if s.ctx[t].pc == Waiting {
      assert t in Asleep(s, u) && t !in Up(s, u);
    } else {
      assert t in Up(s, u) && t !in Asleep(s, u);
    }
  }

  lemma WaitersAfter(s: State, s': State, t: Tid, u: UnitId)
    requires t in s'.ctx && s'.ctx == s.ctx[t := s'.ctx[t]]
    ensures Asleep(s', u) == if s'.ctx[t] == Using(u, Waiting) then Asleep(s, u) + {t} else Asleep(s, u) - {t}
    ensures Up(s', u) == if s'.ctx[t] == Using(u, Awake) || s'.ctx[t] == Using(u, Recheck)
                         then Up(s, u) + {t} else Up(s, u) - {t}
  {
  }

  ghost predicate WaitSteps(run: seq<State>, acts: seq<Action>, u: UnitId) {
    Steps(run, acts) && forall i :: 0 <= i < |acts| ==> IsWaitStep(run[i], acts[i], u)
  }

  // A thread of unit u begins to wait.
  ghost predicate IsBegin(s: State, a: Action, u: UnitId) {
    a.BeginWait? && At(s, a.t).Using? && At(s, a.t).unit == u
  }

  // How many of the first n actions are wait steps of unit u, and how many begin a wait on it.
  ghost function WaitCount(run: seq<State>, acts: seq<Action>, u: UnitId, n: nat): nat
    requires n <= |acts| <= |run|
  {
    if n == 0 then 0 else WaitCount(run, acts, u, n - 1) + if IsWaitStep(run[n - 1], acts[n - 1], u) then 1 else 0
  }

  ghost function BeginCount(run: seq<State>, acts: seq<Action>, u: UnitId, n: nat): nat
    requires n <= |acts| <= |run|
  {
    if n == 0 then 0 else BeginCount(run, acts, u, n - 1) + if IsBegin(run[n - 1], acts[n - 1], u) then 1 else 0
  }

  // Beginning to wait adds the two steps of a wait, ...
  lemma BeginAdds(s: State, a: Action, u: UnitId)
    requires Enabled(s, a) && IsBegin(s, a, u)
    ensures Remaining(Step(s, a), u) == Remaining(s, u) + 2
  {
    hide InTable;
    WaitersAfter(s, Step(s, a), a.t, u);
    assert a.t !in Asleep(s, u) && a.t !in Up(s, u);
  }

  // ... and no other step changes who waits.
  lemma OthersDoNotWait(s: State, a: Action, u: UnitId)
    requires Enabled(s, a) && !IsWaitStep(s, a, u) && !IsBegin(s, a, u)
    ensures Asleep(Step(s, a), u) == Asleep(s, u) && Up(Step(s, a), u) == Up(s, u)
  {
    hide InTable, HasGuid, LowestFree;
  }

  // In any run after a stop, other steps of any threads and units in between, the wait steps of
  // the unit are bounded by the waiters at the stop and those that begin to wait later, ...
  lemma {:induction false} WaitStepsBounded(run: seq<State>, acts: seq<Action>, u: UnitId, n: nat)
    requires Steps(run, acts) && n <= |acts|
    requires u in run[0].units && run[0].units[u].queue.stopped
    ensures u in run[n].units && run[n].units[u].queue.stopped
    ensures WaitCount(run, acts, u, n) + Remaining(run[n], u) <= Remaining(run[0], u) + 2 * BeginCount(run, acts, u, n)
  {
    if n > 0 {
      hide Enabled, Step, IsWaitStep, IsBegin, Remaining;
      WaitStepsBounded(run, acts, u, n - 1);
      var s, a := run[n - 1], acts[n - 1];
      assert run[n - 1 + 1] == Step(s, a);
      StoppedStep(s, a, u);
      if IsWaitStep(s, a, u) {
        WaitStepDescends(s, a, u);
        NotBoth(s, a, u);
      } else if IsBegin(s, a, u) {
        BeginAdds(s, a, u);
      } else {
        OthersDoNotWait(s, a, u);
        SameRemaining(s, Step(s, a), u);
      }
    }
  }

  lemma NotBoth(s: State, a: Action, u: UnitId)
    ensures !(IsWaitStep(s, a, u) && IsBegin(s, a, u))
  {
  }

  lemma SameRemaining(s: State, s': State, u: UnitId)
    requires Asleep(s', u) == Asleep(s, u) && Up(s', u) == Up(s, u)
    ensures Remaining(s', u) == Remaining(s, u)
  {
  }

  // ... and once no waiter of the unit can go on by itself, all of them have been released: the
  // single token that a stop leaves behind reaches each of them, one after another, whatever else
  // happens meanwhile.
  lemma StopReleasesEveryWaiter(run: seq<State>, acts: seq<Action>, u: UnitId)
    requires Steps(run, acts) && Inv(run[0]) && u in run[0].units && run[0].units[u].queue.stopped
    requires forall a :: Enabled(run[|acts|], a) && IsWaitStep(run[|acts|], a, u) ==> a.AbortWait?
    ensures Released(run[|acts|], u)
    ensures WaitCount(run, acts, u, |acts|) <= Remaining(run[0], u) + 2 * BeginCount(run, acts, u, |acts|)
  {
    WaitStepsBounded(run, acts, u, |acts|);
    RunKeepsInv(run, acts, |acts|);
    if !Released(run[|acts|], u) {
      var a := SomeWaiterCanMove(run[|acts|], u);
    }
  }

  lemma {:induction false} RunKeepsInv(run: seq<State>, acts: seq<Action>, n: nat)
    requires Steps(run, acts) && Inv(run[0]) && n <= |acts|
    ensures Inv(run[n])
  {
    if n > 0 {
      hide Inv, Step;
      RunKeepsInv(run, acts, n - 1);
      StepKeepsInv(run[n - 1], acts[n - 1]);
    }
  }

  lemma LockDelivers(s: State, u: UnitId, t: Tid)
    requires u in s.units && !s.units[u].queue.stopped && s.units[u].queue.pending != []
    requires t in s.ctx && s.ctx[t] == Using(u, Awake)
    ensures Enabled(s, Lock(t)) && IsWaitStep(s, Lock(t), u)
    ensures var s' := Step(s, Lock(t)); u in s'.units && s.units[u].queue.pending[0] in s'.units[u].queue.process
  {
  }

  lemma ConsumeWakes(s: State, u: UnitId, t: Tid)
    requires u in s.units && s.units[u].queue.token && t in s.ctx && s.ctx[t] == Using(u, Waiting)
    ensures Enabled(s, Consume(t)) && IsWaitStep(s, Consume(t), u)
    ensures var s' := Step(s, Consume(t));
      u in s'.units && s'.units[u].queue == s.units[u].queue.(token := false) && t in s'.ctx && s'.ctx[t] == Using(u, Awake)
  {
  }

  lemma WaitingSeesToken(s: State, u: UnitId)
    requires Inv(s) && u in s.units && s.units[u].queue.pending != [] && !s.units[u].queue.token
    ensures SomeThread(s, Using(u, Awake))
  {
    assert WakeOk(s, u);
  }

  lemma OneStep(s: State, a: Action, u: UnitId)
    requires Enabled(s, a) && IsWaitStep(s, a, u)
    ensures WaitSteps([s, Step(s, a)], [a], u)
  {
  }

  lemma TwoSteps(s: State, a: Action, b: Action, u: UnitId)
    requires Enabled(s, a) && IsWaitStep(s, a, u) && Enabled(Step(s, a), b) && IsWaitStep(Step(s, a), b, u)
    ensures WaitSteps([s, Step(s, a), Step(Step(s, a), b)], [a, b], u)
  {
    hide Enabled, Step, IsWaitStep;
  }

  // A pending SRB with a sleeping waiter is at most two wait steps from being delivered.
  lemma PendingReachesAWaiter(s: State, u: UnitId, t: Tid) returns (acts: seq<Action>, run: seq<State>)
    requires Inv(s) && u in s.units && !s.units[u].queue.stopped && s.units[u].queue.pending != []
    requires t in Asleep(s, u)
    ensures run != [] && run[0] == s && WaitSteps(run, acts, u) && |acts| <= 2
    ensures u in run[|acts|].units && s.units[u].queue.pending[0] in run[|acts|].units[u].queue.process
  {
    hide Inv, Enabled, Step, IsWaitStep;
    if s.units[u].queue.token {
      ConsumeWakes(s, u, t);
      var s1 := Step(s, Consume(t));
      LockDelivers(s1, u, t);
      TwoSteps(s, Consume(t), Lock(t), u);
      acts, run := [Consume(t), Lock(t)], [s, s1, Step(s1, Lock(t))];
    } else {
      WaitingSeesToken(s, u);
      var x :| x in s.ctx && s.ctx[x] == Using(u, Awake);
      LockDelivers(s, u, x);
      OneStep(s, Lock(x), u);
      acts, run := [Lock(x)], [s, Step(s, Lock(x))];
    }
  }
}
