/**
 The chain of dispatcher threads (src/shared/stgunit.c): each thread may start one more, and on
 its way out waits for the one it started. The first thread flushes the cache at the end.
 */
module DispatcherThreads {
  datatype Phase = Starting | Running | Exiting | Done

  // Thread k, if it has a child, started thread k + 1.
  datatype Thread = Thread(phase: Phase, hasChild: bool)

  datatype State = State(
    count: int,             // DispatcherThreadCount
    threads: seq<Thread>,   // in the order they were created; threads[0] is the dispatcher thread
    flushes: nat)

  datatype Action =
    | Start(k: nat, buffer: bool, created: bool)  // buffer allocation and CreateThread may fail
    | Leave(k: nat)                                  // transact failed: shut down and exit
    | Finish(k: nat)                                 // the child is done: flush if first, then end

  // SpdStorageUnitStartDispatcher. `flushing` says that the unit has a cache and a Flush handler.
  function Init(threadCount: nat): State { State(threadCount, [Thread(Starting, false)], 0) }

  predicate Enabled(s: State, a: Action) {
    a.k < |s.threads| &&
    match a
    case Start(k, _, _) => s.threads[k].phase == Starting
    case Leave(k) => s.threads[k].phase == Running
    case Finish(k) =>
      s.threads[k].phase == Exiting &&
      (s.threads[k].hasChild ==> k + 1 < |s.threads| && s.threads[k + 1].phase == Done)
  }

  function Step(s: State, a: Action, flushing: bool): State
    requires Enabled(s, a)
  {
    var t := s.threads[a.k];
    match a
    case Start(k, buffer, created) =>
      if !buffer then s.(threads := s.threads[k := t.(phase := Exiting)])
      else if s.count <= 1 then s.(threads := s.threads[k := t.(phase := Running)])
      else if !created then s.(count := s.count - 1, threads := s.threads[k := t.(phase := Exiting)])
      else State(s.count - 1, s.threads[k := Thread(Running, true)] + [Thread(Starting, false)], s.flushes)
    case Leave(k) => s.(threads := s.threads[k := t.(phase := Exiting)])
    case Finish(k) =>
      s.(threads := s.threads[k := t.(phase := Done)],
         flushes := s.flushes + if k == 0 && flushing then 1 else 0)
  }

  // The chain: every thread but the last has a child, only the last may still be starting, and
  // threads finish from the end.
  ghost predicate Inv(s: State, threadCount: nat, flushing: bool) {
    && s.threads != []
    && (forall k :: 0 <= k < |s.threads| ==> (s.threads[k].hasChild <==> k < |s.threads| - 1))
    && (forall k :: 0 <= k < |s.threads| - 1 ==> s.threads[k].phase != Starting)
    && (forall k :: 0 <= k < |s.threads| - 1 && s.threads[k].phase == Done ==> s.threads[k + 1].phase == Done)
    && s.flushes == (if s.threads[0].phase == Done && flushing then 1 else 0)
    && (|s.threads| > 1 ==> s.count + |s.threads| - 1 <= threadCount && s.count >= 1)
    && (|s.threads| == 1 ==> s.count <= threadCount)
  }

  ghost predicate IsRun(threadCount: nat, flushing: bool, run: seq<State>, acts: seq<Action>) {
    && |run| == |acts| + 1 && run[0] == Init(threadCount)
    && forall i :: 0 <= i < |acts| ==> Enabled(run[i], acts[i]) && run[i + 1] == Step(run[i], acts[i], flushing)
  }

  lemma StepKeepsInv(s: State, a: Action, threadCount: nat, flushing: bool)
    requires Inv(s, threadCount, flushing) && Enabled(s, a)
    ensures Inv(Step(s, a, flushing), threadCount, flushing)
  {
  }

  lemma {:induction false} ChainInvariant(threadCount: nat, flushing: bool, run: seq<State>, acts: seq<Action>, i: nat)
    requires IsRun(threadCount, flushing, run, acts) && i < |run|
    ensures Inv(run[i], threadCount, flushing)
  {
    if i > 0 {
      ChainInvariant(threadCount, flushing, run, acts, i - 1);
      StepKeepsInv(run[i - 1], acts[i - 1], threadCount, flushing);
    }
  }

  lemma {:induction false} DoneBelow(s: State, threadCount: nat, flushing: bool, k: nat, j: nat)
    requires Inv(s, threadCount, flushing) && k <= j < |s.threads| && s.threads[k].phase == Done
    ensures s.threads[j].phase == Done
  {
    if k < j { DoneBelow(s, threadCount, flushing, k, j - 1); }
  }

  predicate FirstDone(s: State) { s.threads != [] && s.threads[0].phase == Done }

  ghost predicate AllDone(s: State) { forall j :: 0 <= j < |s.threads| ==> s.threads[j].phase == Done }

  ghost predicate OthersDone(s: State) { forall j :: 1 <= j < |s.threads| ==> s.threads[j].phase == Done }

  // The first thread finishes only after all others.
  lemma FirstFinishesLast(threadCount: nat, flushing: bool, run: seq<State>, acts: seq<Action>, i: nat)
    requires IsRun(threadCount, flushing, run, acts) && i < |run| && FirstDone(run[i])
    ensures AllDone(run[i])
    ensures i == |acts|
  {
    ChainInvariant(threadCount, flushing, run, acts, i);
    forall j | 0 <= j < |run[i].threads| ensures run[i].threads[j].phase == Done {
      DoneBelow(run[i], threadCount, flushing, 0, j);
    }
    if i < |acts| { assert Enabled(run[i], acts[i]); }
  }

  // The final flush happens at most once, when the first thread ends and every other thread has
  // ended, so no handler runs with it or after it.
  lemma FlushOnceAndLast(threadCount: nat, flushing: bool, run: seq<State>, acts: seq<Action>, i: nat)
    requires IsRun(threadCount, flushing, run, acts) && i < |run|
    ensures run[i].flushes <= 1
    ensures run[i].flushes == 1 <==> flushing && FirstDone(run[i])
    ensures run[i].flushes == 1 ==> i == |acts| && AllDone(run[i])
    ensures i > 0 && run[i].flushes == 1 ==> acts[i - 1] == Finish(0) && OthersDone(run[i - 1])
  {
    ChainInvariant(threadCount, flushing, run, acts, i);
    if FirstDone(run[i]) {
      FirstFinishesLast(threadCount, flushing, run, acts, i);
      if i > 0 {
        ChainInvariant(threadCount, flushing, run, acts, i - 1);
        FirstStep(threadCount, flushing, run, acts, i - 1);
      }
    }
  }

  lemma FirstStep(threadCount: nat, flushing: bool, run: seq<State>, acts: seq<Action>, i: nat)
    requires IsRun(threadCount, flushing, run, acts) && i < |acts| && Inv(run[i], threadCount, flushing)
    requires FirstDone(run[i + 1])
    ensures acts[i] == Finish(0) && OthersDone(run[i])
  {
    if FirstDone(run[i]) { FirstFinishesLast(threadCount, flushing, run, acts, i); }
    if |run[i].threads| > 1 {
      forall j | 1 <= j < |run[i].threads| ensures run[i].threads[j].phase == Done {
        DoneBelow(run[i], threadCount, flushing, 1, j);
      }
    }
  }

  // No more threads than were asked for (and never none).
  lemma ThreadCountBound(threadCount: nat, flushing: bool, run: seq<State>, acts: seq<Action>, i: nat)
    requires IsRun(threadCount, flushing, run, acts) && i < |run|
    ensures 1 <= |run[i].threads| && (|run[i].threads| > 1 ==> |run[i].threads| <= threadCount)
  {
    ChainInvariant(threadCount, flushing, run, acts, i);
  }

  // No buffer allocation and no CreateThread among the actions failed.
  ghost predicate NoFailure(acts: seq<Action>) {
    forall i :: 0 <= i < |acts| && acts[i].Start? ==> acts[i].buffer && acts[i].created
  }

  ghost predicate StillToStart(s: State, threadCount: nat) {
    && s.threads != []
    && s.count == (if threadCount == 0 then 0 else threadCount - |s.threads| + 1)
    && (|s.threads| > 1 ==> |s.threads| <= threadCount)
    && (s.threads[|s.threads| - 1].phase != Starting ==> s.count <= 1)
  }

  lemma {:induction false} CountedDown(threadCount: nat, flushing: bool, run: seq<State>, acts: seq<Action>, i: nat)
    requires IsRun(threadCount, flushing, run, acts) && i < |run| && NoFailure(acts[..i])
    ensures StillToStart(run[i], threadCount)
  {
    ChainInvariant(threadCount, flushing, run, acts, i);
    if i > 0 {
      assert acts[..i][..i - 1] == acts[..i - 1] && acts[..i][i - 1] == acts[i - 1];
      CountedDown(threadCount, flushing, run, acts, i - 1);
      ChainInvariant(threadCount, flushing, run, acts, i - 1);
      assert run[i - 1 + 1] == Step(run[i - 1], acts[i - 1], flushing);
    }
  }

  // And if nothing fails, exactly as many as were asked for, at least one: once the last thread of
  // the chain is past its start, the chain has that length.
  lemma AllThreadsStart(threadCount: nat, flushing: bool, run: seq<State>, acts: seq<Action>, i: nat)
    requires IsRun(threadCount, flushing, run, acts) && i < |run| && NoFailure(acts[..i])
    requires run[i].threads != [] && run[i].threads[|run[i].threads| - 1].phase != Starting
    ensures |run[i].threads| == if threadCount <= 1 then 1 else threadCount
  {
    CountedDown(threadCount, flushing, run, acts, i);
    ChainInvariant(threadCount, flushing, run, acts, i);
  }

  // A thread serves requests only with a buffer, and with the thread it was to start.
  lemma {:induction false} RunsOnlyWhenStarted(threadCount: nat, flushing: bool, run: seq<State>, acts: seq<Action>, i: nat, k: nat)
    returns (j: nat)
    requires IsRun(threadCount, flushing, run, acts) && i < |run| && k < |run[i].threads| && run[i].threads[k].phase == Running
    ensures j < i && acts[j].Start? && acts[j].k == k && acts[j].buffer && (acts[j].created || run[j].count <= 1)
  {
    assert run[i - 1 + 1] == Step(run[i - 1], acts[i - 1], flushing);
    if k < |run[i - 1].threads| && run[i - 1].threads[k].phase == Running {
      j := RunsOnlyWhenStarted(threadCount, flushing, run, acts, i - 1, k);
    } else {
      j := i - 1;
    }
  }

  // The waits for children never block each other: until the first thread has ended, some thread
  // can move on, be it that every other start fails.
  lemma SomeThreadMoves(threadCount: nat, flushing: bool, run: seq<State>, acts: seq<Action>) returns (a: Action)
    requires IsRun(threadCount, flushing, run, acts) && !FirstDone(run[|acts|])
    ensures Enabled(run[|acts|], a) && (a.Start? ==> !a.buffer)
    ensures Effort(Step(run[|acts|], a, flushing).threads) < Effort(run[|acts|].threads)
  {
    ChainInvariant(threadCount, flushing, run, acts, |acts|);
    var s := run[|acts|];
    var k := LastUndone(s);
    a := match s.threads[k].phase
      case Starting => Start(k, false, false)
      case Running => Leave(k)
      case _ => Finish(k);
    var t := Step(s, a, flushing).threads[k];
    EffortUpdate(s.threads, k, t);
  }

  lemma LastUndone(s: State) returns (k: nat)
    requires s.threads != [] && s.threads[0].phase != Done
    ensures k < |s.threads| && s.threads[k].phase != Done
    ensures k + 1 < |s.threads| ==> s.threads[k + 1].phase == Done
  {
    k := |s.threads| - 1;
    while s.threads[k].phase == Done
      invariant k < |s.threads| && (k + 1 < |s.threads| ==> s.threads[k + 1].phase == Done)
      decreases k
    {
      k := k - 1;
    }
  }

  // The steps that threads have before them.
  function Effort(ts: seq<Thread>): nat {
    if ts == [] then 0 else Ahead(ts[0].phase) + Effort(ts[1..])
  }

  function Ahead(p: Phase): nat {
    match p case Starting => 3 case Running => 2 case Exiting => 1 case Done => 0
  }

  lemma {:induction false} EffortUpdate(ts: seq<Thread>, k: nat, t: Thread)
    requires k < |ts|
    ensures Effort(ts[k := t]) == Effort(ts) - Ahead(ts[k].phase) + Ahead(t.phase)
  {
    if k == 0 {
      assert ts[k := t][1..] == ts[1..];
    } else {
      assert ts[k := t][1..] == ts[1..][k - 1 := t];
      EffortUpdate(ts[1..], k - 1, t);
    }
  }
}
