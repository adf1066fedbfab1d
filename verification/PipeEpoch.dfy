/**
 The connection epoch of a pipe storage unit (SpdStorageUnitHandleTransactPipe in
 src/shared/stghandle.c). Connected is positive while a client is connected and negated on
 disconnect, so its absolute value counts connections. Every change is made under the unit's
 lock; the I/O between is not.
 */
module PipeEpoch {
  type Tid = nat

  // Epochs are the values of Connected that a thread copied under the lock.
  datatype Pc = Idle | Active(epoch: int) | Failed(epoch: int)

  datatype State = State(
    connected: int,
    attached: bool,          // a client has the unit parameters and was not disconnected since
    threads: map<Tid, Pc>,
    connections: nat,        // how many times the pipe was connected
    teardowns: seq<int>)     // the epochs torn down, in order

  // What connecting can come to: the client got the parameters, it connected but the parameters
  // could not be written, or ConnectNamedPipe failed.
  datatype Outcome = Success | ParamsFailed | ConnectFailed

  datatype Action =
    | Enter(t: Tid, outcome: Outcome)  // the locked section at the start of a transaction
    | Finish(t: Tid)                   // the transaction's I/O succeeded
    | Fail(t: Tid)                     // it failed; the thread goes on to disconnect
    | Disconnect(t: Tid)               // the locked section at the label disconnect

  const Init := State(0, false, map[], 0, [])

  function At(s: State, t: Tid): Pc { if t in s.threads then s.threads[t] else Idle }

  function Set(s: State, t: Tid, pc: Pc): State { s.(threads := s.threads[t := pc]) }

  predicate Enabled(s: State, a: Action) {
    match a
    case Enter(t, _) => At(s, t).Idle?
    case Finish(t) => At(s, t).Active?
    case Fail(t) => At(s, t).Active?
    case Disconnect(t) => At(s, t).Failed?
  }

  function Step(s: State, a: Action): State
    requires Enabled(s, a)
  {
    match a
    case Enter(t, outcome) =>
      if s.connected > 0 then Set(s, t, Active(s.connected))
      else if outcome == Success then
        var epoch := -s.connected + 1;
        Set(s.(connected := epoch, attached := true, connections := s.connections + 1), t, Active(epoch))
      else if outcome == ParamsFailed then s.(attached := false)
      else s
    case Finish(t) => Set(s, t, Idle)
    case Fail(t) => Set(s, t, Failed(At(s, t).epoch))
    case Disconnect(t) =>
      var epoch := At(s, t).epoch;
      if epoch == s.connected
      then Set(s.(connected := -s.connected, attached := false, teardowns := s.teardowns + [epoch]), t, Idle)
      else Set(s, t, Idle)
  }

  function Abs(x: int): nat { if x < 0 then -x else x }

  // Connected is positive exactly while a client is attached, its absolute value is the number
  // of connections, every epoch a thread holds is one of them, and the torn-down epochs are
  // exactly the past ones, each once.
  ghost predicate Inv(s: State) {
    && (s.connected > 0 <==> s.attached)
    && Abs(s.connected) == s.connections
    && (forall t :: t in s.threads && !s.threads[t].Idle? ==> 1 <= s.threads[t].epoch <= s.connections)
    && |s.teardowns| == (if s.connected > 0 then s.connections - 1 else s.connections)
    && (forall i :: 0 <= i < |s.teardowns| ==> s.teardowns[i] == i + 1)
  }

  ghost predicate IsRun(run: seq<State>, acts: seq<Action>) {
    && |run| == |acts| + 1 && run[0] == Init
    && forall i :: 0 <= i < |acts| ==> Enabled(run[i], acts[i]) && run[i + 1] == Step(run[i], acts[i])
  }

  lemma StepKeepsInv(s: State, a: Action)
    requires Inv(s) && Enabled(s, a)
    ensures Inv(Step(s, a))
  {
  }

  lemma {:induction false} EpochInvariant(run: seq<State>, acts: seq<Action>, i: nat)
    requires IsRun(run, acts) && i < |run|
    ensures Inv(run[i])
  {
    if i > 0 {
      EpochInvariant(run, acts, i - 1);
      StepKeepsInv(run[i - 1], acts[i - 1]);
    }
  }

  // The absolute value never decreases, and grows by one exactly when a connection is made.
  lemma {:induction false} EpochGrowsPerConnection(run: seq<State>, acts: seq<Action>, i: nat, j: nat)
    requires IsRun(run, acts) && i <= j < |run|
    ensures Abs(run[j].connected) - Abs(run[i].connected) == run[j].connections - run[i].connections >= 0
    ensures |run[i].teardowns| <= |run[j].teardowns|
  {
    EpochInvariant(run, acts, i);
    EpochInvariant(run, acts, j);
    if i < j { EpochGrowsPerConnection(run, acts, i, j - 1); }
  }

  // From a thread's entry on, the connection it uses is the one that was open then, whatever the
  // other threads do.
  lemma {:induction false} KeepsItsConnection(run: seq<State>, acts: seq<Action>, t: Tid, i: nat, j: nat)
    requires IsRun(run, acts) && i < j < |run| && acts[i].Enter? && acts[i].t == t && At(run[i + 1], t).Active?
    requires forall k :: i < k < j && acts[k].t == t ==> acts[k].Fail?
    ensures !At(run[j], t).Idle? && At(run[j], t).epoch == run[i + 1].connections
    ensures run[i + 1].attached && run[i + 1].connected == run[i + 1].connections
  {
    EpochInvariant(run, acts, i);
    EpochInvariant(run, acts, i + 1);
    if i + 1 < j { KeepsItsConnection(run, acts, t, i, j - 1); }
  }

  // A thread whose transaction failed disconnects the client it was talking to when it entered,
  // if that client is still there; if a newer one has connected meanwhile, or the old one is
  // already gone, it leaves connection, epochs and every other thread as they are.
  lemma OnlyTheObservedEpochIsClosed(run: seq<State>, acts: seq<Action>, t: Tid, i: nat, j: nat)
    requires IsRun(run, acts) && i < j < |acts| && acts[i].Enter? && acts[i].t == t && At(run[i + 1], t).Active?
    requires acts[j] == Disconnect(t)
    requires forall k :: i < k < j && acts[k].t == t ==> acts[k].Fail?
    ensures run[j].attached && run[j].connections == run[i + 1].connections ==>
      !run[j + 1].attached && run[j + 1].teardowns == run[j].teardowns + [run[i + 1].connections]
    ensures !(run[j].attached && run[j].connections == run[i + 1].connections) ==>
      && run[j + 1].attached == run[j].attached && run[j + 1].connected == run[j].connected
      && run[j + 1].teardowns == run[j].teardowns
    ensures run[j + 1].connections == run[j].connections
    ensures forall x :: x != t ==> At(run[j + 1], x) == At(run[j], x)
  {
    EpochInvariant(run, acts, j);
    KeepsItsConnection(run, acts, t, i, j);
  }

  // No epoch is torn down twice in a run.
  lemma TornDownOnce(run: seq<State>, acts: seq<Action>, i: nat, j: nat)
    requires IsRun(run, acts) && i < j < |acts| && acts[i].Disconnect? && acts[j].Disconnect?
    requires At(run[i], acts[i].t).epoch == run[i].connected
    ensures At(run[j], acts[j].t).epoch == run[j].connected ==> run[j].connected > run[i].connected
  {
    EpochInvariant(run, acts, i + 1);
    EpochInvariant(run, acts, j);
    EpochInvariant(run, acts, i);
    EpochGrowsPerConnection(run, acts, i + 1, j);
  }

  // A transaction that succeeds ends, and leaves every client and every other thread as it was.
  lemma FinishKeepsClients(run: seq<State>, acts: seq<Action>, i: nat, t: Tid)
    requires IsRun(run, acts) && i < |acts| && acts[i] == Finish(t)
    ensures At(run[i + 1], t).Idle? && forall x :: x != t ==> At(run[i + 1], x) == At(run[i], x)
    ensures run[i + 1].attached == run[i].attached && run[i + 1].connected == run[i].connected
    ensures run[i + 1].teardowns == run[i].teardowns && run[i + 1].connections == run[i].connections
  {
    assert run[i + 1] == Step(run[i], acts[i]);
  }

  lemma {:induction false} WhyFailed(run: seq<State>, acts: seq<Action>, j: nat, t: Tid) returns (i: nat)
    requires IsRun(run, acts) && j < |run| && At(run[j], t).Failed?
    ensures i < j && acts[i] == Fail(t) && At(run[i], t) == Active(At(run[j], t).epoch)
    ensures forall k :: i < k < j ==> acts[k].t != t
  {
    assert run[j - 1 + 1] == Step(run[j - 1], acts[j - 1]);
    if acts[j - 1].t == t {
      i := j - 1;
    } else {
      i := WhyFailed(run, acts, j - 1, t);
    }
  }

  // A client loses its connection only to a thread whose own transaction with it failed.
  lemma DisconnectedOnlyByAFailure(run: seq<State>, acts: seq<Action>, j: nat) returns (i: nat)
    requires IsRun(run, acts) && j < |acts| && run[j].attached && !run[j + 1].attached
    ensures acts[j].Disconnect? && i < j && acts[i] == Fail(acts[j].t)
    ensures At(run[i], acts[j].t) == Active(run[j].connections)
    ensures forall k :: i < k < j ==> acts[k].t != acts[j].t
  {
    EpochInvariant(run, acts, j);
    assert run[j + 1] == Step(run[j], acts[j]);
    i := WhyFailed(run, acts, j, acts[j].t);
  }

  // A thread gets to talk to the client that is there, or to the one that its connecting brings;
  // otherwise it comes back with nothing done.
  lemma EnterExactly(run: seq<State>, acts: seq<Action>, i: nat, t: Tid, outcome: Outcome)
    requires IsRun(run, acts) && i < |acts| && acts[i] == Enter(t, outcome)
    ensures var s, s' := run[i], run[i + 1];
      && (s.attached ==> At(s', t) == Active(s.connections) && s' == s.(threads := s.threads[t := Active(s.connections)]))
      && (!s.attached && outcome == Success ==>
            && At(s', t) == Active(s.connections + 1)
            && s'.attached && s'.connections == s.connections + 1 && s'.teardowns == s.teardowns)
      && (!s.attached && outcome != Success ==> s' == s)
  {
    EpochInvariant(run, acts, i);
    assert run[i + 1] == Step(run[i], acts[i]);
  }

  // The clients that were connected among the first n actions.
  ghost function Connected(run: seq<State>, acts: seq<Action>, n: nat): nat
    requires n <= |acts| <= |run|
  {
    if n == 0 then 0
    else
      Connected(run, acts, n - 1)
      + if acts[n - 1].Enter? && acts[n - 1].outcome == Success && !run[n - 1].attached then 1 else 0
  }

  // So Connected counts them, in its absolute value.
  lemma {:induction false} ConnectionsAreCounted(run: seq<State>, acts: seq<Action>, n: nat)
    requires IsRun(run, acts) && n < |run|
    ensures Abs(run[n].connected) == Connected(run, acts, n)
  {
    EpochInvariant(run, acts, n);
    if n > 0 {
      ConnectionsAreCounted(run, acts, n - 1);
      EpochInvariant(run, acts, n - 1);
      assert run[n - 1 + 1] == Step(run[n - 1], acts[n - 1]);
    }
  }
}
