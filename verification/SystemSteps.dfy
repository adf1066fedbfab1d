/**
 One unit with many SRBs and many device threads: transfers are posted, started, executed by the
 device, answered, cancelled and reset in any order.

 An SRB is known by the address of its extension, which is also the hint of its requests. The
 driver lets go of an SRB when it completes, cancels or resets it, and the address may then be
 used again, while a device thread may still hold a request with it.
 */
module SystemSteps {
  import opened Arith
  import opened Bytes
  import opened Cdb
  import opened DeviceRuns
  import opened IoqSpec
  import opened Scsi
  import opened Sequences
  import opened Transfer
  import opened TransferRuns
  import opened Wrappers

  type Srb = nat

  // A request that a device thread fetched and has not answered: `hint` is all that the driver
  // will go by.
  datatype Held = Held(hint: Srb, request: Request, data: Data, executed: bool)

  // The requests in `held` are told apart by when they were issued, which nobody gets to see.
  datatype State = State(q: Queue<Srb>, disk: Data, xfers: map<Srb, Xfer>, held: map<nat, Held>, issued: nat)

  datatype Action =
    | PostSrb(srb: Srb, x: Xfer, transferLength: nat)
    | TakeToken
    | StartSrb(data: Data)               // `data` is what was in the waiting thread's buffer
    | ExecuteRequest(id: nat)
    | Respond(id: nat, good: bool)
    | CancelSrb(srb: Srb)
    | ResetQueue(stop: bool)
    | Foreign(at: nat, bytes: Data)      // a write that comes from elsewhere

  function PhaseOf(h: Held): Phase {
    if h.executed then Executed(h.request, h.data) else Issued(h.request, h.data)
  }

  // The request as the driver and the device take it: for the transfer now at its address.
  function Taken(s: State, h: Held): Sys
    requires h.hint in s.xfers
  {
    Sys(s.disk, s.xfers[h.hint], PhaseOf(h))
  }

  ghost predicate Enabled(p: UnitParams, s: State, a: Action) {
    match a
    case PostSrb(srb, x, transferLength) => !s.q.Holds(srb) && Posted(p, x, transferLength)
    case TakeToken => true
    case StartSrb(data) =>
      |data| == p.maxTransferLength &&
      (s.q.Start().1.Delivered? ==> s.q.pending[0] in s.xfers && Transferring(p, s.xfers[s.q.pending[0]]))
    case ExecuteRequest(id) =>
      id in s.held && s.held[id].hint in s.xfers && CanHappen(p, Taken(s, s.held[id]), DoExecute)
    case Respond(id, good) =>
      id in s.held && s.held[id].hint in s.xfers && CanHappen(p, Taken(s, s.held[id]), DoComplete(good))
    case CancelSrb(srb) => s.q.stopped || s.q.Holds(srb)
    case ResetQueue(stop) => true
    case Foreign(at, bytes) => at + |bytes| <= |s.disk|
  }

  function WithoutRequest(held: map<nat, Held>, id: nat): (r: map<nat, Held>)
    ensures r.Keys == held.Keys - {id} && forall i :: i in r ==> r[i] == held[i]
  {
    map i | i in held && i != id :: held[i]
  }

  function Issue(p: UnitParams, s: State, srb: Srb, data: Data): Held
    requires srb in s.xfers && Transferring(p, s.xfers[srb]) && |data| == p.maxTransferLength
  {
    var v := Prepare(p, Sys(s.disk, s.xfers[srb], Queued), data);
    Held(srb, v.phase.request, v.phase.data, false)
  }

  // The status that Complete returns for a response.
  function StatusOf(p: UnitParams, s: State, h: Held, good: bool): SrbStatus
    requires h.hint in s.xfers && Transferring(p, s.xfers[h.hint]) && |h.data| == p.maxTransferLength
  {
    Completed(p, s.xfers[h.hint], good, Some(h.data)).1
  }

  ghost function Step(p: UnitParams, s: State, a: Action): State
    requires Enabled(p, s, a)
  {
    match a
    case PostSrb(srb, x, _) => s.(q := s.q.Post(srb), xfers := s.xfers[srb := x])
    case TakeToken => s.(q := s.q.(token := false))
    case StartSrb(data) =>
      var (q, r) := s.q.Start();
      if r.Delivered?
      then s.(q := q, held := s.held[s.issued := Issue(p, s, r.srb, data)], issued := s.issued + 1)
      else s.(q := q)
    case ExecuteRequest(id) =>
      var h := s.held[id];
      var v := Execute(p, Taken(s, h));
      s.(disk := v.disk, held := s.held[id := Held(h.hint, v.phase.request, v.phase.data, true)])
    case Respond(id, good) =>
      var h := s.held[id];
      var t := s.(held := WithoutRequest(s.held, id));
      if h.hint in s.q.process
      then t.(q := s.q.End(h.hint, StatusOf(p, s, h, good)),
              xfers := s.xfers[h.hint := Complete(p, Taken(s, h), good).x])
      else t
    case CancelSrb(srb) => s.(q := s.q.Cancel(srb))
    case ResetQueue(stop) => s.(q := s.q.Reset(stop))
    case Foreign(at, bytes) => s.(disk := Overlay(s.disk, at, bytes))
  }

  ghost predicate Steps(p: UnitParams, run: seq<State>, acts: seq<Action>) {
    && |run| == |acts| + 1
    && forall i :: 0 <= i < |acts| ==> Enabled(p, run[i], acts[i]) && run[i + 1] == Step(p, run[i], acts[i])
  }

  // ----- The invariant -----

  ghost predicate Accepted(p: UnitParams, x: Xfer) {
    Transferring(p, x) && exists transferLength :: PostRange(p, x.cdb, transferLength) == Post(x.length)
  }

  // The device can carry the request out.
  predicate OnDisk(p: UnitParams, h: Held) {
    && |h.data| == p.maxTransferLength && h.request.count * p.blockLength <= p.maxTransferLength
    && h.request.address + h.request.count <= p.blockCount
  }

  ghost predicate QueueKnown(s: State) {
    WellFormed(s.q) && forall k :: k in s.q.pending + s.q.process ==> k in s.xfers
  }

  ghost predicate XfersAccepted(p: UnitParams, s: State) {
    forall k :: k in s.xfers ==> Accepted(p, s.xfers[k])
  }

  ghost predicate HeldOnDisk(p: UnitParams, s: State) {
    forall id :: id in s.held ==> id < s.issued && s.held[id].hint in s.xfers && OnDisk(p, s.held[id])
  }

  ghost predicate Inv(p: UnitParams, s: State) {
    && |s.disk| == p.blockCount * p.blockLength
    && QueueKnown(s) && XfersAccepted(p, s) && HeldOnDisk(p, s)
  }

  lemma OnDiskFits(p: UnitParams, s: State, h: Held)
    requires |s.disk| == p.blockCount * p.blockLength && OnDisk(p, h)
    ensures (h.request.address + h.request.count) * p.blockLength <= |s.disk|
  {
    MonotoneTimes(h.request.address + h.request.count, p.blockCount, p.blockLength);
  }

  // So a waiting thread with a buffer can always start what is pending, ...
  lemma CanStart(p: UnitParams, s: State, data: Data)
    requires Inv(p, s) && |data| == p.maxTransferLength
    ensures Enabled(p, s, StartSrb(data))
  {
    hide Transferring, WellFormed, OnDisk;
    assert s.q.pending != [] ==> s.q.pending[0] in s.q.pending + s.q.process;
  }

  // ... and every request held can be executed, and answered: with a failure at any time, with
  // success once it was executed.
  lemma CanExecuteAndRespond(p: UnitParams, s: State, id: nat, good: bool)
    requires Inv(p, s) && id in s.held
    ensures !s.held[id].executed ==> Enabled(p, s, ExecuteRequest(id))
    ensures (good ==> s.held[id].executed) ==> Enabled(p, s, Respond(id, good))
  {
    hide Transferring, WellFormed;
    OnDiskFits(p, s, s.held[id]);
  }

  lemma PostedAccepted(p: UnitParams, x: Xfer, transferLength: nat)
    requires Posted(p, x, transferLength)
    ensures Accepted(p, x)
  {
    ChunksPartitionExactly(p, x, transferLength);
  }

  lemma IssuedOnDisk(p: UnitParams, s: State, srb: Srb, data: Data)
    requires srb in s.xfers && Accepted(p, s.xfers[srb]) && |data| == p.maxTransferLength
    ensures OnDisk(p, Issue(p, s, srb, data)) && Issue(p, s, srb, data).hint == srb
  {
    var x := s.xfers[srb];
    var transferLength :| PostRange(p, x.cdb, transferLength) == Post(x.length);
    PreparedOnDisk(p, x, transferLength);
    hide PostRange, GetRange;
  }

  lemma ExecutedOnDisk(p: UnitParams, s: State, h: Held)
    requires h.hint in s.xfers && CanHappen(p, Taken(s, h), DoExecute) && OnDisk(p, h)
    ensures var v := Execute(p, Taken(s, h));
      && |v.disk| == |s.disk| && v.phase.Executed? && v.phase.request == h.request && |v.phase.data| == |h.data|
      && v.x == s.xfers[h.hint] && !h.executed
  {
    hide Transferring, Overlay;
    StartBeforeEnd(p, h.request);
  }

  lemma CompletedAccepted(p: UnitParams, s: State, h: Held, good: bool)
    requires h.hint in s.xfers && CanHappen(p, Taken(s, h), DoComplete(good)) && Accepted(p, s.xfers[h.hint])
    ensures Accepted(p, Complete(p, Taken(s, h), good).x)
  {
    var x := s.xfers[h.hint];
    CompletedTransfers(p, x, good, h.data);
    var transferLength :| PostRange(p, x.cdb, transferLength) == Post(x.length);
    hide PostRange, Transferring, ChunkLength;
  }

  lemma CompletedTransfers(p: UnitParams, x: Xfer, good: bool, data: Data)
    requires Transferring(p, x) && |data| == p.maxTransferLength
    ensures var x' := Completed(p, x, good, Some(data)).0;
      Transferring(p, x') && x'.cdb == x.cdb && x'.length == x.length
  {
    hide GetRange, Provisionable;
  }

  // ----- Every step keeps it -----

  lemma PostMembers(q: Queue<Srb>, srb: Srb)
    ensures forall y :: y in q.Post(srb).pending + q.Post(srb).process ==> y == srb || y in q.pending + q.process
  {
  }

  lemma AfterPost(p: UnitParams, s: State, a: Action)
    requires Inv(p, s) && a.PostSrb? && Enabled(p, s, a)
    ensures Inv(p, Step(p, s, a))
  {
    hide WellFormed, Accounted, Posted, Accepted, OnDisk, Queue.Post, Transferring, CanHappen;
    PostedAccepted(p, a.x, a.transferLength);
    AccountIsOne(s.q);
    PostKeeps(s.q, a.srb, Account(s.q));
    PostMembers(s.q, a.srb);
  }

  lemma StartMembers(q: Queue<Srb>)
    requires WellFormed(q) && !q.stopped && q.pending != []
    ensures forall y :: y in q.Start().0.pending + q.Start().0.process ==> y in q.pending + q.process
    ensures q.pending[0] in q.pending + q.process
    ensures forall y :: y in q.Start().0.pending ==> y in q.pending && y != q.pending[0]
    ensures forall y :: y in q.Start().0.process ==> y == q.pending[0] || y in q.process
  {
    HeadIsAlone(q);
  }

  lemma StartKeepsHeld(p: UnitParams, s: State, data: Data)
    requires Inv(p, s) && Enabled(p, s, StartSrb(data))
    ensures HeldOnDisk(p, Step(p, s, StartSrb(data)))
  {
    hide WellFormed, Transferring, Accepted, OnDisk, Issue;
    if !s.q.stopped && s.q.pending != [] { IssuedOnDisk(p, s, s.q.pending[0], data); }
  }

  lemma AfterStart(p: UnitParams, s: State, data: Data)
    requires Inv(p, s) && Enabled(p, s, StartSrb(data))
    ensures Inv(p, Step(p, s, StartSrb(data)))
  {
    hide WellFormed, Accounted, Transferring, Accepted, HeldOnDisk, Issue;
    StartKeepsHeld(p, s, data);
    AccountIsOne(s.q);
    StartKeeps(s.q, Account(s.q));
    if !s.q.stopped && s.q.pending != [] { StartMembers(s.q); }
  }

  lemma AfterExecute(p: UnitParams, s: State, id: nat)
    requires Inv(p, s) && Enabled(p, s, ExecuteRequest(id))
    ensures Inv(p, Step(p, s, ExecuteRequest(id)))
  {
    hide WellFormed, Transferring, Accepted, Execute;
    ExecutedOnDisk(p, s, s.held[id]);
  }

  lemma EndsOnce(q: Queue<Srb>, srb: Srb, status: SrbStatus)
    requires WellFormed(q) && srb in q.process
    ensures !q.stopped && srb !in q.End(srb, status).process && srb !in q.pending
    ensures forall y :: y in q.End(srb, status).pending ==> y in q.pending || (y == srb && status == Pending)
    ensures forall y :: y in q.End(srb, status).process ==> y in q.process
    ensures status == Pending ==> q.End(srb, status).pending == [srb] + q.pending
  {
    assert multiset(q.pending + q.process) == multiset(q.pending) + multiset(q.process);
    assert srb in q.pending + q.process;
    assert srb !in multiset(Without(q.process, srb));
    WithoutShrinks(q.process, srb);
  }

  lemma AfterRespond(p: UnitParams, s: State, id: nat, good: bool)
    requires Inv(p, s) && Enabled(p, s, Respond(id, good))
    ensures Inv(p, Step(p, s, Respond(id, good)))
  {
    hide WellFormed, Accounted, Transferring, Accepted, Complete, OnDisk, Queue.End, Completed;
    var h := s.held[id];
    if h.hint in s.q.process {
      var status := StatusOf(p, s, h, good);
      CompletedAccepted(p, s, h, good);
      AccountIsOne(s.q);
      EndKeeps(s.q, h.hint, status, Account(s.q));
      EndsOnce(s.q, h.hint, status);
    }
  }

  // Nothing happens but that SRBs leave the queue, the token goes or the disk changes.
  lemma AfterOther(p: UnitParams, s: State, a: Action)
    requires Inv(p, s) && Enabled(p, s, a) && (a.TakeToken? || a.CancelSrb? || a.ResetQueue? || a.Foreign?)
    ensures Inv(p, Step(p, s, a))
  {
    hide WellFormed, Accounted, Accepted, OnDisk, Overlay, Queue.Cancel;
    AccountIsOne(s.q);
    TokenKeeps(s.q, false, Account(s.q));
    match a
    case CancelSrb(srb) => CancelKeeps(s.q, srb, Account(s.q));
    case ResetQueue(stop) => ResetKeeps(s.q, stop, Account(s.q));
    case _ =>
  }

  lemma StepKeepsInv(p: UnitParams, s: State, a: Action)
    requires Inv(p, s) && Enabled(p, s, a)
    ensures Inv(p, Step(p, s, a))
  {
    hide Inv;
    match a
    case PostSrb(_, _, _) => AfterPost(p, s, a);
    case StartSrb(data) => AfterStart(p, s, data);
    case ExecuteRequest(id) => AfterExecute(p, s, id);
    case Respond(id, good) => AfterRespond(p, s, id, good);
    case _ => AfterOther(p, s, a);
  }

  lemma {:induction false} AlwaysInv(p: UnitParams, run: seq<State>, acts: seq<Action>, i: nat)
    requires Steps(p, run, acts) && i < |run| && Inv(p, run[0])
    ensures Inv(p, run[i])
  {
    if i > 0 {
      hide Inv, Step, Enabled;
      AlwaysInv(p, run, acts, i - 1);
      StepKeepsInv(p, run[i - 1], acts[i - 1]);
    }
  }

  // A unit that was just provisioned.
  function Init(disk: Data): State {
    State(Queue(false, false, [], [], []), disk, map[], map[], 0)
  }

  lemma InitInv(p: UnitParams, disk: Data)
    requires |disk| == p.blockCount * p.blockLength
    ensures Inv(p, Init(disk))
  {
  }
}
