/**
 What one transfer sees of a unit with many: if no request with its address is held by the device
 when it is posted, its own run is one of `DeviceRuns`, the writes of all others being the other
 requests there.
 */
module SystemRuns {
  import opened Bytes
  import opened Cdb
  import opened DeviceRuns
  import opened IoqSpec
  import opened Scsi
  import Sequences
  import opened SystemSteps
  import opened Transfer
  import opened TransferRuns
  import opened Wrappers

  // No request with the address is held by the device.
  ghost predicate NoneHeld(s: State, k: Srb) {
    forall id :: id in s.held ==> s.held[id].hint != k
  }

  // The request is the only one with the address.
  ghost predicate Sole(s: State, k: Srb, id: nat) {
    && id in s.held && s.held[id].hint == k
    && forall j :: j in s.held && s.held[j].hint == k ==> j == id
  }

  // v is where the queued transfer at address k stands, and its request, if it has one, is the
  // only one with its address.
  ghost predicate Stands(s: State, k: Srb, v: Sys) {
    && k in s.xfers && v.disk == s.disk && v.x == s.xfers[k]
    && ((k in s.q.pending && v.phase == Queued && NoneHeld(s, k))
        || (k in s.q.process && exists id :: Sole(s, k, id) && v.phase == PhaseOf(s.held[id])))
  }

  // It was answered for the last time.
  ghost predicate Ended(s: State, k: Srb, v: Sys) {
    !s.q.Holds(k) && k in s.xfers && v.disk == s.disk && v.x == s.xfers[k] && v.phase.Finished?
  }

  // A response to the transfer.
  predicate Answers(s: State, a: Action, k: Srb) {
    a.Respond? && a.id in s.held && s.held[a.id].hint == k && k in s.q.process
  }

  // What an action of the system is for one transfer, if it is anything.
  ghost function Seen(p: UnitParams, s: State, a: Action, k: Srb): Option<Event>
    requires Enabled(p, s, a)
  {
    match a
    case StartSrb(data) =>
      if s.q.Start().1.Delivered? && s.q.pending[0] == k then Some(DoPrepare(data)) else None
    case ExecuteRequest(id) =>
      if s.held[id].hint == k then Some(DoExecute)
      else if s.held[id].request.operation == Read then None
      else
        var r := s.held[id].request;
        Some(Other(ByteCount(p, r.address), s.held[id].data[..ByteCount(p, r.count)]))
    case Respond(id, good) => if Answers(s, a, k) then Some(DoComplete(good)) else None
    case Foreign(at, bytes) => Some(Other(at, bytes))
    case _ => None
  }

  // The transfer's view moves by what it sees of an action.
  ghost predicate Moves(p: UnitParams, v: Sys, e: Option<Event>, v': Sys) {
    match e
    case None => v' == v
    case Some(e) => CanHappen(p, v, e) && v' == Happen(p, v, e)
  }

  // ----- One step -----

  lemma StartSeen(p: UnitParams, s: State, data: Data, k: Srb, v: Sys) returns (v': Sys)
    requires Inv(p, s) && Enabled(p, s, StartSrb(data)) && Stands(s, k, v) && Transferring(p, v.x)
    ensures Moves(p, v, Seen(p, s, StartSrb(data), k), v') && Stands(Step(p, s, StartSrb(data)), k, v')
  {
    hide Transferring, Accepted, OnDisk, WellFormed, Prepared;
    var s' := Step(p, s, StartSrb(data));
    if s.q.stopped || s.q.pending == [] {
      v' := v;
    } else {
      StartMembers(s.q);
      HeadIsAlone(s.q);
      var id := s.issued;
      if s.q.pending[0] == k {
        v' := Happen(p, v, DoPrepare(data));
        assert Sole(s', k, id);
      } else {
        v' := v;
        if v.phase != Queued {
          var j :| Sole(s, k, j) && v.phase == PhaseOf(s.held[j]);
          assert Sole(s', k, j) && s'.held[j] == s.held[j];
        }
      }
    }
  }

  lemma OwnExecutes(p: UnitParams, s: State, id: nat, k: Srb, v: Sys) returns (v': Sys)
    requires Inv(p, s) && Enabled(p, s, ExecuteRequest(id)) && Stands(s, k, v) && s.held[id].hint == k
    ensures Moves(p, v, Seen(p, s, ExecuteRequest(id), k), v') && Stands(Step(p, s, ExecuteRequest(id)), k, v')
  {
    hide Transferring, Accepted, OnDisk, WellFormed, Overlay;
    var j :| Sole(s, k, j) && v.phase == PhaseOf(s.held[j]);
    var s' := Step(p, s, ExecuteRequest(id));
    StartBeforeEnd(p, s.held[id].request);
    assert v == Taken(s, s.held[id]);
    assert Sole(s', k, id);
    v' := Happen(p, v, DoExecute);
  }

  lemma OtherExecutes(p: UnitParams, s: State, id: nat, k: Srb, v: Sys) returns (v': Sys)
    requires Inv(p, s) && Enabled(p, s, ExecuteRequest(id)) && Stands(s, k, v) && s.held[id].hint != k
    requires Transferring(p, v.x)
    ensures Moves(p, v, Seen(p, s, ExecuteRequest(id), k), v') && Stands(Step(p, s, ExecuteRequest(id)), k, v')
  {
    hide Transferring, Accepted, OnDisk, WellFormed, Overlay;
    var s' := Step(p, s, ExecuteRequest(id));
    StartBeforeEnd(p, s.held[id].request);
    v' := v.(disk := s'.disk);
    if v.phase != Queued {
      var j :| Sole(s, k, j) && v.phase == PhaseOf(s.held[j]);
      assert Sole(s', k, j) && s'.held[j] == s.held[j];
    }
  }

  lemma OwnAnswered(p: UnitParams, s: State, id: nat, good: bool, k: Srb, v: Sys) returns (v': Sys)
    requires Inv(p, s) && Enabled(p, s, Respond(id, good)) && Stands(s, k, v) && s.held[id].hint == k
    ensures Moves(p, v, Seen(p, s, Respond(id, good), k), v') && Answers(s, Respond(id, good), k)
    ensures Stands(Step(p, s, Respond(id, good)), k, v') || Ended(Step(p, s, Respond(id, good)), k, v')
  {
    hide Transferring, Accepted, OnDisk, WellFormed, Completed;
    var j :| Sole(s, k, j) && v.phase == PhaseOf(s.held[j]);
    assert v == Taken(s, s.held[id]);
    EndsOnce(s.q, k, StatusOf(p, s, s.held[id], good));
    v' := Happen(p, v, DoComplete(good));
  }

  lemma OtherAnswered(p: UnitParams, s: State, id: nat, good: bool, k: Srb, v: Sys)
    requires Inv(p, s) && Enabled(p, s, Respond(id, good)) && Stands(s, k, v) && s.held[id].hint != k
    ensures Moves(p, v, Seen(p, s, Respond(id, good), k), v) && Stands(Step(p, s, Respond(id, good)), k, v)
  {
    hide Transferring, Accepted, OnDisk, WellFormed, Complete, StatusOf, Queue.End;
    var s', h := Step(p, s, Respond(id, good)), s.held[id];
    if h.hint in s.q.process { OthersStay(s.q, h.hint, StatusOf(p, s, h, good), k); }
    if v.phase != Queued {
      var j :| Sole(s, k, j) && v.phase == PhaseOf(s.held[j]);
      assert Sole(s', k, j) && s'.held[j] == s.held[j];
    }
  }

  lemma OthersStay(q: Queue<Srb>, srb: Srb, status: SrbStatus, k: Srb)
    requires WellFormed(q) && srb in q.process && k != srb
    ensures k in q.End(srb, status).pending <==> k in q.pending
    ensures k in q.End(srb, status).process <==> k in q.process
  {
    Sequences.WithoutOther(q.process, srb, k);
  }

  lemma CancelStays(q: Queue<Srb>, srb: Srb, k: Srb)
    requires WellFormed(q) && q.Cancel(srb).Holds(k)
    ensures k in q.Cancel(srb).pending <==> k in q.pending
    ensures k in q.Cancel(srb).process <==> k in q.process
  {
    Sequences.WithoutShrinks(q.pending, srb);
    Sequences.WithoutShrinks(q.process, srb);
    assert multiset(q.pending + q.process) == multiset(q.pending) + multiset(q.process);
    if k in q.process { assert k in q.pending + q.process; }
  }

  lemma RestStays(p: UnitParams, s: State, a: Action, k: Srb, v: Sys)
    requires Inv(p, s) && Enabled(p, s, a) && Stands(s, k, v) && Step(p, s, a).q.Holds(k)
    requires a.PostSrb? || a.TakeToken? || a.CancelSrb? || a.ResetQueue?
    ensures Moves(p, v, Seen(p, s, a, k), v) && Stands(Step(p, s, a), k, v)
  {
    hide Transferring, Accepted, OnDisk, WellFormed, Posted, Queue.Cancel;
    var s' := Step(p, s, a);
    if a.CancelSrb? { CancelStays(s.q, a.srb, k); }
    if v.phase != Queued {
      var j :| Sole(s, k, j) && v.phase == PhaseOf(s.held[j]);
      assert Sole(s', k, j);
    }
  }

  lemma ForeignSeen(p: UnitParams, s: State, a: Action, k: Srb, v: Sys) returns (v': Sys)
    requires Inv(p, s) && Enabled(p, s, a) && a.Foreign? && Stands(s, k, v) && Transferring(p, v.x)
    ensures Moves(p, v, Seen(p, s, a, k), v') && Stands(Step(p, s, a), k, v')
  {
    hide Transferring, Accepted, OnDisk, WellFormed, Overlay;
    var s' := Step(p, s, a);
    v' := v.(disk := s'.disk);
    if v.phase != Queued {
      var j :| Sole(s, k, j) && v.phase == PhaseOf(s.held[j]);
      assert Sole(s', k, j);
    }
  }

  lemma KnownAccepted(p: UnitParams, s: State, k: Srb)
    requires Inv(p, s) && k in s.xfers
    ensures Transferring(p, s.xfers[k])
  {
    hide Transferring;
    assert Accepted(p, s.xfers[k]);
  }

  // Every step that leaves the transfer queued, or answers it, is an event of its own run, or it
  // does not see it.
  lemma StepSeen(p: UnitParams, s: State, a: Action, k: Srb, v: Sys) returns (v': Sys)
    requires Inv(p, s) && Enabled(p, s, a) && Stands(s, k, v)
    requires Step(p, s, a).q.Holds(k) || Answers(s, a, k)
    ensures Moves(p, v, Seen(p, s, a, k), v')
    ensures Stands(Step(p, s, a), k, v') || (Answers(s, a, k) && Ended(Step(p, s, a), k, v'))
  {
    hide Inv, Stands, Ended, Moves, Seen, Step, Transferring, Answers;
    Placed(p, s, k, v);
    match a
    case StartSrb(data) => v' := StartSeen(p, s, data, k, v);
    case ExecuteRequest(id) =>
      if s.held[id].hint == k {
        v' := OwnExecutes(p, s, id, k, v);
      } else {
        v' := OtherExecutes(p, s, id, k, v);
      }
    case Respond(id, good) =>
      if s.held[id].hint == k {
        v' := OwnAnswered(p, s, id, good, k, v);
      } else {
        OtherAnswered(p, s, id, good, k, v);
        v' := v;
      }
    case Foreign(at, bytes) => v' := ForeignSeen(p, s, a, k, v);
    case _ =>
      NoAnswer(s, a, k);
      RestStays(p, s, a, k, v);
      v' := v;
  }

  lemma NoAnswer(s: State, a: Action, k: Srb)
    ensures Answers(s, a, k) ==> a.Respond?
  {
  }

  lemma Placed(p: UnitParams, s: State, k: Srb, v: Sys)
    requires Inv(p, s) && Stands(s, k, v)
    ensures k in s.xfers && v.x == s.xfers[k] && Transferring(p, v.x)
  {
    KnownAccepted(p, s, k);
  }

  // ----- Whole runs -----

  ghost predicate StaysQueued(run: seq<State>, i: nat, j: nat, k: Srb)
    requires j < |run|
  {
    forall m :: i <= m <= j ==> run[m].q.Holds(k)
  }

  // Between i and j nobody else writes in the byte range.
  ghost predicate Undisturbed(p: UnitParams, run: seq<State>, acts: seq<Action>, i: nat, j: nat, k: Srb, start: nat, length: nat)
    requires Steps(p, run, acts) && j <= |acts|
  {
    forall m :: i <= m < j ==>
      var e := Seen(p, run[m], acts[m], k);
      e.Some? && e.value.Other? ==> e.value.at + |e.value.bytes| <= start || start + length <= e.value.at
  }

  lemma AppendEvent(p: UnitParams, own: seq<Sys>, evs: seq<Event>, e: Event)
    requires DeviceRuns.IsRun(p, own, evs) && CanHappen(p, own[|evs|], e)
    ensures DeviceRuns.IsRun(p, own + [Happen(p, own[|evs|], e)], evs + [e])
  {
    hide Happen, CanHappen;
  }

  // A run of the whole system, cancels, resets and reused addresses included, is a run of the
  // transfer's own, as long as it is queued and was alone with its address at the start.
  lemma {:induction false} OwnRun(p: UnitParams, run: seq<State>, acts: seq<Action>, i: nat, j: nat, k: Srb, v: Sys, start: nat, length: nat)
    returns (own: seq<Sys>, evs: seq<Event>)
    requires Steps(p, run, acts) && Inv(p, run[0]) && i <= j <= |acts| && StaysQueued(run, i, j, k)
    requires Stands(run[i], k, v) && Undisturbed(p, run, acts, i, j, k, start, length)
    ensures DeviceRuns.IsRun(p, own, evs) && own[0] == v && Exclusive(start, length, evs)
    ensures Stands(run[j], k, own[|evs|])
    decreases j - i
  {
    hide Enabled, Step, Seen, Happen, CanHappen, Inv, Stands, Ended, Answers;
    if i == j {
      own, evs := [v], [];
    } else {
      own, evs := OwnRun(p, run, acts, i, j - 1, k, v, start, length);
      AlwaysInv(p, run, acts, j - 1);
      assert run[j - 1 + 1] == Step(p, run[j - 1], acts[j - 1]) && run[j].q.Holds(k);
      var v' := StepSeen(p, run[j - 1], acts[j - 1], k, own[|evs|]);
      EndedIsNotQueued(run[j], k, v');
      var e := Seen(p, run[j - 1], acts[j - 1], k);
      if e.Some? {
        AppendEvent(p, own, evs, e.value);
        own, evs := own + [v'], evs + [e.value];
      }
    }
  }

  lemma EndedIsNotQueued(s: State, k: Srb, v: Sys)
    ensures s.q.Holds(k) ==> !Ended(s, k, v)
  {
  }

  // ----- The promises -----

  // The transfer x is posted to a running queue at i, without wrap, stays queued, and the answer
  // at j completes it with success.
  ghost predicate Succeeds(p: UnitParams, run: seq<State>, acts: seq<Action>, i: nat, j: nat, k: Srb, x: Xfer, transferLength: nat) {
    && Steps(p, run, acts) && Inv(p, run[0]) && i < j < |acts|
    && acts[i] == PostSrb(k, x, transferLength) && !run[i].q.stopped
    && GetRange(x.cdb).count * p.blockLength < TWO_32
    && StaysQueued(run, i + 1, j, k)
    && Answers(run[j], acts[j], k) && run[j + 1].q.done == run[j].q.done + [Completion(k, Success)]
  }

  lemma PostStands(p: UnitParams, s: State, k: Srb, x: Xfer, transferLength: nat)
    requires Inv(p, s) && Enabled(p, s, PostSrb(k, x, transferLength)) && !s.q.stopped && NoneHeld(s, k)
    requires GetRange(x.cdb).count * p.blockLength < TWO_32
    ensures var s', v := Step(p, s, PostSrb(k, x, transferLength)), Sys(s.disk, x, Queued);
      Stands(s', k, v) && Fresh(p, v, transferLength) && s'.disk == s.disk
  {
    hide GetRange, PostRange;
  }

  // The answer that completes the transfer with success is the end of its own run.
  lemma EndsInSuccess(p: UnitParams, s: State, a: Action, k: Srb, v: Sys)
    requires Inv(p, s) && Enabled(p, s, a) && Stands(s, k, v) && Answers(s, a, k)
    requires Step(p, s, a).q.done == s.q.done + [Completion(k, Success)]
    ensures CanHappen(p, v, DoComplete(a.good))
    ensures var s', v' := Step(p, s, a), Happen(p, v, DoComplete(a.good));
      v'.phase == Finished(Success) && v'.disk == s'.disk == s.disk && k in s'.xfers && v'.x == s'.xfers[k]
  {
    hide Transferring, Accepted, OnDisk, WellFormed, Completed;
    assert v.phase != Queued by { QueuedOnce(s, k); }
    var j :| Sole(s, k, j) && v.phase == PhaseOf(s.held[j]);
    assert v == Taken(s, s.held[a.id]);
    EndsOnce(s.q, k, StatusOf(p, s, s.held[a.id], a.good));
    assert (s.q.done + [Completion(k, Success)])[|s.q.done|] == Completion(k, Success);
  }

  lemma QueuedOnce(s: State, k: Srb)
    requires WellFormed(s.q) && k in s.q.process
    ensures k !in s.q.pending
  {
    assert multiset(s.q.pending + s.q.process) == multiset(s.q.pending) + multiset(s.q.process);
    assert k in s.q.pending + s.q.process;
  }

  // The own run of a transfer that succeeds.
  lemma SuccessRun(p: UnitParams, run: seq<State>, acts: seq<Action>, i: nat, j: nat, k: Srb, x: Xfer, transferLength: nat)
    returns (own: seq<Sys>, evs: seq<Event>)
    requires Succeeds(p, run, acts, i, j, k, x, transferLength) && NoneHeld(run[i], k) && IsRangeOp(x.cdb[0])
    requires Undisturbed(p, run, acts, i + 1, j, k, Start(p, x), x.length)
    ensures DeviceRuns.IsRun(p, own, evs) && own[0] == Sys(run[i].disk, x, Queued) && Fresh(p, own[0], transferLength)
    ensures Exclusive(Start(p, x), x.length, evs) && own[|evs|].phase == Finished(Success)
    ensures own[|evs|].disk == run[j + 1].disk && k in run[j + 1].xfers && own[|evs|].x == run[j + 1].xfers[k]
  {
    hide Enabled, Step, Seen, Happen, CanHappen, Inv, Stands, Ended, Answers, Fresh, Start, NoneHeld;
    AlwaysInv(p, run, acts, i);
    PostStands(p, run[i], k, x, transferLength);
    own, evs := OwnRun(p, run, acts, i + 1, j, k, Sys(run[i].disk, x, Queued), Start(p, x), x.length);
    AlwaysInv(p, run, acts, j);
    NoAnswer(run[j], acts[j], k);
    EndsInSuccess(p, run[j], acts[j], k, own[|evs|]);
    var e := DoComplete(acts[j].good);
    AppendEvent(p, own, evs, e);
    own, evs := own + [Happen(p, own[|evs|], e)], evs + [e];
  }

  lemma BufferHolds(p: UnitParams, v: Sys, transferLength: nat)
    requires Fresh(p, v, transferLength)
    ensures v.x.length <= |v.x.buffer| && IsRangeOp(v.x.cdb[0])
  {
  }

  // However many transfers are under way at once, in whatever order their chunks are started,
  // executed and answered, and whatever else is cancelled or posted: a WRITE that was posted
  // while the device held no request with its address, that succeeds, and whose range nobody else
  // writes meanwhile, has put its buffer on the disk.
  lemma WriteAmongMany(p: UnitParams, run: seq<State>, acts: seq<Action>, i: nat, j: nat, k: Srb, x: Xfer, transferLength: nat)
    requires Succeeds(p, run, acts, i, j, k, x, transferLength) && NoneHeld(run[i], k) && IsWrite(x.cdb[0])
    requires Undisturbed(p, run, acts, i + 1, j, k, Start(p, x), x.length)
    ensures var at := Start(p, x);
      && x.length <= |x.buffer|
      && x.length == GetRange(x.cdb).count * p.blockLength && at + x.length <= |run[j + 1].disk|
      && run[j + 1].disk[at..at + x.length] == x.buffer[..x.length]
  {
    hide Enabled, Step, Seen, Fresh, Transferring, Happen, CanHappen, Start, Posted, NoneHeld, Succeeds, Undisturbed;
    var own, evs := SuccessRun(p, run, acts, i, j, k, x, transferLength);
    BufferHolds(p, own[0], transferLength);
    ChunkedWriteIsOneWrite(p, own, evs, transferLength);
  }

  // And a READ in that case has in its buffer what the disk held in its range when it was posted,
  // and nothing else.
  lemma ReadAmongMany(p: UnitParams, run: seq<State>, acts: seq<Action>, i: nat, j: nat, k: Srb, x: Xfer, transferLength: nat)
    requires Succeeds(p, run, acts, i, j, k, x, transferLength) && NoneHeld(run[i], k) && IsRead(x.cdb[0])
    requires Undisturbed(p, run, acts, i + 1, j, k, Start(p, x), x.length)
    ensures var at := Start(p, x);
      && x.length <= |x.buffer| && k in run[j + 1].xfers
      && x.length == GetRange(x.cdb).count * p.blockLength && at + x.length <= |run[i].disk|
      && run[j + 1].xfers[k].buffer == run[i].disk[at..at + x.length] + x.buffer[x.length..]
  {
    hide Enabled, Step, Seen, Fresh, Transferring, Happen, CanHappen, Start, Posted, NoneHeld, Succeeds, Undisturbed;
    var own, evs := SuccessRun(p, run, acts, i, j, k, x, transferLength);
    BufferHolds(p, own[0], transferLength);
    ChunkedReadIsOneRead(p, own, evs, transferLength);
  }
}
