/**
 What happens when the device still holds a request with the address of a transfer that is
 posted: the driver cannot tell its answer from the transfer's own.
 */
module LateAnswers {
  import opened Bytes
  import opened Cdb
  import opened DeviceRuns
  import opened IoqSpec
  import opened Scsi
  import Sequences
  import opened SystemRuns
  import opened SystemSteps
  import opened Transfer
  import opened TransferRuns
  import opened Wrappers

  // A continuation of s in which the transfer at k stays queued until its answer completes it
  // with success.
  ghost predicate Finishes(p: UnitParams, s: State, run: seq<State>, acts: seq<Action>, k: Srb) {
    && Steps(p, run, acts) && run[0] == s && acts != []
    && StaysQueued(run, 0, |acts| - 1, k)
    && Answers(run[|acts| - 1], acts[|acts| - 1], k)
    && run[|acts|].q.done == run[|acts| - 1].q.done + [Completion(k, Success)]
  }

  // Every answer it takes is to a request issued since: prepared from the transfer itself.
  ghost predicate AnsweredByItsOwn(run: seq<State>, acts: seq<Action>, k: Srb, since: nat)
    requires |run| == |acts| + 1
  {
    forall m :: 0 <= m < |acts| && Answers(run[m], acts[m], k) ==> acts[m].id >= since
  }

  // It takes the answer to this request.
  ghost predicate Takes(run: seq<State>, acts: seq<Action>, k: Srb, id: nat)
    requires |run| == |acts| + 1
  {
    exists m :: 0 <= m < |acts| && Answers(run[m], acts[m], k) && acts[m].id == id
  }

  // ----- Without one, only own answers -----

  ghost predicate OnlySince(s: State, k: Srb, since: nat) {
    since <= s.issued && forall id :: id in s.held && s.held[id].hint == k ==> id >= since
  }

  lemma StepOnlySince(p: UnitParams, s: State, a: Action, k: Srb, since: nat)
    requires Enabled(p, s, a) && OnlySince(s, k, since)
    ensures OnlySince(Step(p, s, a), k, since)
  {
    hide Transferring, Posted, Overlay, Execute, Prepare, Complete, Completed;
  }

  lemma {:induction false} AlwaysOnlySince(p: UnitParams, run: seq<State>, acts: seq<Action>, m: nat, k: Srb)
    requires Steps(p, run, acts) && m < |run| && NoneHeld(run[0], k)
    ensures OnlySince(run[m], k, run[0].issued)
  {
    hide Enabled, Step;
    if m > 0 {
      hide OnlySince;
      AlwaysOnlySince(p, run, acts, m - 1, k);
      assert run[m - 1 + 1] == Step(p, run[m - 1], acts[m - 1]);
      StepOnlySince(p, run[m - 1], acts[m - 1], k, run[0].issued);
    }
  }

  lemma OnlyOwnAnswers(p: UnitParams, run: seq<State>, acts: seq<Action>, k: Srb)
    requires Steps(p, run, acts) && NoneHeld(run[0], k)
    ensures AnsweredByItsOwn(run, acts, k, run[0].issued)
  {
    hide Enabled, Step;
    forall m | 0 <= m < |acts| && Answers(run[m], acts[m], k) ensures acts[m].id >= run[0].issued {
      AlwaysOnlySince(p, run, acts, m, k);
    }
  }

  // ----- With one, a success that takes its answer -----

  lemma StartMoves(p: UnitParams, s: State, data: Data)
    requires Inv(p, s) && s.q.pending != [] && |data| == p.maxTransferLength
    ensures Enabled(p, s, StartSrb(data))
    ensures var s', k := Step(p, s, StartSrb(data)), s.q.pending[0];
      && Inv(p, s') && s'.q.pending == s.q.pending[1..] && k in s'.q.process && s'.xfers == s.xfers && k in s.xfers
      && s.issued !in s.held && s.issued in s'.held && s'.held[s.issued].hint == k && !s'.held[s.issued].executed
      && forall id :: id in s.held ==> id in s'.held && s'.held[id] == s.held[id]
  {
    CanStart(p, s, data);
    StepKeepsInv(p, s, StartSrb(data));
    hide Transferring, Accepted, OnDisk, WellFormed, Prepared;
    RunningWhilePending(s.q);
    assert s.q.pending[0] in s.q.pending + s.q.process;
  }

  lemma RunningWhilePending(q: Queue<Srb>)
    requires WellFormed(q) && (q.pending != [] || q.process != [])
    ensures !q.stopped
  {
  }

  lemma ExecuteMoves(p: UnitParams, s: State, id: nat)
    requires Inv(p, s) && id in s.held && !s.held[id].executed
    ensures Enabled(p, s, ExecuteRequest(id))
    ensures var s' := Step(p, s, ExecuteRequest(id));
      && Inv(p, s') && s'.q == s.q && s'.xfers == s.xfers
      && id in s'.held && s'.held[id].hint == s.held[id].hint && s'.held[id].executed
  {
    CanExecuteAndRespond(p, s, id, true);
    StepKeepsInv(p, s, ExecuteRequest(id));
    hide Inv, Execute, CanHappen;
  }

  // The bytes still to transfer.
  function Rest(s: State, k: Srb): nat
    requires k in s.xfers
  {
    var x := s.xfers[k];
    if x.offset < x.length then x.length - x.offset else 0
  }

  // A success status for a chunk: the transfer is done, or back at the head with less to do.
  lemma RespondMoves(p: UnitParams, s: State, id: nat)
    requires Inv(p, s) && id in s.held && s.held[id].executed && s.held[id].hint in s.q.process
    ensures Enabled(p, s, Respond(id, true)) && Answers(s, Respond(id, true), s.held[id].hint)
    ensures var s', k := Step(p, s, Respond(id, true)), s.held[id].hint;
      && Inv(p, s') && k in s.xfers && k in s'.xfers
      && (s'.q.done == s.q.done + [Completion(k, Success)]
          || (s'.q.pending == [k] + s.q.pending && Rest(s', k) < Rest(s, k)))
  {
    var h := s.held[id];
    CanExecuteAndRespond(p, s, id, true);
    StepKeepsInv(p, s, Respond(id, true));
    KnownAccepted(p, s, h.hint);
    CompletedFollowsChunks(p, s.xfers[h.hint], Some(h.data));
    EndsOnce(s.q, h.hint, StatusOf(p, s, h, true));
    hide Inv, Transferring, Completed, Chunks, WellFormed;
  }

  lemma OneAnswer(p: UnitParams, s: State, id: nat, k: Srb)
    requires Enabled(p, s, Respond(id, true)) && s.q.Holds(k) && Answers(s, Respond(id, true), k)
    requires Step(p, s, Respond(id, true)).q.done == s.q.done + [Completion(k, Success)]
    ensures Finishes(p, s, [s, Step(p, s, Respond(id, true))], [Respond(id, true)], k)
    ensures Takes([s, Step(p, s, Respond(id, true))], [Respond(id, true)], k, id)
  {
    hide Enabled, Step;
    var acts := [Respond(id, true)];
    assert acts[0] == Respond(id, true);
  }

  lemma Prepend(p: UnitParams, s: State, a: Action, run: seq<State>, acts: seq<Action>, k: Srb)
    requires Enabled(p, s, a) && s.q.Holds(k) && Finishes(p, Step(p, s, a), run, acts, k)
    ensures Finishes(p, s, [s] + run, [a] + acts, k)
  {
    hide Enabled, Step, Answers;
    var run', acts' := [s] + run, [a] + acts;
    forall i | 0 <= i < |acts'|
      ensures Enabled(p, run'[i], acts'[i]) && run'[i + 1] == Step(p, run'[i], acts'[i]) && run'[i].q.Holds(k)
    {
      if i > 0 { assert run'[i] == run[i - 1] && acts'[i] == acts[i - 1] && run'[i + 1] == run[i - 1 + 1]; }
    }
  }

  lemma StillTakes(p: UnitParams, s: State, a: Action, run: seq<State>, acts: seq<Action>, k: Srb, id: nat)
    requires |run| == |acts| + 1 && Takes(run, acts, k, id)
    ensures Takes([s] + run, [a] + acts, k, id)
  {
    var m :| 0 <= m < |acts| && Answers(run[m], acts[m], k) && acts[m].id == id;
    assert ([s] + run)[m + 1] == run[m] && ([a] + acts)[m + 1] == acts[m];
  }

  function Zeros(p: UnitParams): (data: Data)
    ensures |data| == p.maxTransferLength
  {
    seq(p.maxTransferLength, _ => 0)
  }

  // At the head of the queue a transfer can always go on to succeed.
  lemma {:induction false} FinishFromHead(p: UnitParams, s: State, k: Srb) returns (run: seq<State>, acts: seq<Action>)
    requires Inv(p, s) && s.q.pending != [] && s.q.pending[0] == k && k in s.xfers
    ensures Finishes(p, s, run, acts, k)
    decreases Rest(s, k), 1
  {
    hide Inv, Enabled, Step, Answers, Finishes;
    var id := s.issued;
    StartMoves(p, s, Zeros(p));
    var s1 := Step(p, s, StartSrb(Zeros(p)));
    ExecuteMoves(p, s1, id);
    var s2 := Step(p, s1, ExecuteRequest(id));
    run, acts := FinishFromAnswer(p, s2, k, id);
    Prepend(p, s1, ExecuteRequest(id), run, acts, k);
    run, acts := [s1] + run, [ExecuteRequest(id)] + acts;
    Prepend(p, s, StartSrb(Zeros(p)), run, acts, k);
    run, acts := [s] + run, [StartSrb(Zeros(p))] + acts;
  }

  // So can a transfer that is processing, by the answer to any executed request with its address.
  lemma {:induction false} FinishFromAnswer(p: UnitParams, s: State, k: Srb, id: nat) returns (run: seq<State>, acts: seq<Action>)
    requires Inv(p, s) && k in s.q.process && k in s.xfers
    requires id in s.held && s.held[id].hint == k && s.held[id].executed
    ensures Finishes(p, s, run, acts, k) && |run| == |acts| + 1 && Takes(run, acts, k, id)
    decreases Rest(s, k), 0
  {
    hide Inv, Enabled, Step, Answers, Finishes, Takes;
    RespondMoves(p, s, id);
    var s' := Step(p, s, Respond(id, true));
    if s'.q.done == s.q.done + [Completion(k, Success)] {
      OneAnswer(p, s, id, k);
      run, acts := [s, s'], [Respond(id, true)];
    } else {
      run, acts := FinishFromHead(p, s', k);
      RunLength(p, s', run, acts, k);
      Prepend(p, s, Respond(id, true), run, acts, k);
      TakesFirst(s, Respond(id, true), run, acts, k);
      run, acts := [s] + run, [Respond(id, true)] + acts;
    }
  }

  lemma RunLength(p: UnitParams, s: State, run: seq<State>, acts: seq<Action>, k: Srb)
    requires Finishes(p, s, run, acts, k)
    ensures |run| == |acts| + 1
  {
  }

  lemma TakesFirst(s: State, a: Action, run: seq<State>, acts: seq<Action>, k: Srb)
    requires |run| == |acts| + 1 && Answers(s, a, k)
    ensures Takes([s] + run, [a] + acts, k, a.id)
  {
    assert ([s] + run)[0] == s && ([a] + acts)[0] == a;
  }

  // And wherever it waits, it can succeed by the answer to a request that was there before.
  lemma {:induction false} FinishByLateAnswer(p: UnitParams, s: State, k: Srb, id: nat, at: nat)
    returns (run: seq<State>, acts: seq<Action>)
    requires Inv(p, s) && at < |s.q.pending| && s.q.pending[at] == k && id in s.held && s.held[id].hint == k
    ensures Finishes(p, s, run, acts, k) && |run| == |acts| + 1 && Takes(run, acts, k, id)
    decreases at
  {
    hide Inv, Enabled, Step, Answers, Finishes, Takes;
    var start := StartSrb(Zeros(p));
    StartMoves(p, s, Zeros(p));
    var s1 := Step(p, s, start);
    if at > 0 {
      run, acts := FinishByLateAnswer(p, s1, k, id, at - 1);
    } else if s1.held[id].executed {
      run, acts := FinishFromAnswer(p, s1, k, id);
    } else {
      ExecuteMoves(p, s1, id);
      run, acts := FinishFromAnswer(p, Step(p, s1, ExecuteRequest(id)), k, id);
      Prepend(p, s1, ExecuteRequest(id), run, acts, k);
      StillTakes(p, s1, ExecuteRequest(id), run, acts, k, id);
      run, acts := [s1] + run, [ExecuteRequest(id)] + acts;
    }
    Prepend(p, s, start, run, acts, k);
    StillTakes(p, s, start, run, acts, k, id);
    run, acts := [s] + run, [start] + acts;
  }

  lemma PendingKnown(p: UnitParams, s: State, k: Srb) returns (at: nat)
    requires Inv(p, s) && k in s.q.pending
    ensures at < |s.q.pending| && s.q.pending[at] == k
  {
    at :| 0 <= at < |s.q.pending| && s.q.pending[at] == k;
  }

  lemma OldRequest(p: UnitParams, s: State, id: nat)
    requires Inv(p, s) && id in s.held
    ensures id < s.issued
  {
  }

  lemma NotItsOwn(run: seq<State>, acts: seq<Action>, k: Srb, id: nat, since: nat)
    requires |run| == |acts| + 1 && Takes(run, acts, k, id) && id < since
    ensures !AnsweredByItsOwn(run, acts, k, since)
  {
  }

  // The exact condition: in every continuation in which it succeeds, a transfer that was posted
  // takes none but the answers to its own requests, if and only if the device holds no request
  // with its address. Otherwise it can succeed by the answer to a request of its predecessor.
  lemma OwnAnswersExactlyWhenNoneHeld(p: UnitParams, s: State, k: Srb)
    requires Inv(p, s) && k in s.q.pending
    ensures (forall run, acts :: Finishes(p, s, run, acts, k) ==> AnsweredByItsOwn(run, acts, k, s.issued))
      <==> NoneHeld(s, k)
  {
    hide Inv, Answers, Takes, AnsweredByItsOwn, Enabled, Step;
    if NoneHeld(s, k) {
      forall run, acts | Finishes(p, s, run, acts, k) ensures AnsweredByItsOwn(run, acts, k, s.issued) {
        OnlyOwnAnswers(p, run, acts, k);
      }
    } else {
      var id :| id in s.held && s.held[id].hint == k;
      var at := PendingKnown(p, s, k);
      OldRequest(p, s, id);
      var run, acts := FinishByLateAnswer(p, s, k, id, at);
      NotItsOwn(run, acts, k, id, s.issued);
    }
  }

  // ----- What it gets by such an answer -----

  // A READ of one chunk succeeds with whatever data the answered request brings, ...
  lemma ReadTakesAnyAnswer(p: UnitParams, s: State, id: nat)
    requires Inv(p, s) && id in s.held && s.held[id].executed && s.held[id].hint in s.q.process
    requires s.held[id].hint in s.xfers
    requires var x := s.xfers[s.held[id].hint]; IsRead(x.cdb[0]) && x.offset == 0 && x.length <= p.maxTransferLength
    ensures Enabled(p, s, Respond(id, true))
    ensures var s', h := Step(p, s, Respond(id, true)), s.held[id];
      var x := s.xfers[h.hint];
      && s'.q.done == s.q.done + [Completion(h.hint, Success)]
      && h.hint in s'.xfers && x.length <= |h.data| && x.length <= |x.buffer|
      && s'.xfers[h.hint].buffer == h.data[..x.length] + x.buffer[x.length..]
  {
    var h := s.held[id];
    CanExecuteAndRespond(p, s, id, true);
    KnownAccepted(p, s, h.hint);
    EndsOnce(s.q, h.hint, StatusOf(p, s, h, true));
    hide Inv, GetRange, Provisionable, WellFormed;
  }

  // ... and a WRITE of one chunk succeeds with the disk as it was.
  lemma WriteTakesAnyAnswer(p: UnitParams, s: State, id: nat)
    requires Inv(p, s) && id in s.held && s.held[id].executed && s.held[id].hint in s.q.process
    requires s.held[id].hint in s.xfers
    requires var x := s.xfers[s.held[id].hint]; IsWrite(x.cdb[0]) && x.offset == 0 && x.length <= p.maxTransferLength
    ensures Enabled(p, s, Respond(id, true))
    ensures var s', h := Step(p, s, Respond(id, true)), s.held[id];
      s'.q.done == s.q.done + [Completion(h.hint, Success)] && s'.disk == s.disk
  {
    var h := s.held[id];
    CanExecuteAndRespond(p, s, id, true);
    KnownAccepted(p, s, h.hint);
    EndsOnce(s.q, h.hint, StatusOf(p, s, h, true));
    hide Inv, GetRange, Provisionable, WellFormed;
  }

  // ----- A run in which that happens -----

  const SMALL: UnitParams := UnitParams(8, 16, 16, false, false, false)

  // Each block of the disk is filled with its number.
  function Numbered(): (disk: Data)
    ensures |disk| == 128 && forall i :: 0 <= i < 128 ==> disk[i] == (i / 16) as byte
  {
    seq(128, i requires 0 <= i < 128 => (i / 16) as byte)
  }

  // READ(10) of block n.
  function ReadBlock(n: nat): Xfer
    requires n < 8
  {
    Xfer(Encode(READ10, Range(n, 1, false), 0), 16, 0, seq(16, _ => 9))
  }

  lemma ReadBlockCommand(n: nat)
    requires n < 8
    ensures ReadBlock(n).cdb[0] == READ10 && GetRange(ReadBlock(n).cdb) == Range(n, 1, false)
  {
    DecodeEncode(READ10, Range(n, 1, false), 0);
    hide Encode, GetRange;
  }

  lemma ReadBlockShape(n: nat)
    requires n < 8
    ensures var x := ReadBlock(n); x.length == 16 && x.offset == 0 && |x.buffer| == 16
  {
    hide Encode;
  }

  lemma ReadBlockAccepted(n: nat)
    requires n < 8
    ensures IsRangeOp(ReadBlock(n).cdb[0]) && PostRange(SMALL, ReadBlock(n).cdb, 16) == Post(16)
  {
    hide ReadBlock, GetRange;
    ReadBlockCommand(n);
    assert DataLength(SMALL, 1) == 16 && !OutOfRange(SMALL, n, 1);
  }

  lemma ReadBlockPosted(n: nat)
    requires n < 8
    ensures Posted(SMALL, ReadBlock(n), 16) && IsRead(ReadBlock(n).cdb[0]) && GetRange(ReadBlock(n).cdb) == Range(n, 1, false)
  {
    hide ReadBlock, GetRange, PostRange;
    ReadBlockCommand(n);
    ReadBlockShape(n);
    ReadBlockAccepted(n);
  }

  lemma ReadBlockPrepared(n: nat)
    requires n < 8
    ensures Transferring(SMALL, ReadBlock(n)) && Prepared(SMALL, ReadBlock(n)) == Request(Read, n, 1, true)
  {
    hide ReadBlock, GetRange;
    ReadBlockCommand(n);
    ReadBlockShape(n);
  }

  lemma Issues(s: State, k: Srb, n: nat, data: Data)
    requires n < 8 && k in s.xfers && s.xfers[k] == ReadBlock(n) && |data| == 16
    ensures Transferring(SMALL, s.xfers[k]) && Issue(SMALL, s, k, data) == Held(k, Request(Read, n, 1, true), data, false)
  {
    ReadBlockPrepared(n);
    ReadBlockCommand(n);
    hide ReadBlock, Prepared, Transferring;
  }

  ghost predicate Goes(s: State, a: Action, s': State) {
    Enabled(SMALL, s, a) && Step(SMALL, s, a) == s'
  }

  function Blank(): (data: Data) ensures |data| == 16 { seq(16, _ => 0) }

  function Block1(): (data: Data)
    ensures |data| == 16 && data == Numbered()[16..32]
  {
    Numbered()[16..32]
  }

  // A queue after `done`, with the one SRB at address 7 pending or processing.
  function Pends(done: seq<Completion<Srb>>): Queue<Srb> { Queue(false, true, [7], [], done) }
  function Runs(done: seq<Completion<Srb>>): Queue<Srb> { Queue(false, true, [], [7], done) }
  function Idle(done: seq<Completion<Srb>>): Queue<Srb> { Queue(false, true, [], [], done) }

  function Asked(n: nat): Held { Held(7, Request(Read, n, 1, true), Blank(), false) }
  function Late(): Held { Held(7, Request(Read, 1, 1, true), Block1(), true) }

  const ABORTED: seq<Completion<Srb>> := [Completion(7, Aborted)]

  lemma Posts(s: State, n: nat)
    requires n < 8 && !s.q.stopped && s.q.pending == [] && s.q.process == []
    ensures Goes(s, PostSrb(7, ReadBlock(n), 16), s.(q := Pends(s.q.done), xfers := s.xfers[7 := ReadBlock(n)]))
  {
    hide Posted, ReadBlock;
    ReadBlockPosted(n);
  }

  lemma Starts(done: seq<Completion<Srb>>, n: nat, held: map<nat, Held>, issued: nat)
    requires n < 8
    ensures Goes(State(Pends(done), Numbered(), map[7 := ReadBlock(n)], held, issued), StartSrb(Blank()),
                 State(Runs(done), Numbered(), map[7 := ReadBlock(n)], held[issued := Asked(n)], issued + 1))
  {
    var s := State(Pends(done), Numbered(), map[7 := ReadBlock(n)], held, issued);
    Issues(s, 7, n, Blank());
    hide Transferring, Issue, ReadBlock, Numbered, Blank;
  }

  lemma DeviceReads(x: Xfer)
    requires Transferring(SMALL, x)
    ensures var v := Sys(Numbered(), x, Issued(Request(Read, 1, 1, true), Blank()));
      CanHappen(SMALL, v, DoExecute) && Execute(SMALL, v) == v.(phase := Executed(Request(Read, 1, 1, true), Block1()))
  {
    hide Transferring, Numbered, Blank, Block1;
    assert Numbered()[16..32] + Blank()[16..] == Block1();
  }

  lemma Executes(s: State)
    requires 0 in s.held && s.held[0] == Asked(1) && s.disk == Numbered() && 7 in s.xfers && Transferring(SMALL, s.xfers[7])
    ensures Goes(s, ExecuteRequest(0), s.(held := s.held[0 := Late()]))
  {
    hide Transferring, Numbered, Blank, Block1, Execute, CanHappen;
    DeviceReads(s.xfers[7]);
  }

  lemma CancelsA()
    ensures Goes(State(Runs([]), Numbered(), map[7 := ReadBlock(1)], map[0 := Late()], 1), CancelSrb(7),
                 State(Idle(ABORTED), Numbered(), map[7 := ReadBlock(1)], map[0 := Late()], 1))
  {
    hide ReadBlock, Numbered;
    assert Sequences.Without([7], 7) == [];
  }

  // The state in which both requests are held, and the one after A's answer.
  function Both(): State {
    State(Runs(ABORTED), Numbered(), map[7 := ReadBlock(2)], map[0 := Late(), 1 := Asked(2)], 2)
  }

  lemma AnswersA()
    ensures Goes(Both(), Respond(0, true), Step(SMALL, Both(), Respond(0, true)))
    ensures var s := Step(SMALL, Both(), Respond(0, true));
      s.q.done == ABORTED + [Completion(7, Success)] && 7 in s.xfers && s.xfers[7].buffer == Block1()
  {
  }

  ghost function Last(): State {
    AnswersA();
    Step(SMALL, Both(), Respond(0, true))
  }

  ghost function Scene(): (run: seq<State>)
    ensures |run| == 8
  {
    var a, b := map[7 := ReadBlock(1)], map[7 := ReadBlock(2)];
    [Init(Numbered()),
     State(Pends([]), Numbered(), a, map[], 0),
     State(Runs([]), Numbered(), a, map[0 := Asked(1)], 1),
     State(Runs([]), Numbered(), a, map[0 := Late()], 1),
     State(Idle(ABORTED), Numbered(), a, map[0 := Late()], 1),
     State(Pends(ABORTED), Numbered(), b, map[0 := Late()], 1),
     Both(),
     Last()]
  }

  function Script(): (acts: seq<Action>)
    ensures |acts| == 7
  {
    [PostSrb(7, ReadBlock(1), 16), StartSrb(Blank()), ExecuteRequest(0), CancelSrb(7),
     PostSrb(7, ReadBlock(2), 16), StartSrb(Blank()), Respond(0, true)]
  }

  lemma SceneGoes(i: nat)
    requires i < 7
    ensures Goes(Scene()[i], Script()[i], Scene()[i + 1])
  {
    hide Goes, ReadBlock, Numbered, Late, Asked, Blank, Transferring;
    if i == 0 {
      Posts(Scene()[0], 1);
      assert map[][7 := ReadBlock(1)] == map[7 := ReadBlock(1)];
    } else if i == 1 {
      Starts([], 1, map[], 0);
      assert map[][0 := Asked(1)] == map[0 := Asked(1)];
    } else if i == 2 {
      ReadBlockPrepared(1);
      Executes(Scene()[2]);
      assert map[0 := Asked(1)][0 := Late()] == map[0 := Late()];
    } else if i == 3 {
      CancelsA();
    } else if i == 4 {
      Posts(Scene()[4], 2);
      assert map[7 := ReadBlock(1)][7 := ReadBlock(2)] == map[7 := ReadBlock(2)];
    } else if i == 5 {
      Starts(ABORTED, 2, map[0 := Late()], 1);
      assert map[0 := Late()][1 := Asked(2)] == map[0 := Late(), 1 := Asked(2)];
    } else {
      AnswersA();
    }
  }

  lemma SceneSteps()
    ensures Steps(SMALL, Scene(), Script())
  {
    hide Scene, Script, Enabled, Step;
    var run, acts := Scene(), Script();
    forall i | 0 <= i < |acts| ensures Enabled(SMALL, run[i], acts[i]) && run[i + 1] == Step(SMALL, run[i], acts[i]) {
      SceneGoes(i);
    }
  }

  lemma SceneSucceeds()
    ensures Succeeds(SMALL, Scene(), Script(), 4, 6, 7, ReadBlock(2), 16)
  {
    SceneSteps();
    ReadBlockPosted(2);
    AnswersA();
    InitInv(SMALL, Numbered());
    hide Enabled, Step, ReadBlock, Numbered, Blank, Inv, Transferring, Posted, Steps, Late, Asked;
  }

  lemma SceneUndisturbed()
    ensures Steps(SMALL, Scene(), Script()) && Undisturbed(SMALL, Scene(), Script(), 5, 6, 7, Start(SMALL, ReadBlock(2)), 16)
  {
    SceneSteps();
    ReadBlockPosted(2);
    assert Script()[5] == StartSrb(Blank());
    hide Enabled, Step, ReadBlock, Numbered, Blank, Inv, Transferring, Posted, Scene, Script;
  }

  // A reads block 1 and is cancelled while the device is at it; B, at the same address, asks for
  // block 2. A's answer comes in: B succeeds, with block 1, though nobody has written anything.
  lemma ReadOfAnothersBlock()
    ensures Succeeds(SMALL, Scene(), Script(), 4, 6, 7, ReadBlock(2), 16) && IsRead(ReadBlock(2).cdb[0])
    ensures Undisturbed(SMALL, Scene(), Script(), 5, 6, 7, Start(SMALL, ReadBlock(2)), 16)
    ensures Start(SMALL, ReadBlock(2)) == 32 && Scene()[4].disk == Numbered() && 7 in Scene()[7].xfers
    ensures Scene()[7].xfers[7].buffer == Numbered()[16..32] != Numbered()[32..48]
  {
    SceneSucceeds();
    SceneUndisturbed();
    ReadBlockPosted(2);
    AnswersA();
    hide Enabled, Step, ReadBlock, Numbered, Blank, Inv, Transferring, Posted, Steps, Succeeds, Undisturbed, Late, Asked;
    assert Numbered()[16..32][0] == 1 && Numbered()[32..48][0] == 2;
  }
}
