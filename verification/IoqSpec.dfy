/**
 The I/O queue as a value (src/sys/ioq.c).

 Each operation of the queue runs under one spinlock, so its effect is one function from the
 queue to the queue. `Ioq.dfy` proves that the imperative code computes these functions;
 `Driver.dfy` interleaves them.
 */
module IoqSpec {
  import opened Sequences
  import opened Wrappers

  // The SRB status a completion callback returns or StorPort is notified with.
  datatype SrbStatus = Pending | Success | Aborted | Error

  // One RequestComplete notification.
  datatype Completion<S> = Completion(srb: S, status: SrbStatus)

  // STATUS_SUCCESS (with the SRB now processing), STATUS_UNSUCCESSFUL and STATUS_CANCELLED.
  datatype StartOutcome<S> = Delivered(srb: S) | Unsuccessful | Cancelled

  function Aborts<S>(xs: seq<S>): (r: seq<Completion<S>>)
    ensures |r| == |xs| && forall i :: 0 <= i < |xs| ==> r[i] == Completion(xs[i], Aborted)
  {
    seq(|xs|, i requires 0 <= i < |xs| => Completion(xs[i], Aborted))
  }

  // The SRBs of a completion log, in order.
  function Srbs<S>(done: seq<Completion<S>>): (r: seq<S>)
    ensures |r| == |done| && forall i :: 0 <= i < |done| ==> r[i] == done[i].srb
  {
    seq(|done|, i requires 0 <= i < |done| => done[i].srb)
  }

  /** `token` is the one-entry event queue; `done` is the log of completion notifications. */
  datatype Queue<S(==)> = Queue(
    stopped: bool,
    token: bool,
    pending: seq<S>,
    process: seq<S>,
    done: seq<Completion<S>>)
  {
    predicate Holds(s: S) { s in pending || s in process }

    function Post(s: S): Queue<S> {
      if stopped then this else this.(pending := pending + [s], token := true)
    }

    // RemoveEntryList unlinks the SRB from whichever list it is on.
    function Cancel(s: S): Queue<S> {
      if stopped then this
      else this.(
        pending := if s in pending then Without(pending, s) else pending,
        process := if s in pending then process else Without(process, s),
        done := done + [Completion(s, Aborted)])
    }

    function Reset(stop: bool): Queue<S> {
      if stopped then this
      else Queue(stop, token || stop, [], [], done + Aborts(pending) + Aborts(process))
    }

    // The locked section of SpdIoqStartProcessingSrb, entered after the token was consumed.
    function Start(): (Queue<S>, StartOutcome<S>) {
      if stopped then (this.(token := true), Cancelled)
      else if pending == [] then (this, Unsuccessful)
      else
        (this.(pending := pending[1..], process := process + [pending[0]],
               token := token || pending[1..] != []),
         Delivered(pending[0]))
    }

    // SpdIoqEndProcessingSrb for an SRB that the hash index found, Complete having said `status`.
    function End(s: S, status: SrbStatus): Queue<S> {
      if stopped then this
      else if status == Pending then
        this.(pending := [s] + pending, process := Without(process, s), token := true)
      else
        this.(process := Without(process, s), done := done + [Completion(s, status)])
    }
  }

  // No SRB is queued twice, and a stopped queue is empty.
  ghost predicate WellFormed<S>(q: Queue<S>) {
    && (forall s :: s in q.pending + q.process ==> multiset(q.pending + q.process)[s] == 1)
    && (q.stopped ==> q.pending == [] && q.process == [])
  }

  // Every accepted SRB is pending, processing or completed, with multiplicity.
  ghost predicate Accounted<S>(q: Queue<S>, posted: multiset<S>) {
    posted == multiset(q.pending) + multiset(q.process) + multiset(Srbs(q.done))
  }

  // What must have been posted to a queue.
  function Account<S>(q: Queue<S>): multiset<S> {
    multiset(q.pending) + multiset(q.process) + multiset(Srbs(q.done))
  }

  lemma AccountIsOne<S>(q: Queue<S>)
    ensures Accounted(q, Account(q))
  {
  }

  // q' holds no SRB that q did not hold.
  ghost predicate NoNew<S>(q: Queue<S>, q': Queue<S>) {
    forall s :: s in q'.pending + q'.process ==> q.Holds(s)
  }

  lemma SubMultiset<S>(xs: seq<S>, q: Queue<S>)
    requires multiset(xs) <= multiset(q.pending + q.process)
    ensures forall s :: s in xs ==> q.Holds(s)
  {
    forall s | s in xs ensures q.Holds(s) {
      assert s in multiset(xs);
      assert s in multiset(q.pending + q.process);
    }
  }

  lemma SrbsOfAborts<S>(done: seq<Completion<S>>, xs: seq<S>)
    ensures multiset(Srbs(done + Aborts(xs))) == multiset(Srbs(done)) + multiset(xs)
  {
    assert Srbs(done + Aborts(xs)) == Srbs(done) + xs;
  }

  lemma SrbsOfOne<S>(done: seq<Completion<S>>, c: Completion<S>)
    ensures multiset(Srbs(done + [c])) == multiset(Srbs(done)) + multiset{c.srb}
  {
    assert Srbs(done + [c]) == Srbs(done) + [c.srb];
  }

  lemma PostKeeps<S>(q: Queue<S>, s: S, posted: multiset<S>)
    requires WellFormed(q) && Accounted(q, posted) && !q.Holds(s)
    ensures WellFormed(q.Post(s))
    ensures Accounted(q.Post(s), if q.stopped then posted else posted + multiset{s})
  {
    if !q.stopped {
      assert multiset(q.pending + [s] + q.process) == multiset(q.pending + q.process) + multiset{s};
    }
  }

  // Cancelling removes exactly one queued SRB, from whichever list it is on.
  lemma CancelMembers<S>(q: Queue<S>, s: S)
    requires !q.stopped && q.Holds(s)
    ensures multiset(q.Cancel(s).pending + q.Cancel(s).process) == multiset(q.pending + q.process) - multiset{s}
  {
    var q' := q.Cancel(s);
    assert multiset(q.pending + q.process) == multiset(q.pending) + multiset(q.process);
    assert multiset(q'.pending + q'.process) == multiset(q'.pending) + multiset(q'.process);
  }

  // Fewer SRBs keep a queue well formed.
  lemma FewerWellFormed<S>(q: Queue<S>, q': Queue<S>)
    requires WellFormed(q) && !q'.stopped
    requires multiset(q'.pending + q'.process) <= multiset(q.pending + q.process)
    ensures WellFormed(q') && NoNew(q, q')
  {
    SubMultiset(q'.pending + q'.process, q);
    forall s | s in q'.pending + q'.process ensures multiset(q'.pending + q'.process)[s] == 1 {
      assert s in multiset(q'.pending + q'.process);
      assert s in q.pending + q.process;
    }
  }

  lemma TokenKeeps<S>(q: Queue<S>, token: bool, posted: multiset<S>)
    requires WellFormed(q) && Accounted(q, posted)
    ensures WellFormed(q.(token := token)) && Accounted(q.(token := token), posted) && NoNew(q, q.(token := token))
  {
  }

  lemma CancelKeeps<S>(q: Queue<S>, s: S, posted: multiset<S>)
    requires WellFormed(q) && Accounted(q, posted)
    requires q.Holds(s) || q.stopped
    ensures WellFormed(q.Cancel(s)) && Accounted(q.Cancel(s), posted)
    ensures NoNew(q, q.Cancel(s)) && !q.Cancel(s).Holds(s)
  {
    if !q.stopped {
      var q' := q.Cancel(s);
      CancelMembers(q, s);
      FewerWellFormed(q, q');
      assert s !in q'.pending + q'.process by {
        assert s in q.pending + q.process;
        assert s !in multiset(q'.pending + q'.process);
      }
      CancelAccounted(q, s, posted);
    }
  }

  lemma CancelAccounted<S>(q: Queue<S>, s: S, posted: multiset<S>)
    requires Accounted(q, posted) && !q.stopped && q.Holds(s)
    ensures Accounted(q.Cancel(s), posted)
  {
    SrbsOfOne(q.done, Completion(s, Aborted));
  }

  lemma ResetKeeps<S>(q: Queue<S>, stop: bool, posted: multiset<S>)
    requires WellFormed(q) && Accounted(q, posted)
    ensures WellFormed(q.Reset(stop)) && Accounted(q.Reset(stop), posted) && NoNew(q, q.Reset(stop))
  {
    SrbsOfAborts(q.done, q.pending);
    SrbsOfAborts(q.done + Aborts(q.pending), q.process);
  }

  lemma StartKeeps<S>(q: Queue<S>, posted: multiset<S>)
    requires WellFormed(q) && Accounted(q, posted)
    ensures WellFormed(q.Start().0) && Accounted(q.Start().0, posted) && NoNew(q, q.Start().0)
  {
    if !q.stopped && q.pending != [] {
      var q' := q.Start().0;
      assert q.pending == [q.pending[0]] + q.pending[1..];
      assert multiset(q'.pending + q'.process) == multiset(q.pending + q.process);
      SubMultiset(q'.pending + q'.process, q);
    }
  }

  lemma HeadIsAlone<S>(q: Queue<S>)
    requires WellFormed(q) && q.pending != []
    ensures q.pending[0] !in q.pending[1..] && q.pending[0] !in q.process
  {
    var x := q.pending[0];
    assert q.pending + q.process == [x] + (q.pending[1..] + q.process);
    assert x in q.pending + q.process;
    assert multiset(q.pending + q.process)[x] == 1 + multiset(q.pending[1..] + q.process)[x];
    assert x !in q.pending[1..] + q.process;
  }

  lemma EndMembers<S>(q: Queue<S>, s: S, status: SrbStatus)
    requires !q.stopped && s in q.process
    ensures multiset(q.End(s, status).pending + q.End(s, status).process)
         == multiset(q.pending + q.process) - (if status == Pending then multiset{} else multiset{s})
  {
    var q' := q.End(s, status);
    assert multiset(q.pending + q.process) == multiset(q.pending) + multiset(q.process);
    assert multiset(q'.pending + q'.process) == multiset(q'.pending) + multiset(q'.process);
  }

  lemma EndKeeps<S>(q: Queue<S>, s: S, status: SrbStatus, posted: multiset<S>)
    requires WellFormed(q) && Accounted(q, posted)
    requires s in q.process || q.stopped
    ensures WellFormed(q.End(s, status)) && Accounted(q.End(s, status), posted) && NoNew(q, q.End(s, status))
  {
    if !q.stopped {
      EndMembers(q, s, status);
      FewerWellFormed(q, q.End(s, status));
      EndAccounted(q, s, status, posted);
    }
  }

  lemma EndAccounted<S>(q: Queue<S>, s: S, status: SrbStatus, posted: multiset<S>)
    requires Accounted(q, posted) && !q.stopped && s in q.process
    ensures Accounted(q.End(s, status), posted)
  {
    SrbsOfOne(q.done, Completion(s, status));
  }
}
