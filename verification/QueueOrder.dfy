/**
 The order in which a queue hands out SRBs, over all runs of its operations (src/sys/ioq.c):
 first come first served, except that an SRB with a further chunk goes to the front.
 */
module QueueOrder {
  import opened IoqSpec
  import opened Sequences

  datatype Op<S> =
    | Post(srb: S)
    | Cancel(srb: S)
    | Reset(stop: bool)
    | TakeToken
    | Start
    | End(srb: S, status: SrbStatus)

  // `posted` is the time of an SRB's last post; `started` says which queued SRBs had a chunk
  // prepared since then.
  datatype State<S(==)> = State(q: Queue<S>, time: nat, posted: map<S, nat>, started: set<S>)

  // The callers' promises, as in `Driver`.
  predicate Enabled<S>(s: State<S>, op: Op<S>) {
    match op
    case Post(x) => !s.q.Holds(x)
    case Cancel(x) => s.q.stopped || s.q.Holds(x)
    case End(x, _) => x in s.q.process
    case _ => true
  }

  function Delivered<S>(s: State<S>): set<S> {
    var r := s.q.Start().1;
    if r.Delivered? then {r.srb} else {}
  }

  function Step<S>(s: State<S>, op: Op<S>): State<S>
    requires Enabled(s, op)
  {
    match op
    case Post(x) =>
      if s.q.stopped then s
      else State(s.q.Post(x), s.time + 1, s.posted[x := s.time], s.started - {x})
    case Cancel(x) => s.(q := s.q.Cancel(x))
    case Reset(stop) => s.(q := s.q.Reset(stop))
    case TakeToken => s.(q := s.q.(token := false))
    case Start => s.(q := s.q.Start().0, started := s.started + Delivered(s))
    case End(x, status) => s.(q := s.q.End(x, status))
  }

  // The first r pending SRBs were started before; the others were not, and wait in the order of
  // their posts.
  ghost predicate Split<S>(s: State<S>, r: nat) {
    && r <= |s.q.pending|
    && (forall i :: 0 <= i < |s.q.pending| ==> (s.q.pending[i] in s.started <==> i < r))
    && (forall i :: 0 <= i < |s.q.pending| ==> s.q.pending[i] in s.posted && s.posted[s.q.pending[i]] < s.time)
    && (forall i, j :: r <= i < j < |s.q.pending| ==> s.posted[s.q.pending[i]] < s.posted[s.q.pending[j]])
  }

  ghost predicate Ordered<S>(s: State<S>) {
    && WellFormed(s.q)
    && Started(s)
    && exists r :: Split(s, r)
  }

  // Processing SRBs were posted and started.
  ghost predicate Started<S>(s: State<S>) {
    forall x :: x in s.q.process ==> x in s.started && x in s.posted && s.posted[x] < s.time
  }

  lemma SplitBack<S>(s: State<S>, s': State<S>, r: nat, x: S)
    requires Split(s, r) && s'.q.pending == s.q.pending + [x] && x !in s.q.pending
    requires s'.posted == s.posted[x := s.time] && s'.time == s.time + 1 && s'.started == s.started - {x}
    ensures Split(s', r)
  {
    var xs := s'.q.pending;
    assert forall i :: 0 <= i < |s.q.pending| ==> xs[i] == s.q.pending[i] && xs[i] in s.q.pending;
  }

  lemma PostStarted<S>(s: State<S>, x: S)
    requires Started(s) && Enabled(s, Post(x))
    ensures Started(Step(s, Post(x)))
  {
  }

  lemma PostOrdered<S>(s: State<S>, x: S)
    requires Ordered(s) && Enabled(s, Post(x))
    ensures Ordered(Step(s, Post(x)))
  {
    hide WellFormed, Accounted, Split, Started;
    AccountIsOne(s.q);
    PostKeeps(s.q, x, Account(s.q));
    PostStarted(s, x);
    if !s.q.stopped {
      var r: nat :| Split(s, r);
      SplitBack(s, Step(s, Post(x)), r, x);
    }
  }

  // Taking one SRB out keeps the rest in order.
  lemma SplitWithout<S>(s: State<S>, s': State<S>, r: nat, k: nat)
    requires Split(s, r) && k < |s.q.pending| && s'.q.pending == s.q.pending[..k] + s.q.pending[k + 1..]
    requires s'.posted == s.posted && s'.time == s.time
    requires forall y :: y in s'.q.pending ==> (y in s'.started <==> y in s.started)
    ensures Split(s', if k < r then r - 1 else r)
  {
    var xs := s'.q.pending;
    assert forall i :: 0 <= i < |xs| ==> xs[i] == s.q.pending[if i < k then i else i + 1];
    forall i | 0 <= i < |xs| ensures xs[i] in s'.started <==> i < if k < r then r - 1 else r {
      assert xs[i] in xs;
    }
  }

  lemma CancelStarted<S>(s: State<S>, x: S)
    requires Started(s) && Enabled(s, Cancel(x))
    ensures Started(Step(s, Cancel(x)))
  {
    hide Without;
    WithoutShrinks(s.q.process, x);
  }

  lemma CancelSplit<S>(s: State<S>, x: S, r: nat) returns (r': nat)
    requires Split(s, r) && Enabled(s, Cancel(x))
    ensures Split(Step(s, Cancel(x)), r')
  {
    hide Split, Without;
    var s' := Step(s, Cancel(x));
    if s.q.stopped || x !in s.q.pending {
      SplitSame(s, s', r);
      r' := r;
    } else {
      var k := WithoutAt(s.q.pending, x);
      SplitWithout(s, s', r, k);
      r' := if k < r then r - 1 else r;
    }
  }

  lemma CancelOrdered<S>(s: State<S>, x: S)
    requires Ordered(s) && Enabled(s, Cancel(x))
    ensures Ordered(Step(s, Cancel(x)))
  {
    hide WellFormed, Accounted, Split, Without, Started, Queue.Cancel;
    AccountIsOne(s.q);
    CancelKeeps(s.q, x, Account(s.q));
    CancelStarted(s, x);
    var r: nat :| Split(s, r);
    var r' := CancelSplit(s, x, r);
  }

  lemma SplitSame<S>(s: State<S>, s': State<S>, r: nat)
    requires Split(s, r) && s'.q.pending == s.q.pending
    requires s'.posted == s.posted && s'.time == s.time && s'.started == s.started
    ensures Split(s', r)
  {
  }

  lemma ResetOrdered<S>(s: State<S>, stop: bool)
    requires Ordered(s)
    ensures Ordered(Step(s, Reset(stop)))
  {
    ResetKeeps(s.q, stop, Account(s.q));
    if !s.q.stopped { assert Split(Step(s, Reset(stop)), 0); }
  }

  lemma TakeTokenOrdered<S>(s: State<S>)
    requires Ordered(s)
    ensures Ordered(Step(s, TakeToken))
  {
    TokenKeeps(s.q, false, Account(s.q));
    var r: nat :| Split(s, r);
    assert Split(Step(s, TakeToken), r);
  }

  lemma StartOrdered<S>(s: State<S>)
    requires Ordered(s)
    ensures Ordered(Step(s, Start))
  {
    StartKeeps(s.q, Account(s.q));
    var s' := Step(s, Start);
    var r: nat :| Split(s, r);
    if s.q.stopped || s.q.pending == [] {
      assert Split(s', r);
    } else {
      HeadIsAlone(s.q);
      SplitWithout(s, s', r, 0);
    }
  }

  lemma SplitFront<S>(s: State<S>, s': State<S>, r: nat, x: S)
    requires Split(s, r) && s'.q.pending == [x] + s.q.pending
    requires s'.posted == s.posted && s'.time == s.time && s'.started == s.started
    requires x in s.started && x in s.posted && s.posted[x] < s.time
    ensures Split(s', r + 1)
  {
    var xs := s'.q.pending;
    assert forall i :: 0 < i < |xs| ==> xs[i] == s.q.pending[i - 1];
  }

  lemma EndOrdered<S>(s: State<S>, x: S, status: SrbStatus)
    requires Ordered(s) && Enabled(s, End(x, status))
    ensures Ordered(Step(s, End(x, status)))
  {
    EndKeeps(s.q, x, status, Account(s.q));
    WithoutShrinks(s.q.process, x);
    var s' := Step(s, End(x, status));
    var r: nat :| Split(s, r);
    if s.q.stopped || status != Pending {
      assert Split(s', r);
    } else {
      SplitFront(s, s', r, x);
    }
  }

  lemma StepOrdered<S>(s: State<S>, op: Op<S>)
    requires Ordered(s) && Enabled(s, op)
    ensures Ordered(Step(s, op))
  {
    hide Ordered, Step;
    match op
    case Post(x) => PostOrdered(s, x);
    case Cancel(x) => CancelOrdered(s, x);
    case Reset(stop) => ResetOrdered(s, stop);
    case TakeToken => TakeTokenOrdered(s);
    case Start => StartOrdered(s);
    case End(x, status) => EndOrdered(s, x, status);
  }

  // ----- Runs -----

  ghost predicate IsRun<S>(run: seq<State<S>>, ops: seq<Op<S>>) {
    && |run| == |ops| + 1 && run[0] == State(Queue(false, false, [], [], []), 0, map[], {})
    && forall i :: 0 <= i < |ops| ==> Enabled(run[i], ops[i]) && run[i + 1] == Step(run[i], ops[i])
  }

  lemma {:induction false} AlwaysOrdered<S>(run: seq<State<S>>, ops: seq<Op<S>>, i: nat)
    requires IsRun(run, ops) && i < |run|
    ensures Ordered(run[i])
  {
    if i == 0 {
      assert Split(run[0], 0);
    } else {
      hide Ordered, Step, Enabled;
      AlwaysOrdered(run, ops, i - 1);
      StepOrdered(run[i - 1], ops[i - 1]);
    }
  }

  // In every run: an SRB is started for the first time only when nothing with a further chunk is
  // waiting, and before everything that was posted after it.
  lemma FirstComeFirstServed<S>(run: seq<State<S>>, ops: seq<Op<S>>, i: nat, x: S, y: S)
    requires IsRun(run, ops) && i < |ops| && ops[i] == Start && x in Delivered(run[i]) && x !in run[i].started
    requires y in run[i].q.pending && y != x
    ensures y !in run[i].started && x in run[i].posted && y in run[i].posted
    ensures run[i].posted[x] < run[i].posted[y]
  {
    AlwaysOrdered(run, ops, i);
    var s := run[i];
    var r: nat :| Split(s, r);
    assert s.q.pending[0] == x;
    var k :| 0 <= k < |s.q.pending| && s.q.pending[k] == y;
  }

  lemma {:induction false} TimeGrows<S>(run: seq<State<S>>, ops: seq<Op<S>>, i: nat, j: nat)
    requires IsRun(run, ops) && i <= j < |run|
    ensures run[i].time <= run[j].time
  {
    if i < j { TimeGrows(run, ops, i, j - 1); }
  }

  // The last time an SRB was accepted.
  lemma {:induction false} WhenPosted<S>(run: seq<State<S>>, ops: seq<Op<S>>, i: nat, x: S) returns (m: nat)
    requires IsRun(run, ops) && i < |run| && x in run[i].posted
    ensures m < i && ops[m] == Post(x) && !run[m].q.stopped && run[m].time == run[i].posted[x]
    ensures forall k :: m < k < i && !run[k].q.stopped ==> ops[k] != Post(x)
  {
    assert run[i - 1 + 1] == Step(run[i - 1], ops[i - 1]);
    if ops[i - 1] == Post(x) && !run[i - 1].q.stopped {
      m := i - 1;
    } else {
      m := WhenPosted(run, ops, i - 1, x);
    }
  }

  // So when x is started for the first time since its last post, that post came before the last
  // post of everything else that waits.
  lemma PostedBefore<S>(run: seq<State<S>>, ops: seq<Op<S>>, i: nat, x: S, y: S) returns (m: nat, n: nat)
    requires IsRun(run, ops) && i < |ops| && ops[i] == Start && x in Delivered(run[i]) && x !in run[i].started
    requires y in run[i].q.pending && y != x
    ensures m < n < i && ops[m] == Post(x) && ops[n] == Post(y)
    ensures forall k :: m < k < i && !run[k].q.stopped ==> ops[k] != Post(x)
    ensures forall k :: n < k < i && !run[k].q.stopped ==> ops[k] != Post(y)
  {
    hide Step, Enabled, Delivered;
    FirstComeFirstServed(run, ops, i, x, y);
    m := WhenPosted(run, ops, i, x);
    n := WhenPosted(run, ops, i, y);
    if n <= m { TimeGrows(run, ops, n, m); }
  }

  // The operations that may come between a repost and the next start: waits, posts, the ends of
  // other SRBs without a further chunk, and cancels of others.
  predicate Between<S(==)>(op: Op<S>, x: S) {
    match op
    case Post(_) => true
    case TakeToken => true
    case Cancel(y) => y != x
    case End(_, status) => status != Pending
    case Reset(_) => false
    case Start => false
  }

  ghost predicate AtHead<S>(s: State<S>, x: S) {
    !s.q.stopped && s.q.pending != [] && s.q.pending[0] == x
  }

  lemma HeadStays<S>(s: State<S>, op: Op<S>, x: S)
    requires Enabled(s, op) && AtHead(s, x) && Between(op, x)
    ensures AtHead(Step(s, op), x)
  {
  }

  lemma {:induction false} HeadStaysUntil<S>(run: seq<State<S>>, ops: seq<Op<S>>, x: S, i: nat, j: nat)
    requires IsRun(run, ops) && i <= j < |run| && AtHead(run[i], x)
    requires forall k :: i <= k < j ==> Between(ops[k], x)
    ensures AtHead(run[j], x)
  {
    hide AtHead, Between, Enabled, Step;
    if i < j {
      HeadStaysUntil(run, ops, x, i, j - 1);
      HeadStays(run[j - 1], ops[j - 1], x);
    }
  }

  lemma EndReposts<S>(s: State<S>, x: S)
    requires Ordered(s) && Enabled(s, End(x, Pending))
    ensures AtHead(Step(s, End(x, Pending)), x)
  {
  }

  // An SRB with a further chunk is the next one to be started, whichever waits, posts, ends and
  // cancels of others come in between; only a reset, its own cancel or another repost in between
  // can change that.
  lemma RepostedIsNext<S>(run: seq<State<S>>, ops: seq<Op<S>>, i: nat, j: nat, x: S)
    requires IsRun(run, ops) && i < j < |ops| && ops[i] == End(x, Pending) && ops[j] == Start
    requires forall k :: i < k < j ==> Between(ops[k], x)
    ensures Delivered(run[j]) == {x}
  {
    AlwaysOrdered(run, ops, i);
    EndReposts(run[i], x);
    HeadStaysUntil(run, ops, x, i + 1, j);
  }
}
