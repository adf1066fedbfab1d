/**
 The I/O queue of a storage unit (src/sys/ioq.c, src/sys/driver.h): a pending list, a process
 list, a hash index over the process list, and a one-token event.

 Every method is one spinlock section and is proved to compute the function of the same name in
 `IoqSpec`. `X` is the transfer state in the SRB extension that the Prepare and Complete
 callbacks work on (`Transfer.dfy`).
 */
module Ioq {
  import opened HashIndex
  import opened IoqSpec
  import opened HashMix
  import opened Sequences
  import opened Wrappers

  // The SRB extension: `key` is its address, which is also the hint given to user mode, `next`
  // is HashNext, and `value` is what the callbacks use.
  type SrbExtension<X> = Entry<X>

  // SpdHashMixPointer on a 64-bit system: the low 32 bits of the mix.
  function PointerHash(address: Word): nat {
    (Mix64(address as bv64) & 0xffffffff) as nat
  }

  function Elements<S>(xs: seq<S>): set<S> { set x | x in xs }

  lemma WithoutElements<S>(xs: seq<S>, x: S)
    requires multiset(xs)[x] <= 1
    ensures Elements(Without(xs, x)) == Elements(xs) - {x}
  {
    assert x !in Without(xs, x) by { assert x !in multiset(Without(xs, x)); }
    forall y | y in Elements(xs) - {x} ensures y in Without(xs, x) { WithoutOther(xs, x, y); }
    forall y | y in Without(xs, x) ensures y in xs { WithoutOther(xs, x, y); }
  }

  // An SRB on the process list is there once.
  lemma OnceOnProcess<S>(q: Queue<S>, s: S)
    requires WellFormed(q)
    ensures multiset(q.process)[s] <= 1
    ensures s in q.pending ==> s !in q.process
  {
    assert multiset(q.pending + q.process) == multiset(q.pending) + multiset(q.process);
    if s in q.process { assert s in q.pending + q.process; }
  }

  lemma PostElements<S>(q: Queue<S>, s: S)
    ensures !q.stopped ==> Elements(q.Post(s).pending + q.Post(s).process) == Elements(q.pending + q.process) + {s}
  {
  }

  lemma CancelElements<S>(q: Queue<S>, s: S)
    requires WellFormed(q) && !q.stopped && q.Holds(s)
    ensures Elements(q.Cancel(s).process) == Elements(q.process) - {s}
    ensures Elements(q.Cancel(s).pending) <= Elements(q.pending) - {s}
  {
    OnceOnProcess(q, s);
    WithoutElements(q.process, s);
    CancelKeeps(q, s, multiset(q.pending) + multiset(q.process) + multiset(Srbs(q.done)));
    forall x | x in q.Cancel(s).pending ensures x in q.pending {
      if x != s { WithoutOther(q.pending, s, x); }
    }
  }

  lemma StoppedCancel<S>(q: Queue<S>, s: S)
    requires q.stopped
    ensures q.Cancel(s) == q
  {
  }

  lemma NoNewElements<S>(q: Queue<S>, q': Queue<S>)
    requires NoNew(q, q')
    ensures Elements(q'.pending + q'.process) <= Elements(q.pending + q.process)
  {
  }

  lemma EndElements<S>(q: Queue<S>, s: S, status: SrbStatus)
    requires WellFormed(q) && !q.stopped && s in q.process
    ensures Elements(q.End(s, status).process) == Elements(q.process) - {s}
    ensures Elements(q.End(s, status).pending + q.End(s, status).process) <= Elements(q.pending + q.process)
  {
    OnceOnProcess(q, s);
    WithoutElements(q.process, s);
    EndKeeps(q, s, status, multiset(q.pending) + multiset(q.process) + multiset(Srbs(q.done)));
    NoNewElements(q, q.End(s, status));
  }

  lemma StartElements<S>(q: Queue<S>)
    requires WellFormed(q) && !q.stopped && q.pending != []
    ensures q.pending[0] !in q.process
    ensures Elements(q.Start().0.process) == Elements(q.process) + {q.pending[0]}
    ensures Elements(q.Start().0.pending + q.Start().0.process) <= Elements(q.pending + q.process)
  {
    OnceOnProcess(q, q.pending[0]);
    StartKeeps(q, multiset(q.pending) + multiset(q.process) + multiset(Srbs(q.done)));
  }

  class SpdIoq<X> {
    var stopped: bool
    var token: bool
    var pending: seq<SrbExtension<X>>
    var process: seq<SrbExtension<X>>
    var done: seq<Completion<SrbExtension<X>>>  // the RequestComplete notifications, in order
    const index: Index<X>
    ghost var dangling: set<SrbExtension<X>>    // pending SRBs whose HashNext is a leftover

    function Abs(): Queue<SrbExtension<X>>
      reads this
    {
      Queue(stopped, token, pending, process, done)
    }

    // The index holds exactly the SRBs that are processing.
    ghost predicate Valid()
      reads this, index, index.buckets, index.members
    {
      && index.Valid() && index.members == Elements(process)
      && WellFormed(Abs())
      && DistinctKeys(Elements(pending + process))
    }

    // HashNext of a pending SRB is zero unless it is dangling.
    ghost predicate Traced()
      reads this, pending
    {
      forall e :: e in pending ==> (e.next == null <==> e !in dangling)
    }

    // Where an SRB hashes to.
    function BucketOf(e: SrbExtension<X>): nat
      requires index.buckets.Length > 0
    {
      Bucket(index.hash, e.key, index.buckets.Length)
    }

    ghost function Posted(): multiset<SrbExtension<X>>
      reads this
    {
      multiset(pending) + multiset(process) + multiset(Srbs(done))
    }

    constructor (bucketCount: nat)
      requires bucketCount > 0
      ensures Valid() && Abs() == Queue(false, false, [], [], []) && fresh(index) && fresh(index.buckets)
      ensures Traced() && dangling == {} && index.buckets.Length == bucketCount
    {
      dangling := {};
      stopped, token, pending, process, done := false, false, [], [], [];
      index := new Index(PointerHash, bucketCount);
    }

    lemma PendingApart()
      requires Valid()
      ensures forall e :: e in pending ==> e !in index.members
    {
      forall e | e in pending ensures e !in process { OnceOnProcess(Abs(), e); }
    }

    // SpdQeventSetNoLock: at most one token.
    method SetEvent()
      modifies this`token
      ensures token
    {
      if !token { token := true; }
    }

    // The RequestComplete notifications of a reset.
    method NotifyAborted(xs: seq<SrbExtension<X>>)
      modifies this`done
      ensures done == old(done) + Aborts(xs)
    {
      for i := 0 to |xs|
        invariant done == old(done) + Aborts(xs)[..i]
      {
        done := done + [Completion(xs[i], Aborted)];
      }
    }

    method Reset(stop: bool)
      requires Valid()
      modifies this, index, index.buckets
      ensures Valid() && Abs() == old(Abs()).Reset(stop)
      ensures dangling == old(dangling) && (old(Traced()) ==> Traced())
    {
      hide Bucket, Hashed, Linked;
      if !stopped {
        ResetKeeps(Abs(), stop, Posted());
        var pendingWas, processWas := pending, process;
        pending, process := [], [];
        index.Clear();
        NotifyAborted(pendingWas);
        NotifyAborted(processWas);
        if stop {
          stopped := true;
          SetEvent();
        }
      }
    }

    // The caller hands over an SRB that is not queued; live extensions have distinct addresses.
    method PostSrb(e: SrbExtension<X>) returns (accepted: bool)
      requires Valid() && e !in pending && e !in process && DistinctKeys(Elements(pending + process) + {e})
      modifies this
      ensures Valid() && Abs() == old(Abs()).Post(e) && accepted == !old(stopped)
      ensures dangling == if accepted then old(dangling) - {e} else old(dangling)
      ensures old(Traced()) && e.next == null ==> Traced()
    {
      hide Bucket, Hashed, Linked, WellFormed, Accounted, DistinctKeys, Index.Valid, Elements;
      accepted := !stopped;
      if !stopped {
        ghost var q := Abs();
        PostKeeps(q, e, Posted());
        PostElements(q, e);
        pending := pending + [e];
        dangling := dangling - {e};
        SetEvent();
        assert Abs() == q.Post(e);
      }
    }

    // The hash bucket search of a cancel: takes e out of the index if it is processing.
    method Unindex(e: SrbExtension<X>)
      requires index.Valid() && DistinctKeys(index.members + {e})
      modifies index, index.buckets, index.members`next, e`next
      ensures index.Valid() && index.members == old(index.members) - {e}
    {
      hide Bucket, Hashed, Linked;
      var found := index.Remove(e.key);
      if found != null { e.next := null; }
    }

    // The list part of a cancel.
    method Unlist(e: SrbExtension<X>)
      requires !stopped && (e in pending || e in process) && WellFormed(Abs())
      modifies this`pending, this`process, this`done
      ensures Abs() == old(Abs()).Cancel(e) && WellFormed(Abs())
      ensures Elements(pending) <= old(Elements(pending)) - {e}
      ensures Elements(process) == old(Elements(process)) - {e}
      ensures Elements(pending + process) <= old(Elements(pending + process))
    {
      hide WellFormed, Accounted, Without, Elements;
      ghost var q := Abs();
      CancelKeeps(q, e, Posted());
      CancelElements(q, e);
      NoNewElements(q, q.Cancel(e));
      if e in pending { pending := Without(pending, e); } else { process := Without(process, e); }
      done := done + [Completion(e, Aborted)];
      assert Abs() == q.Cancel(e);
    }

    method CancelSrb(e: SrbExtension<X>) returns (cancelled: bool)
      requires Valid() && (stopped || e in pending || e in process)
      modifies this, index, index.buckets, index.members`next, e`next
      ensures Valid() && Abs() == old(Abs()).Cancel(e) && cancelled == !old(stopped)
      ensures dangling == old(dangling) && (old(Traced()) ==> Traced())
    {
      hide Bucket, Hashed, Linked, WellFormed, Accounted, Index.Valid, Queue.Cancel;
      cancelled := !stopped;
      if !stopped {
        DistinctSubset(index.members + {e}, Elements(pending + process));
        PendingApart();
        Unindex(e);
        Unlist(e);
        assert forall p :: p in pending ==> p in Elements(pending);
        assert forall p :: p in pending ==> p in old(pending) && p.next == old(p.next);
      } else {
        StoppedCancel(Abs(), e);
      }
    }

    // SpdQeventWait: consumes the token, outside the queue lock.
    method TakeToken() returns (taken: bool)
      requires Valid()
      modifies this`token
      ensures Valid() && taken == old(token) && Abs() == old(Abs()).(token := false)
      ensures old(Traced()) ==> Traced()
    {
      taken := token;
      token := false;
    }

    // The locked section. Prepare reads the extension and fills the request. `zero` is what the
    // debug build asserts before it links the SRB into its bucket: that its HashNext is zero.
    method StartProcessingSrb<R>(prepare: X -> R)
      returns (outcome: StartOutcome<SrbExtension<X>>, request: Option<R>, ghost zero: bool)
      requires Valid()
      modifies this, index, index.buckets, pending`next
      ensures Valid() && (Abs(), outcome) == old(Abs()).Start()
      ensures request == if outcome.Delivered? then Some(prepare(outcome.srb.value)) else None
      ensures dangling == old(dangling) && (old(Traced()) ==> Traced())
      ensures old(Traced()) && outcome.Delivered? ==> (zero <==> outcome.srb !in dangling)
      ensures outcome.Delivered? ==>
        (index.LastInChain(outcome.srb) <==> forall m :: m in old(process) ==> BucketOf(m) != BucketOf(outcome.srb))
    {
      hide Bucket, Hashed, Linked, WellFormed, Accounted, Index.LastInChain;
      request, zero := None, true;
      if stopped {
        TokenKeeps(Abs(), true, Posted());
        SetEvent();
        outcome := Cancelled;
      } else if pending != [] {
        ghost var q := Abs();
        StartKeeps(q, Posted());
        StartElements(q);
        hide Index.Valid;
        var e := pending[0];
        assert index.members + {e} <= Elements(pending + process);
        HeadIsAlone(q);
        pending := pending[1..];
        var wake := pending != [];
        request := Some(prepare(e.value));
        zero := e.next == null;
        process := process + [e];
        index.Insert(e);
        if wake { SetEvent(); }
        outcome := Delivered(e);
        assert Abs() == q.Start().0;
      } else {
        outcome := Unsuccessful;
      }
    }

    // The list part of a completion: repost at the head, or notify.
    method Retire(e: SrbExtension<X>, status: SrbStatus)
      requires !stopped && e in process && WellFormed(Abs())
      modifies this`pending, this`process, this`done, this`token
      ensures Abs() == old(Abs()).End(e, status) && WellFormed(Abs())
      ensures pending == if status == Pending then [e] + old(pending) else old(pending)
      ensures Elements(process) == old(Elements(process)) - {e}
      ensures Elements(pending + process) <= old(Elements(pending + process))
    {
      hide WellFormed, Accounted, Without;
      ghost var q := Abs();
      EndKeeps(q, e, status, Posted());
      EndElements(q, e, status);
      process := Without(process, e);
      if status == Pending {
        pending := [e] + pending;
        SetEvent();
      } else {
        done := done + [Completion(e, status)];
      }
      assert Abs() == q.End(e, status);
    }

    // Acts exactly when the hint is the address of an SRB that is processing.
    method EndProcessingSrb(hint: Word, complete: X -> (X, SrbStatus)) returns (found: Entry?<X>)
      requires Valid()
      modifies this, index, index.buckets, index.members
      ensures Valid()
      ensures found == null <==> old(stopped) || forall e :: e in old(process) ==> e.key != hint
      ensures found == null ==> Abs() == old(Abs())
      ensures found != null ==>
        && found in old(process) && found.key == hint
        && (found.value, Abs()) == (complete(old(found.value)).0, old(Abs()).End(found, complete(old(found.value)).1))
      ensures forall e :: e in old(process) && e != found ==> e.value == old(e.value)
      ensures old(Traced()) ==> Traced()
      ensures dangling ==
        if found == null || complete(old(found.value)).1 != Pending then old(dangling)
        else if old(index.LastInChain(found)) then old(dangling) - {found} else old(dangling) + {found}
    {
      hide Bucket, Hashed, Linked, WellFormed, Accounted, Without, Queue.End;
      found := null;
      if !stopped {
        PendingApart();
        found := index.Remove(hint);
        if found != null {
          var (x, status) := complete(found.value);
          found.value := x;
          Retire(found, status);
          if status == Pending {
            dangling := if found.next == null then dangling - {found} else dangling + {found};
          }
          assert forall e :: e in pending && e != found ==> e in old(pending) && e.next == old(e.next);
        }
      }
    }
  }

  // A chunk's response and the start of the next chunk. The debug assertion of the start holds
  // exactly when the SRB was the last of its bucket as its response came in.
  method RepostAndRestart<X, R>(q: SpdIoq<X>, hint: Word, complete: X -> (X, SrbStatus), prepare: X -> R)
    returns (found: Entry?<X>, ghost zero: bool)
    requires q.Valid() && q.Traced()
    modifies q, q.index, q.index.buckets, q.index.members, q.pending`next
    ensures q.Valid() && q.Traced()
    ensures found == null <==> old(q.stopped) || forall e :: e in old(q.process) ==> e.key != hint
    ensures found != null ==> found in old(q.process) && found.key == hint
    ensures found != null && complete(old(found.value)).1 == Pending ==>
      found in q.process && (zero <==> old(q.index.LastInChain(found)))
  {
    hide WellFormed, Accounted, Index.Valid, Index.LastInChain, DistinctKeys, Without;
    found := q.EndProcessingSrb(hint, complete);
    var taken := q.TakeToken();
    var outcome, request;
    outcome, request, zero := q.StartProcessingSrb(prepare);
  }

  // An SRB that goes straight through to user mode.
  method PostAndStart(q: SpdIoq<nat>, e: SrbExtension<nat>)
    requires q.Valid() && q.Traced() && !q.stopped && q.pending == []
    requires e !in q.process && e.next == null && DistinctKeys(Elements(q.process) + {e})
    modifies q, q.index, q.index.buckets, e`next
    ensures q.Valid() && q.Traced() && !q.stopped && q.pending == [] && q.process == old(q.process) + [e]
    ensures q.index.LastInChain(e) <==> forall m :: m in old(q.process) ==> q.BucketOf(m) != q.BucketOf(e)
  {
    hide WellFormed, Accounted, Index.Valid, DistinctKeys, Index.LastInChain, Bucket;
    assert Elements(q.pending + q.process) == Elements(q.process);
    var accepted := q.PostSrb(e);
    ghost var zero;
    var outcome, request;
    outcome, request, zero := q.StartProcessingSrb(x => x);
  }

  // It fails, for instance, when two SRBs share a bucket and the one started last is reposted.
  method DebugAssertionFails() returns (ghost zero: bool)
    ensures !zero
  {
    hide WellFormed, Accounted, Index.Valid, Index.LastInChain;
    var q := new SpdIoq<nat>(1);
    var a := new Entry(1, 0);
    var b := new Entry(2, 0);
    PostAndStart(q, a);
    PostAndStart(q, b);
    assert q.BucketOf(a) == q.BucketOf(b) && a in q.process[..1] && b in q.process;
    var found;
    found, zero := RepostAndRestart(q, 2, x => (x, Pending), x => x);
  }
}
