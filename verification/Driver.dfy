/**
 Every interleaving of the kernel request path: provision, unprovision, reference, dereference,
 post, cancel, reset, stop, the wait loop and completion (src/sys/stgunit.c, src/sys/ioq.c,
 src/sys/ioctl.c). One action is one spinlock section, or the consumption of the event token,
 which happens outside the queue lock.
 */
module Driver {
  import opened Wrappers
  import opened IoqSpec
  import opened UnitSlots

  type UnitId = nat
  type Tid = nat
  type Srb = nat

  // Where a thread is in SpdIoctlTransact's wait loop.
  datatype Pc = Ready | Waiting | Awake | Recheck

  datatype Ctx =
    | Idle
    | Using(unit: UnitId, pc: Pc)  // between ReferenceByBtl and Dereference
    | Removed(unit: UnitId)        // unprovision: slot cleared, queue not yet stopped
    | Drained(unit: UnitId)        // unprovision: queue stopped, table reference not yet dropped
    | Deleting(unit: UnitId)       // dropped the last reference, about to free

  datatype Unit = Unit(refCount: int, freed: bool, queue: Queue<Srb>, posted: multiset<Srb>)

  // `home` is SrbExtension->StorageUnit.
  datatype State = State(
    slots: Slots,
    units: map<UnitId, Unit>,
    ctx: map<Tid, Ctx>,
    home: map<Srb, UnitId>)

  datatype Action =
    | Provision(unit: UnitId, guid: Guid, owner: Pid, index: nat)
    | RemoveSlot(t: Tid, index: nat, pid: Pid)
    | StopRemoved(t: Tid)
    | DropRemoved(t: Tid)
    | Reference(t: Tid, index: nat)
    | Dereference(t: Tid)
    | Delete(t: Tid)
    | PostSrb(t: Tid, srb: Srb)
    | CancelSrb(t: Tid, srb: Srb)
    | ResetQueue(t: Tid, stop: bool)
    | EndSrb(t: Tid, hint: Srb, status: SrbStatus)
    | BeginWait(t: Tid)
    | Consume(t: Tid)
    | AbortWait(t: Tid)
    | Lock(t: Tid)
    | RecheckStopped(t: Tid)

  function At(s: State, t: Tid): Ctx {
    if t in s.ctx then s.ctx[t] else Idle
  }

  predicate Owns(c: Ctx, u: UnitId) {
    (c.Using? || c.Removed? || c.Drained?) && c.unit == u
  }

  function Holders(s: State, u: UnitId): set<Tid> {
    set t | t in s.ctx && Owns(s.ctx[t], u)
  }

  ghost predicate InTable(s: State, u: UnitId) {
    exists i :: 0 <= i < |s.slots| && s.slots[i].Some? && s.slots[i].value.unit == u
  }

  ghost predicate SomeThread(s: State, c: Ctx) {
    exists t :: t in s.ctx && s.ctx[t] == c
  }

  const EmptyQueue: Queue<Srb> := Queue(false, false, [], [], [])

  function Init(capacity: nat): State {
    State(seq(capacity, _ => None), map[], map[], map[])
  }

  // What must be true for a thread to take the step. The guards of PostSrb and CancelSrb are
  // StorPort's promises: a posted SRB is not outstanding, a cancelled one is queued here.
  ghost predicate Enabled(s: State, a: Action) {
    match a
    case Provision(u, guid, owner, index) =>
      u !in s.units && !HasGuid(s.slots, guid) && LowestFree(s.slots, index)
    case RemoveSlot(t, index, pid) =>
      At(s, t).Idle? && index < |s.slots| && s.slots[index].Some? && s.slots[index].value.owner == pid &&
      s.slots[index].value.unit in s.units
    case StopRemoved(t) => At(s, t).Removed? && At(s, t).unit in s.units
    case DropRemoved(t) => At(s, t).Drained? && At(s, t).unit in s.units
    case Reference(t, index) =>
      At(s, t).Idle? && index < |s.slots| && s.slots[index].Some? && s.slots[index].value.unit in s.units
    case Dereference(t) => At(s, t).Using? && At(s, t).pc == Ready && At(s, t).unit in s.units
    case Delete(t) => At(s, t).Deleting? && At(s, t).unit in s.units
    case PostSrb(t, srb) =>
      At(s, t).Using? && At(s, t).pc == Ready && At(s, t).unit in s.units &&
      forall u :: u in s.units ==> !s.units[u].queue.Holds(srb)
    case CancelSrb(t, srb) =>
      At(s, t).Using? && At(s, t).pc == Ready && At(s, t).unit in s.units &&
      (s.units[At(s, t).unit].queue.stopped || s.units[At(s, t).unit].queue.Holds(srb))
    case ResetQueue(t, stop) => At(s, t).Using? && At(s, t).pc == Ready && At(s, t).unit in s.units
    case EndSrb(t, hint, status) => At(s, t).Using? && At(s, t).pc == Ready && At(s, t).unit in s.units
    case BeginWait(t) => At(s, t).Using? && At(s, t).pc == Ready
    case Consume(t) => At(s, t).Using? && At(s, t).pc == Waiting && At(s, t).unit in s.units &&
                       s.units[At(s, t).unit].queue.token
    case AbortWait(t) => At(s, t).Using? && At(s, t).pc == Waiting
    case Lock(t) => At(s, t).Using? && At(s, t).pc == Awake && At(s, t).unit in s.units
    case RecheckStopped(t) => At(s, t).Using? && At(s, t).pc == Recheck && At(s, t).unit in s.units
  }

  function SetCtx(s: State, t: Tid, c: Ctx): State {
    s.(ctx := s.ctx[t := c])
  }

  function SetQueue(s: State, u: UnitId, q: Queue<Srb>): State
    requires u in s.units
  {
    s.(units := s.units[u := s.units[u].(queue := q)])
  }

  // SpdStorageUnitDereference: the thread that brings the count to zero goes on to delete.
  function Drop(s: State, t: Tid, u: UnitId): State
    requires u in s.units
  {
    var n := s.units[u].refCount - 1;
    SetCtx(s.(units := s.units[u := s.units[u].(refCount := n)]), t, if n == 0 then Deleting(u) else Idle)
  }

  // SpdScsiPostSrb: the extension's back pointer, then SpdIoqPostSrb.
  function PostTo(s: State, u: UnitId, srb: Srb): State
    requires u in s.units
  {
    var x := s.units[u];
    s.(units := s.units[u := x.(queue := x.queue.Post(srb),
                                posted := if x.queue.stopped then x.posted else x.posted + multiset{srb})],
       home := s.home[srb := u])
  }

  function AfterStart(u: UnitId, r: StartOutcome<Srb>): Ctx {
    if r.Unsuccessful? then Using(u, Recheck) else Using(u, Ready)
  }

  ghost function Step(s: State, a: Action): State
    requires Enabled(s, a)
  {
    match a
    case Provision(u, guid, owner, index) =>
      s.(slots := s.slots[index := Some(Entry(guid, owner, u))],
         units := s.units[u := Unit(1, false, EmptyQueue, multiset{})])
    case RemoveSlot(t, index, pid) =>
      SetCtx(s.(slots := s.slots[index := None]), t, Removed(s.slots[index].value.unit))
    case StopRemoved(t) =>
      var u := At(s, t).unit;
      SetCtx(SetQueue(s, u, s.units[u].queue.Reset(true)), t, Drained(u))
    case DropRemoved(t) => Drop(s, t, At(s, t).unit)
    case Reference(t, index) =>
      var u := s.slots[index].value.unit;
      SetCtx(s.(units := s.units[u := s.units[u].(refCount := s.units[u].refCount + 1)]), t, Using(u, Ready))
    case Dereference(t) => Drop(s, t, At(s, t).unit)
    case Delete(t) =>
      var u := At(s, t).unit;
      SetCtx(s.(units := s.units[u := s.units[u].(queue := s.units[u].queue.Reset(false), freed := true)]), t, Idle)
    case PostSrb(t, srb) => PostTo(s, At(s, t).unit, srb)
    case CancelSrb(t, srb) => SetQueue(s, At(s, t).unit, s.units[At(s, t).unit].queue.Cancel(srb))
    case ResetQueue(t, stop) => SetQueue(s, At(s, t).unit, s.units[At(s, t).unit].queue.Reset(stop))
    case EndSrb(t, hint, status) =>
      var q := s.units[At(s, t).unit].queue;
      if hint in q.process then SetQueue(s, At(s, t).unit, q.End(hint, status)) else s
    case BeginWait(t) => SetCtx(s, t, Using(At(s, t).unit, Waiting))
    case Consume(t) =>
      var u := At(s, t).unit;
      SetCtx(SetQueue(s, u, s.units[u].queue.(token := false)), t, Using(u, Awake))
    case AbortWait(t) => SetCtx(s, t, Using(At(s, t).unit, Ready))
    case Lock(t) =>
      var u := At(s, t).unit;
      var (q, r) := s.units[u].queue.Start();
      SetCtx(SetQueue(s, u, q), t, AfterStart(u, r))
    case RecheckStopped(t) =>
      var u := At(s, t).unit;
      SetCtx(s, t, Using(u, if s.units[u].queue.stopped then Ready else Waiting))
  }

  // ----- The invariant -----

  ghost predicate SlotsOk(s: State) {
    && UniqueGuids(s.slots)
    && (forall i :: 0 <= i < |s.slots| && s.slots[i].Some? ==> s.slots[i].value.unit in s.units)
    && (forall i, j :: 0 <= i < j < |s.slots| && s.slots[i].Some? && s.slots[j].Some?
                       ==> s.slots[i].value.unit != s.slots[j].value.unit)
  }

  ghost predicate CtxOk(s: State) {
    forall t :: t in s.ctx && !s.ctx[t].Idle? ==> s.ctx[t].unit in s.units && !s.units[s.ctx[t].unit].freed
  }

  // The reference count is the number of owners: the table and the threads.
  ghost predicate RefsOk(s: State, u: UnitId)
    requires u in s.units
  {
    var x := s.units[u];
    && x.refCount == |Holders(s, u)| + (if InTable(s, u) then 1 else 0)
    && (x.freed ==> x.refCount == 0)
    && (forall t :: t in s.ctx && s.ctx[t] == Deleting(u) ==> x.refCount == 0)
    && (forall t, t' :: t in s.ctx && t' in s.ctx && s.ctx[t] == Deleting(u) && s.ctx[t'] == Deleting(u) ==> t == t')
    && (x.refCount == 0 && !x.freed ==> SomeThread(s, Deleting(u)))
  }

  // A running queue means that the table's reference has not been dropped.
  ghost predicate BaseHeld(s: State, u: UnitId)
    requires u in s.units
  {
    !s.units[u].queue.stopped ==> InTable(s, u) || SomeThread(s, Removed(u))
  }

  ghost predicate WakeOk(s: State, u: UnitId)
    requires u in s.units
  {
    var q := s.units[u].queue;
    q.stopped || q.pending != [] ==> q.token || SomeThread(s, Using(u, Awake))
  }

  ghost predicate QueueOk(s: State, u: UnitId)
    requires u in s.units
  {
    var x := s.units[u];
    && WellFormed(x.queue) && Accounted(x.queue, x.posted)
    && forall srb :: x.queue.Holds(srb) ==> srb in s.home && s.home[srb] == u
  }

  ghost predicate AllRefs(s: State) { forall u :: u in s.units ==> RefsOk(s, u) }
  ghost predicate AllBase(s: State) { forall u :: u in s.units ==> BaseHeld(s, u) }
  ghost predicate AllWake(s: State) { forall u :: u in s.units ==> WakeOk(s, u) }
  ghost predicate AllQueues(s: State) { forall u :: u in s.units ==> QueueOk(s, u) }

  ghost predicate Inv(s: State) {
    SlotsOk(s) && CtxOk(s) && AllRefs(s) && AllBase(s) && AllWake(s) && AllQueues(s)
  }

  // ----- Moving one thread -----

  lemma HoldersAfter(s: State, s': State, t: Tid, u: UnitId)
    requires s'.ctx == s.ctx[t := At(s', t)]
    ensures Holders(s', u) == (if Owns(At(s', t), u) then Holders(s, u) + {t} else Holders(s, u) - {t})
    ensures t in Holders(s, u) <==> Owns(At(s, t), u)
  {
  }

  lemma HoldersCount(s: State, s': State, t: Tid, u: UnitId)
    requires s'.ctx == s.ctx[t := At(s', t)]
    ensures |Holders(s', u)| == |Holders(s, u)|
                                + (if Owns(At(s', t), u) then 1 else 0) - (if Owns(At(s, t), u) then 1 else 0)
  {
    HoldersAfter(s, s', t, u);
  }

  // An owner keeps the count positive.
  lemma OwnerCounts(s: State, t: Tid, u: UnitId)
    requires u in s.units && RefsOk(s, u) && t in s.ctx && Owns(s.ctx[t], u)
    ensures s.units[u].refCount > 0
  {
    assert t in Holders(s, u);
    assert |Holders(s, u)| > 0;
  }

  // A thread that moves within its unit, while only that unit's queue changes.
  ghost predicate QueueMove(s: State, s': State, t: Tid, u: UnitId) {
    && u in s.units && t in s.ctx && Owns(s.ctx[t], u)
    && s'.slots == s.slots
    && s'.units.Keys == s.units.Keys
    && (forall v :: v in s.units && v != u ==> s'.units[v] == s.units[v])
    && s'.units[u].refCount == s.units[u].refCount && s'.units[u].freed == s.units[u].freed
    && t in s'.ctx && Owns(s'.ctx[t], u)
    && s'.ctx == s.ctx[t := s'.ctx[t]]
  }

  lemma OthersKeep(s: State, s': State, t: Tid, c: Ctx)
    requires t in s'.ctx && s'.ctx == s.ctx[t := s'.ctx[t]]
    requires t in s.ctx ==> s.ctx[t] != c
    requires SomeThread(s, c)
    ensures SomeThread(s', c)
  {
    var x :| x in s.ctx && s.ctx[x] == c;
    assert x in s'.ctx && s'.ctx[x] == c;
  }

  lemma QueueMoveRefs(s: State, s': State, t: Tid, u: UnitId)
    requires AllRefs(s) && QueueMove(s, s', t, u)
    ensures AllRefs(s')
  {
    forall v | v in s'.units ensures RefsOk(s', v) {
      assert RefsOk(s, v);
      HoldersCount(s, s', t, v);
      assert InTable(s', v) == InTable(s, v);
      if SomeThread(s, Deleting(v)) { OthersKeep(s, s', t, Deleting(v)); }
    }
  }

  lemma QueueMoveBase(s: State, s': State, t: Tid, u: UnitId)
    requires QueueMove(s, s', t, u) && AllBase(s)
    requires s'.units[u].queue.stopped || (!s.units[u].queue.stopped && (s.ctx[t].Removed? ==> s'.ctx[t] == s.ctx[t]))
    ensures AllBase(s')
  {
    forall v | v in s'.units ensures BaseHeld(s', v) {
      assert BaseHeld(s, v);
      assert InTable(s', v) == InTable(s, v);
      if !s'.units[v].queue.stopped && !InTable(s', v) {
        assert SomeThread(s, Removed(v));
        if s.ctx[t] == Removed(v) {
          assert s'.ctx[t] == Removed(v);
        } else {
          OthersKeep(s, s', t, Removed(v));
        }
      }
    }
  }

  lemma QueueMoveWake(s: State, s': State, t: Tid, u: UnitId)
    requires QueueMove(s, s', t, u) && AllWake(s) && WakeOk(s', u)
    ensures AllWake(s')
  {
    forall v | v in s'.units ensures WakeOk(s', v) {
      if v != u {
        assert WakeOk(s, v);
        if SomeThread(s, Using(v, Awake)) { OthersKeep(s, s', t, Using(v, Awake)); }
      }
    }
  }

  lemma QueueMoveShape(s: State, s': State, t: Tid, u: UnitId)
    requires SlotsOk(s) && CtxOk(s) && QueueMove(s, s', t, u)
    ensures SlotsOk(s') && CtxOk(s')
  {
  }

  lemma QueueMoveKeeps(s: State, s': State, t: Tid, u: UnitId)
    requires Inv(s) && QueueMove(s, s', t, u)
    requires s'.units[u].queue.stopped || (!s.units[u].queue.stopped && (s.ctx[t].Removed? ==> s'.ctx[t] == s.ctx[t]))
    requires WakeOk(s', u) && AllQueues(s')
    ensures Inv(s')
  {
    hide RefsOk, BaseHeld, WakeOk, QueueOk, SlotsOk, AllRefs, AllBase, AllWake, AllQueues, CtxOk;
    QueueMoveShape(s, s', t, u);
    QueueMoveRefs(s, s', t, u);
    QueueMoveBase(s, s', t, u);
    QueueMoveWake(s, s', t, u);
  }

  // ----- Steps inside one unit -----

  lemma QueuesAfter(s: State, s': State, u: UnitId)
    requires AllQueues(s) && u in s.units && s'.units.Keys == s.units.Keys && s'.home == s.home
    requires forall v :: v in s.units && v != u ==> s'.units[v] == s.units[v]
    requires QueueOk(s', u)
    ensures AllQueues(s')
  {
    forall v | v in s'.units ensures QueueOk(s', v) {
      assert v != u ==> QueueOk(s, v);
    }
  }

  lemma MembersKeepHome(s: State, u: UnitId, q: Queue<Srb>)
    requires u in s.units && QueueOk(s, u)
    requires NoNew(s.units[u].queue, q)
    requires WellFormed(q) && Accounted(q, s.units[u].posted)
    ensures QueueOk(SetQueue(s, u, q), u)
  {
    forall srb | q.Holds(srb) ensures s.units[u].queue.Holds(srb) {
      assert srb in q.pending + q.process;
    }
  }

  lemma StopRemovedKeeps(s: State, t: Tid)
    requires Inv(s) && Enabled(s, StopRemoved(t))
    ensures Inv(Step(s, StopRemoved(t)))
  {
    hide RefsOk, BaseHeld, SlotsOk, AllRefs, AllBase, WellFormed, Accounted;
    var u := s.ctx[t].unit;
    var s' := Step(s, StopRemoved(t));
    var q := s.units[u].queue;
    ResetKeeps(q, true, s.units[u].posted);
    MembersKeepHome(s, u, q.Reset(true));
    QueuesAfter(s, s', u);
    assert WakeOk(s, u);
    if q.stopped && SomeThread(s, Using(u, Awake)) { OthersKeep(s, s', t, Using(u, Awake)); }
    QueueMoveKeeps(s, s', t, u);
  }

  // Steps that only replace the queue of the thread's unit.
  lemma SetQueueKeeps(s: State, t: Tid, q: Queue<Srb>)
    requires Inv(s) && At(s, t).Using?
    requires var x := s.units[At(s, t).unit];
      && WellFormed(q) && Accounted(q, x.posted)
      && (x.queue.stopped ==> q.stopped)
      && NoNew(x.queue, q)
      && (q.stopped || q.pending != [] ==> q.token || x.queue.stopped || x.queue.pending != [])
      && (x.queue.token ==> q.token)
    ensures Inv(SetQueue(s, At(s, t).unit, q))
  {
    hide RefsOk, BaseHeld, SlotsOk, AllRefs, AllBase, WellFormed, Accounted;
    var u := s.ctx[t].unit;
    var s' := SetQueue(s, u, q);
    assert s.ctx == s.ctx[t := s.ctx[t]];
    MembersKeepHome(s, u, q);
    QueuesAfter(s, s', u);
    assert WakeOk(s, u);
    QueueMoveKeeps(s, s', t, u);
  }

  lemma CancelSrbKeeps(s: State, t: Tid, srb: Srb)
    requires Inv(s) && Enabled(s, CancelSrb(t, srb))
    ensures Inv(Step(s, CancelSrb(t, srb)))
  {
    var x := s.units[s.ctx[t].unit];
    assert QueueOk(s, s.ctx[t].unit);
    CancelKeeps(x.queue, srb, x.posted);
    SetQueueKeeps(s, t, x.queue.Cancel(srb));
  }

  lemma ResetQueueKeeps(s: State, t: Tid, stop: bool)
    requires Inv(s) && Enabled(s, ResetQueue(t, stop))
    ensures Inv(Step(s, ResetQueue(t, stop)))
  {
    var x := s.units[s.ctx[t].unit];
    assert QueueOk(s, s.ctx[t].unit);
    ResetKeeps(x.queue, stop, x.posted);
    SetQueueKeeps(s, t, x.queue.Reset(stop));
  }

  lemma EndSrbKeeps(s: State, t: Tid, hint: Srb, status: SrbStatus)
    requires Inv(s) && Enabled(s, EndSrb(t, hint, status))
    ensures Inv(Step(s, EndSrb(t, hint, status)))
  {
    var x := s.units[s.ctx[t].unit];
    if hint in x.queue.process {
      assert QueueOk(s, s.ctx[t].unit);
      EndKeeps(x.queue, hint, status, x.posted);
      SetQueueKeeps(s, t, x.queue.End(hint, status));
    }
  }

  lemma PostToMembers(s: State, u: UnitId, srb: Srb)
    requires u in s.units && QueueOk(s, u)
    ensures forall y :: PostTo(s, u, srb).units[u].queue.Holds(y)
                        ==> y in PostTo(s, u, srb).home && PostTo(s, u, srb).home[y] == u
  {
    hide WellFormed, Accounted;
  }

  lemma PostToOwn(s: State, u: UnitId, srb: Srb)
    requires u in s.units && QueueOk(s, u) && !s.units[u].queue.Holds(srb)
    ensures QueueOk(PostTo(s, u, srb), u)
  {
    hide WellFormed, Accounted;
    PostToMembers(s, u, srb);
    PostKeeps(s.units[u].queue, srb, s.units[u].posted);
  }

  lemma PostToOther(s: State, u: UnitId, srb: Srb, v: UnitId)
    requires u in s.units && v in s.units && v != u && QueueOk(s, v) && !s.units[v].queue.Holds(srb)
    ensures QueueOk(PostTo(s, u, srb), v)
  {
  }

  lemma PostToQueues(s: State, u: UnitId, srb: Srb)
    requires u in s.units && AllQueues(s)
    requires forall v :: v in s.units ==> !s.units[v].queue.Holds(srb)
    ensures AllQueues(PostTo(s, u, srb))
  {
    hide QueueOk;
    forall v | v in s.units ensures QueueOk(PostTo(s, u, srb), v) {
      assert !s.units[v].queue.Holds(srb);
      if v == u { PostToOwn(s, u, srb); } else { PostToOther(s, u, srb, v); }
    }
  }

  lemma PostSrbMove(s: State, t: Tid, srb: Srb)
    requires CtxOk(s) && AllWake(s) && Enabled(s, PostSrb(t, srb))
    ensures QueueMove(s, Step(s, PostSrb(t, srb)), t, s.ctx[t].unit)
    ensures WakeOk(Step(s, PostSrb(t, srb)), s.ctx[t].unit)
  {
    assert s.ctx == s.ctx[t := s.ctx[t]];
    assert WakeOk(s, s.ctx[t].unit);
  }

  lemma PostSrbKeeps(s: State, t: Tid, srb: Srb)
    requires Inv(s) && Enabled(s, PostSrb(t, srb))
    ensures Inv(Step(s, PostSrb(t, srb)))
  {
    hide RefsOk, BaseHeld, WakeOk, QueueOk, SlotsOk, AllRefs, AllBase, AllWake, AllQueues;
    PostSrbMove(s, t, srb);
    PostToQueues(s, s.ctx[t].unit, srb);
    QueueMoveKeeps(s, Step(s, PostSrb(t, srb)), t, s.ctx[t].unit);
  }

  lemma ConsumeMove(s: State, t: Tid)
    requires CtxOk(s) && AllQueues(s) && Enabled(s, Consume(t))
    ensures QueueMove(s, Step(s, Consume(t)), t, s.ctx[t].unit)
    ensures WakeOk(Step(s, Consume(t)), s.ctx[t].unit)
    ensures AllQueues(Step(s, Consume(t)))
  {
    var u := s.ctx[t].unit;
    var s' := Step(s, Consume(t));
    assert QueueOk(s, u);
    TokenKeeps(s.units[u].queue, false, s.units[u].posted);
    MembersKeepHome(s, u, s.units[u].queue.(token := false));
    QueuesAfter(s, s', u);
    assert s'.ctx[t] == Using(u, Awake);
  }

  lemma ConsumeKeeps(s: State, t: Tid)
    requires Inv(s) && Enabled(s, Consume(t))
    ensures Inv(Step(s, Consume(t)))
  {
    hide RefsOk, BaseHeld, WakeOk, QueueOk, SlotsOk, AllRefs, AllBase, AllWake, AllQueues;
    ConsumeMove(s, t);
    QueueMoveKeeps(s, Step(s, Consume(t)), t, s.ctx[t].unit);
  }

  lemma LockMove(s: State, t: Tid)
    requires CtxOk(s) && Enabled(s, Lock(t))
    ensures QueueMove(s, Step(s, Lock(t)), t, s.ctx[t].unit)
    ensures WakeOk(Step(s, Lock(t)), s.ctx[t].unit)
  {
  }

  lemma LockQueues(s: State, t: Tid)
    requires CtxOk(s) && AllQueues(s) && Enabled(s, Lock(t))
    ensures AllQueues(Step(s, Lock(t)))
  {
    hide WellFormed, Accounted;
    var u := s.ctx[t].unit;
    var x := s.units[u];
    var (q, r) := x.queue.Start();
    assert QueueOk(s, u);
    StartKeeps(x.queue, x.posted);
    MembersKeepHome(s, u, q);
    QueuesAfter(s, SetQueue(s, u, q), u);
    assert Step(s, Lock(t)) == SetCtx(SetQueue(s, u, q), t, AfterStart(u, r));
    CtxKeepsQueues(SetQueue(s, u, q), t, AfterStart(u, r));
  }

  lemma CtxKeepsQueues(s: State, t: Tid, c: Ctx)
    requires AllQueues(s)
    ensures AllQueues(SetCtx(s, t, c))
  {
    forall v | v in s.units ensures QueueOk(SetCtx(s, t, c), v) { assert QueueOk(s, v); }
  }

  lemma LockKeeps(s: State, t: Tid)
    requires Inv(s) && Enabled(s, Lock(t))
    ensures Inv(Step(s, Lock(t)))
  {
    hide RefsOk, BaseHeld, WakeOk, QueueOk, SlotsOk, AllRefs, AllBase, AllWake, AllQueues;
    LockMove(s, t);
    LockQueues(s, t);
    QueueMoveKeeps(s, Step(s, Lock(t)), t, s.ctx[t].unit);
  }

  lemma PcMove(s: State, t: Tid, pc: Pc)
    requires CtxOk(s) && AllQueues(s) && AllWake(s) && At(s, t).Using? && At(s, t).pc != Awake
    ensures var s' := SetCtx(s, t, Using(At(s, t).unit, pc));
      QueueMove(s, s', t, s.ctx[t].unit) && WakeOk(s', s.ctx[t].unit) && AllQueues(s')
  {
    var u := s.ctx[t].unit;
    var s' := SetCtx(s, t, Using(u, pc));
    assert QueueOk(s, u) && WakeOk(s, u);
    QueuesAfter(s, s', u);
    if SomeThread(s, Using(u, Awake)) { OthersKeep(s, s', t, Using(u, Awake)); }
  }

  // A thread that is not Awake moves between wait states.
  lemma MovePcKeeps(s: State, t: Tid, pc: Pc)
    requires Inv(s) && At(s, t).Using? && At(s, t).pc != Awake
    ensures Inv(SetCtx(s, t, Using(At(s, t).unit, pc)))
  {
    hide RefsOk, BaseHeld, WakeOk, QueueOk, SlotsOk, AllRefs, AllBase, AllWake, AllQueues;
    PcMove(s, t, pc);
    QueueMoveKeeps(s, SetCtx(s, t, Using(At(s, t).unit, pc)), t, s.ctx[t].unit);
  }

  // ----- Steps that change the table or a reference count -----

  // Units other than u keep their reference invariant when they keep their owners.
  lemma RefsSame(s: State, s': State, t: Tid, v: UnitId)
    requires v in s.units && v in s'.units && s'.units[v] == s.units[v] && RefsOk(s, v)
    requires t in s'.ctx && s'.ctx == s.ctx[t := s'.ctx[t]]
    requires At(s, t).Idle? || At(s, t).unit != v
    requires s'.ctx[t].Idle? || s'.ctx[t].unit != v
    requires InTable(s', v) == InTable(s, v)
    ensures RefsOk(s', v)
  {
    HoldersCount(s, s', t, v);
    if SomeThread(s, Deleting(v)) { OthersKeep(s, s', t, Deleting(v)); }
  }

  lemma BaseSame(s: State, s': State, t: Tid, v: UnitId)
    requires v in s.units && v in s'.units && s'.units[v].queue == s.units[v].queue && BaseHeld(s, v)
    requires t in s'.ctx && s'.ctx == s.ctx[t := s'.ctx[t]]
    requires At(s, t) != Removed(v)
    requires InTable(s, v) ==> InTable(s', v) || SomeThread(s', Removed(v))
    ensures BaseHeld(s', v)
  {
    if SomeThread(s, Removed(v)) { OthersKeep(s, s', t, Removed(v)); }
  }

  lemma WakeSame(s: State, s': State, t: Tid)
    requires AllWake(s) && (forall v :: v in s.units ==> v in s'.units && s'.units[v].queue == s.units[v].queue)
    requires t in s'.ctx && s'.ctx == s.ctx[t := s'.ctx[t]]
    requires At(s, t).Using? ==> At(s, t).pc != Awake
    ensures forall v :: v in s.units ==> WakeOk(s', v)
  {
    forall v | v in s.units ensures WakeOk(s', v) {
      assert WakeOk(s, v);
      if SomeThread(s, Using(v, Awake)) { OthersKeep(s, s', t, Using(v, Awake)); }
    }
  }

  lemma QueuesSame(s: State, s': State)
    requires AllQueues(s) && s'.home == s.home
    requires forall v :: v in s.units ==> v in s'.units && s'.units[v].queue == s.units[v].queue
                                          && s'.units[v].posted == s.units[v].posted
    ensures forall v :: v in s.units ==> QueueOk(s', v)
  {
    forall v | v in s.units ensures QueueOk(s', v) { assert QueueOk(s, v); }
  }

  // A step that leaves every queue alone and moves a thread that is not Awake.
  lemma QueuesUntouched(s: State, s': State, t: Tid)
    requires AllWake(s) && AllQueues(s) && s'.home == s.home
    requires forall v :: v in s'.units ==> v in s.units
    requires forall v :: v in s.units ==> v in s'.units && s'.units[v].queue == s.units[v].queue
                                          && s'.units[v].posted == s.units[v].posted
    requires t in s'.ctx && s'.ctx == s.ctx[t := s'.ctx[t]]
    requires At(s, t).Using? ==> At(s, t).pc != Awake
    ensures AllWake(s') && AllQueues(s')
  {
    WakeSame(s, s', t);
    QueuesSame(s, s');
  }

  // The table before and after one slot changes.
  lemma TableAfter(s: State, s': State, index: nat, e: Option<Entry>, v: UnitId)
    requires index < |s.slots| && s'.slots == s.slots[index := e]
    requires s.slots[index].Some? ==> s.slots[index].value.unit != v
    ensures InTable(s', v) <==> InTable(s, v) || (e.Some? && e.value.unit == v)
  {
    if InTable(s, v) {
      var i :| 0 <= i < |s.slots| && s.slots[i].Some? && s.slots[i].value.unit == v;
      assert s'.slots[i] == s.slots[i];
    }
    if e.Some? && e.value.unit == v { assert s'.slots[index] == e; }
    if InTable(s', v) {
      var i :| 0 <= i < |s'.slots| && s'.slots[i].Some? && s'.slots[i].value.unit == v;
      assert i == index || s.slots[i] == s'.slots[i];
    }
  }

  // After its only slot is cleared a unit is no longer in the table.
  lemma ClearedSlot(s: State, s': State, index: nat)
    requires SlotsOk(s) && index < |s.slots| && s.slots[index].Some? && s'.slots == s.slots[index := None]
    ensures InTable(s, s.slots[index].value.unit) && !InTable(s', s.slots[index].value.unit)
  {
  }

  lemma ProvisionSlots(s: State, a: Action)
    requires SlotsOk(s) && a.Provision? && Enabled(s, a)
    ensures SlotsOk(Step(s, a))
  {
    var s' := Step(s, a);
    PublishUnique(s.slots, a.index, Entry(a.guid, a.owner, a.unit));
    forall i, j | 0 <= i < j < |s'.slots| && s'.slots[i].Some? && s'.slots[j].Some?
      ensures s'.slots[i].value.unit != s'.slots[j].value.unit
    {
      assert i != a.index ==> s'.slots[i] == s.slots[i];
      assert j != a.index ==> s'.slots[j] == s.slots[j];
    }
  }

  lemma ProvisionUnits(s: State, a: Action, v: UnitId)
    requires Inv(s) && a.Provision? && Enabled(s, a) && v in Step(s, a).units
    ensures RefsOk(Step(s, a), v) && BaseHeld(Step(s, a), v)
  {
    var s' := Step(s, a);
    TableAfter(s, s', a.index, Some(Entry(a.guid, a.owner, a.unit)), v);
    assert Holders(s', v) == Holders(s, v);
    assert forall c :: SomeThread(s, c) == SomeThread(s', c);
    if v == a.unit {
      assert Holders(s', v) == {};
    } else {
      assert RefsOk(s, v) && BaseHeld(s, v);
    }
  }

  lemma ProvisionKeeps(s: State, a: Action)
    requires Inv(s) && a.Provision? && Enabled(s, a)
    ensures Inv(Step(s, a))
  {
    var s' := Step(s, a);
    ProvisionSlots(s, a);
    assert CtxOk(s');
    forall v | v in s'.units ensures RefsOk(s', v) && BaseHeld(s', v) { ProvisionUnits(s, a, v); }
    forall v | v in s'.units ensures WakeOk(s', v) && QueueOk(s', v) {
      if v != a.unit {
        assert WakeOk(s, v) && QueueOk(s, v);
        assert SomeThread(s, Using(v, Awake)) == SomeThread(s', Using(v, Awake));
      }
    }
  }

  lemma RemoveSlotUnits(s: State, a: Action, v: UnitId)
    requires Inv(s) && a.RemoveSlot? && Enabled(s, a) && v in s.units
    ensures RefsOk(Step(s, a), v) && BaseHeld(Step(s, a), v)
  {
    var s' := Step(s, a);
    var u := s.slots[a.index].value.unit;
    assert RefsOk(s, v) && BaseHeld(s, v);
    assert s'.ctx[a.t] == Removed(u);
    if v == u {
      ClearedSlot(s, s', a.index);
      HoldersCount(s, s', a.t, v);
    } else {
      TableAfter(s, s', a.index, None, v);
      RefsSame(s, s', a.t, v);
      BaseSame(s, s', a.t, v);
    }
  }

  lemma RemoveSlotKeeps(s: State, a: Action)
    requires Inv(s) && a.RemoveSlot? && Enabled(s, a)
    ensures Inv(Step(s, a))
  {
    hide RefsOk, BaseHeld, WakeOk, QueueOk, AllWake, AllQueues;
    var s' := Step(s, a);
    var u := s.slots[a.index].value.unit;
    InTableNotFreed(s, a.index);
    assert SlotsOk(s') by {
      assert forall i :: 0 <= i < |s'.slots| && s'.slots[i].Some? ==> s'.slots[i] == s.slots[i];
    }
    forall v | v in s'.units ensures RefsOk(s', v) && BaseHeld(s', v) { RemoveSlotUnits(s, a, v); }
    QueuesUntouched(s, s', a.t);
  }

  // A unit in the table has not been freed.
  lemma InTableNotFreed(s: State, index: nat)
    requires SlotsOk(s) && AllRefs(s) && index < |s.slots| && s.slots[index].Some?
    ensures InTable(s, s.slots[index].value.unit) && !s.units[s.slots[index].value.unit].freed
    ensures s.units[s.slots[index].value.unit].refCount > 0
  {
    assert RefsOk(s, s.slots[index].value.unit);
  }

  lemma ReferenceRefs(s: State, a: Action, v: UnitId)
    requires SlotsOk(s) && AllRefs(s) && a.Reference? && Enabled(s, a) && v in s.units
    ensures RefsOk(Step(s, a), v)
  {
    var s' := Step(s, a);
    assert RefsOk(s, v);
    assert InTable(s', v) == InTable(s, v);
    if v == s.slots[a.index].value.unit {
      InTableNotFreed(s, a.index);
      HoldersCount(s, s', a.t, v);
    } else {
      RefsSame(s, s', a.t, v);
    }
  }

  lemma ReferenceAllRefs(s: State, a: Action)
    requires SlotsOk(s) && AllRefs(s) && a.Reference? && Enabled(s, a)
    ensures AllRefs(Step(s, a))
  {
    forall v | v in s.units ensures RefsOk(Step(s, a), v) { ReferenceRefs(s, a, v); }
  }

  lemma ReferenceBase(s: State, a: Action)
    requires AllBase(s) && a.Reference? && Enabled(s, a)
    ensures AllBase(Step(s, a))
  {
    forall v | v in s.units ensures BaseHeld(Step(s, a), v) {
      assert BaseHeld(s, v);
      BaseSame(s, Step(s, a), a.t, v);
    }
  }

  lemma ReferenceShape(s: State, a: Action)
    requires Inv(s) && a.Reference? && Enabled(s, a)
    ensures SlotsOk(Step(s, a)) && CtxOk(Step(s, a))
  {
    InTableNotFreed(s, a.index);
  }

  lemma ReferenceKeeps(s: State, a: Action)
    requires Inv(s) && a.Reference? && Enabled(s, a)
    ensures Inv(Step(s, a))
  {
    hide RefsOk, BaseHeld, WakeOk, QueueOk, SlotsOk, AllRefs, AllBase, AllWake, AllQueues;
    ReferenceShape(s, a);
    ReferenceAllRefs(s, a);
    ReferenceBase(s, a);
    QueuesUntouched(s, Step(s, a), a.t);
  }

  // The thread is about to drop the reference it owns.
  ghost predicate Dropping(s: State, t: Tid) {
    (At(s, t).Drained? || (At(s, t).Using? && At(s, t).pc == Ready)) && At(s, t).unit in s.units
  }

  lemma DropRefs(s: State, t: Tid, v: UnitId)
    requires AllRefs(s) && Dropping(s, t) && v in s.units && !s.units[At(s, t).unit].freed
    ensures RefsOk(Drop(s, t, At(s, t).unit), v)
  {
    var u := At(s, t).unit;
    var s' := Drop(s, t, u);
    assert RefsOk(s, v) && RefsOk(s, u);
    assert InTable(s', v) == InTable(s, v);
    OwnerCounts(s, t, u);
    if v == u {
      HoldersCount(s, s', t, v);
    } else {
      RefsSame(s, s', t, v);
    }
  }

  lemma DropAllRefs(s: State, t: Tid)
    requires AllRefs(s) && Dropping(s, t) && !s.units[At(s, t).unit].freed
    ensures AllRefs(Drop(s, t, At(s, t).unit))
  {
    forall v | v in s.units ensures RefsOk(Drop(s, t, At(s, t).unit), v) { DropRefs(s, t, v); }
  }

  lemma DropBase(s: State, t: Tid)
    requires AllBase(s) && Dropping(s, t)
    ensures AllBase(Drop(s, t, At(s, t).unit))
  {
    forall v | v in s.units ensures BaseHeld(Drop(s, t, At(s, t).unit), v) {
      assert BaseHeld(s, v);
      BaseSame(s, Drop(s, t, At(s, t).unit), t, v);
    }
  }

  lemma DropShape(s: State, t: Tid)
    requires Inv(s) && Dropping(s, t)
    ensures SlotsOk(Drop(s, t, At(s, t).unit)) && CtxOk(Drop(s, t, At(s, t).unit))
  {
  }

  lemma DropKeeps(s: State, t: Tid)
    requires Inv(s) && Dropping(s, t)
    ensures Inv(Drop(s, t, At(s, t).unit))
  {
    hide RefsOk, BaseHeld, WakeOk, QueueOk, SlotsOk, AllRefs, AllBase, AllWake, AllQueues;
    var s' := Drop(s, t, At(s, t).unit);
    DropShape(s, t);
    DropAllRefs(s, t);
    DropBase(s, t);
    QueuesUntouched(s, s', t);
  }

  // A unit about to be freed has no owner left, and its queue was stopped before.
  lemma DeletingIsLast(s: State, t: Tid)
    requires Inv(s) && At(s, t).Deleting?
    ensures var u := At(s, t).unit;
      && u in s.units && !s.units[u].freed && s.units[u].queue.stopped && !InTable(s, u) && Holders(s, u) == {}
  {
    var u := At(s, t).unit;
    assert RefsOk(s, u) && BaseHeld(s, u);
    if SomeThread(s, Removed(u)) {
      var x :| x in s.ctx && s.ctx[x] == Removed(u);
      OwnerCounts(s, x, u);
    }
  }

  lemma DeleteShape(s: State, t: Tid)
    requires Inv(s) && Enabled(s, Delete(t))
    ensures SlotsOk(Step(s, Delete(t))) && CtxOk(Step(s, Delete(t)))
  {
    var u := At(s, t).unit;
    var s' := Step(s, Delete(t));
    DeletingIsLast(s, t);
    assert RefsOk(s, u);
    forall x | x in s'.ctx && !s'.ctx[x].Idle? ensures s'.ctx[x].unit != u {
      assert x in s.ctx && x !in Holders(s, u);
      assert s.ctx[x] != Deleting(u);
    }
  }

  lemma DeleteRefs(s: State, t: Tid, v: UnitId)
    requires v in s.units && RefsOk(s, v) && Enabled(s, Delete(t))
    requires v == At(s, t).unit ==> s.units[v].refCount == 0
    ensures RefsOk(Step(s, Delete(t)), v)
  {
    var s' := Step(s, Delete(t));
    assert InTable(s', v) == InTable(s, v);
    if v == At(s, t).unit {
      HoldersCount(s, s', t, v);
    } else {
      RefsSame(s, s', t, v);
    }
  }

  lemma DeleteUnits(s: State, t: Tid)
    requires AllRefs(s) && AllBase(s) && Enabled(s, Delete(t)) && s.units[At(s, t).unit].queue.stopped
    ensures AllRefs(Step(s, Delete(t))) && AllBase(Step(s, Delete(t)))
  {
    forall v | v in s.units ensures RefsOk(Step(s, Delete(t)), v) && BaseHeld(Step(s, Delete(t)), v) {
      assert RefsOk(s, v) && BaseHeld(s, v);
      hide RefsOk, BaseHeld;
      DeletingCount(s, t, v);
      DeleteRefs(s, t, v);
      assert InTable(Step(s, Delete(t)), v) == InTable(s, v);
      BaseSame(s, Step(s, Delete(t)), t, v);
    }
  }

  lemma DeletingCount(s: State, t: Tid, v: UnitId)
    requires v in s.units && RefsOk(s, v) && At(s, t).Deleting?
    ensures v == At(s, t).unit ==> s.units[v].refCount == 0
  {
    assert t in s.ctx && s.ctx[t] == Deleting(At(s, t).unit);
  }

  lemma DeleteKeeps(s: State, t: Tid)
    requires Inv(s) && Enabled(s, Delete(t))
    ensures Inv(Step(s, Delete(t)))
  {
    hide RefsOk, BaseHeld, WakeOk, QueueOk, SlotsOk, AllRefs, AllBase, AllWake, AllQueues;
    DeletingIsLast(s, t);
    DeleteShape(s, t);
    DeleteUnits(s, t);
    QueuesUntouched(s, Step(s, Delete(t)), t);
  }

  // ----- Every step and every run -----

  lemma StepKeepsInv(s: State, a: Action)
    requires Inv(s) && Enabled(s, a)
    ensures Inv(Step(s, a))
  {
    hide Inv;
    match a
    case Provision(_, _, _, _) => ProvisionKeeps(s, a);
    case RemoveSlot(_, _, _) => RemoveSlotKeeps(s, a);
    case StopRemoved(t) => StopRemovedKeeps(s, t);
    case DropRemoved(t) => DropKeeps(s, t);
    case Reference(_, _) => ReferenceKeeps(s, a);
    case Dereference(t) => DropKeeps(s, t);
    case Delete(t) => DeleteKeeps(s, t);
    case PostSrb(t, srb) => PostSrbKeeps(s, t, srb);
    case CancelSrb(t, srb) => CancelSrbKeeps(s, t, srb);
    case ResetQueue(t, stop) => ResetQueueKeeps(s, t, stop);
    case EndSrb(t, hint, status) => EndSrbKeeps(s, t, hint, status);
    case BeginWait(t) => MovePcKeeps(s, t, Waiting);
    case Consume(t) => ConsumeKeeps(s, t);
    case AbortWait(t) => MovePcKeeps(s, t, Ready);
    case Lock(t) => LockKeeps(s, t);
    case RecheckStopped(t) =>
      MovePcKeeps(s, t, if s.units[At(s, t).unit].queue.stopped then Ready else Waiting);
  }
}
