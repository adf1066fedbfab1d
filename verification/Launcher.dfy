/**
 The lifetime of service instances in the launcher (src/launcher/launcher.c). An instance has two
 owners: the thread that creates it and the callback that runs when its process terminates.
 Reference counts change outside the lock; the list, the event and lookups are under it.
 */
module Launcher {
  import opened Names
  import opened Sequences
  import opened Wrappers

  type Id = nat

  // Registered: allocated, and its termination callback may already run, but not yet listed.
  // Unlinked: taken off the list by the last release, about to be freed.
  datatype Stage = Registered | Listed | Unlinked | Freed

  datatype Instance = Instance(
    className: WString,
    instanceName: WString,
    refCount: int,
    creator: bool,    // the creator has not released it yet
    callback: bool,   // the termination callback has not released it yet
    stage: Stage)

  // Who is in the critical section: a creation, or a user of what a lookup returned.
  datatype Lock = Free | Creating(id: Id) | Using(id: Id)

  datatype State = State(
    instances: map<Id, Instance>,
    list: seq<Id>,      // SvcInstanceList
    event: bool,        // SvcInstanceEvent is signalled
    lock: Lock)

  datatype Action =
    | Create(id: Id, className: WString, instanceName: WString)
    | Publish(id: Id)
    | ReleaseCreator(id: Id)
    | ReleaseCallback(id: Id)
    | Unlink(id: Id)
    | FreeMemory(id: Id)
    | Lookup(id: Id)
    | Unlock

  const Init := State(map[], [], true, Free)

  // What the class name of a lookup by process id folds to: ".PID.".
  const PID_CLASS: seq<wchar> := [0x2E, 0x50, 0x49, 0x44, 0x2E]

  predicate SameName(a: Instance, className: WString, instanceName: WString) {
    Fold(a.className) == Fold(className) && Fold(a.instanceName) == Fold(instanceName)
  }

  // SvcInstanceLookup by name: the first listed instance with these names.
  method LookupByName(names: seq<(WString, WString)>, className: WString, instanceName: WString) returns (found: Option<nat>)
    ensures found.Some? ==>
      && found.value < |names|
      && Fold(names[found.value].0) == Fold(className) && Fold(names[found.value].1) == Fold(instanceName)
    ensures forall k :: 0 <= k < (if found.Some? then found.value else |names|) ==>
      !(Fold(names[k].0) == Fold(className) && Fold(names[k].1) == Fold(instanceName))
  {
    for i := 0 to |names|
      invariant forall k :: 0 <= k < i ==> !(Fold(names[k].0) == Fold(className) && Fold(names[k].1) == Fold(instanceName))
    {
      var c := Compare(className, names[i].0);
      if c == 0 {
        var d := Compare(instanceName, names[i].1);
        if d == 0 { return Some(i); }
      }
    }
    return None;
  }

  ghost predicate NameTaken(s: State, className: WString, instanceName: WString) {
    exists i :: 0 <= i < |s.list| && s.list[i] in s.instances
                && SameName(s.instances[s.list[i]], className, instanceName)
  }

  ghost predicate NoRepeat(list: seq<Id>) {
    forall i, j :: 0 <= i < j < |list| ==> list[i] != list[j]
  }

  lemma {:induction false} WithoutMembers(list: seq<Id>, id: Id, x: Id)
    requires NoRepeat(list)
    ensures x in Without(list, id) <==> x in list && x != id
  {
    if list != [] {
      WithoutMembers(list[1..], id, x);
      assert x in list <==> x == list[0] || x in list[1..];
    }
  }

  lemma {:induction false} WithoutNoRepeat(list: seq<Id>, id: Id)
    requires NoRepeat(list)
    ensures NoRepeat(Without(list, id))
  {
    if list != [] && list[0] != id {
      WithoutNoRepeat(list[1..], id);
      WithoutMembers(list[1..], id, list[0]);
    }
  }

  ghost predicate Enabled(s: State, a: Action) {
    match a
    case Create(id, c, n) => s.lock == Free && id !in s.instances && Fold(c) != PID_CLASS && !NameTaken(s, c, n)
    case Publish(id) => s.lock == Creating(id) && id in s.instances
    case ReleaseCreator(id) => id in s.instances && s.instances[id].creator && s.instances[id].stage != Registered
    case ReleaseCallback(id) => id in s.instances && s.instances[id].callback
    case Unlink(id) => s.lock == Free && id in s.instances && s.instances[id].refCount == 0 && s.instances[id].stage == Listed
    case FreeMemory(id) => id in s.instances && s.instances[id].stage == Unlinked
    case Lookup(id) => s.lock == Free && id in s.list && id in s.instances
    case Unlock => s.lock.Using?
  }

  function Set(s: State, id: Id, x: Instance): State { s.(instances := s.instances[id := x]) }

  ghost function Step(s: State, a: Action): State
    requires Enabled(s, a)
  {
    match a
    case Create(id, c, n) => Set(s, id, Instance(c, n, 2, true, true, Registered)).(lock := Creating(id))
    case Publish(id) =>
      Set(s, id, s.instances[id].(stage := Listed)).(list := s.list + [id], event := false, lock := Free)
    case ReleaseCreator(id) => Set(s, id, s.instances[id].(refCount := s.instances[id].refCount - 1, creator := false))
    case ReleaseCallback(id) => Set(s, id, s.instances[id].(refCount := s.instances[id].refCount - 1, callback := false))
    case Unlink(id) =>
      var rest := Without(s.list, id);
      Set(s, id, s.instances[id].(stage := Unlinked)).(list := rest, event := s.event || rest == [])
    case FreeMemory(id) => Set(s, id, s.instances[id].(stage := Freed))
    case Lookup(id) => s.(lock := Using(id))
    case Unlock => s.(lock := Free)
  }

  // ----- The invariant -----

  ghost predicate CountsOk(s: State) {
    forall id :: id in s.instances ==>
      var x := s.instances[id];
      && x.refCount == (if x.creator then 1 else 0) + (if x.callback then 1 else 0)
      && (x.stage == Registered ==> x.creator && s.lock == Creating(id))
      && (x.stage == Unlinked || x.stage == Freed ==> x.refCount == 0)
      && (x.stage == Listed <==> id in s.list)
  }

  ghost predicate ListOk(s: State) {
    && (forall i :: 0 <= i < |s.list| ==> s.list[i] in s.instances)
    && NoRepeat(s.list)
    && (s.event <==> s.list == [])
  }

  ghost predicate LockOk(s: State) {
    match s.lock
    case Free => true
    case Creating(id) =>
      && id in s.instances && s.instances[id].stage == Registered
      && Fold(s.instances[id].className) != PID_CLASS
      && !NameTaken(s, s.instances[id].className, s.instances[id].instanceName)
    case Using(id) => id in s.instances && s.instances[id].stage == Listed
  }

  // No two listed instances have the same names up to case.
  ghost predicate NamesOk(s: State) {
    forall i, j :: 0 <= i < |s.list| && 0 <= j < |s.list| && i != j && s.list[i] in s.instances && s.list[j] in s.instances ==>
      !SameName(s.instances[s.list[i]], s.instances[s.list[j]].className, s.instances[s.list[j]].instanceName)
  }

  ghost predicate Inv(s: State) { CountsOk(s) && ListOk(s) && LockOk(s) && NamesOk(s) }

  lemma NamesById(s: State, x: Id, y: Id)
    requires NamesOk(s) && x in s.list && y in s.list && x != y && x in s.instances && y in s.instances
    ensures !SameName(s.instances[x], s.instances[y].className, s.instances[y].instanceName)
  {
    var i :| 0 <= i < |s.list| && s.list[i] == x;
    var j :| 0 <= j < |s.list| && s.list[j] == y;
  }

  // s' lists no instance that s does not list, under the same names.
  ghost predicate NoNewNames(s: State, s': State) {
    forall x :: x in s'.list ==>
      && x in s.list && x in s.instances && x in s'.instances
      && s'.instances[x].className == s.instances[x].className
      && s'.instances[x].instanceName == s.instances[x].instanceName
  }

  lemma NamesKept(s: State, s': State)
    requires NamesOk(s) && NoNewNames(s, s') && NoRepeat(s'.list)
    ensures NamesOk(s')
  {
    forall i, j | 0 <= i < |s'.list| && 0 <= j < |s'.list| && i != j
      ensures !SameName(s'.instances[s'.list[i]], s'.instances[s'.list[j]].className, s'.instances[s'.list[j]].instanceName)
    {
      NamesById(s, s'.list[i], s'.list[j]);
    }
  }

  lemma NotTakenKept(s: State, s': State, c: WString, n: WString)
    requires NoNewNames(s, s') && !NameTaken(s, c, n)
    ensures !NameTaken(s', c, n)
  {
    forall i | 0 <= i < |s'.list| ensures !SameName(s'.instances[s'.list[i]], c, n) {
      assert s'.list[i] in s'.list;
      var k :| 0 <= k < |s.list| && s.list[k] == s'.list[i];
    }
  }

  lemma PublishKeeps(s: State, id: Id)
    requires Inv(s) && Enabled(s, Publish(id))
    ensures Inv(Step(s, Publish(id)))
  {
    var s' := Step(s, Publish(id));
    forall i, j | 0 <= i < |s'.list| && 0 <= j < |s'.list| && i != j
      ensures !SameName(s'.instances[s'.list[i]], s'.instances[s'.list[j]].className, s'.instances[s'.list[j]].instanceName)
    {
      if i < |s.list| && j < |s.list| {
        NamesById(s, s.list[i], s.list[j]);
      } else if i < |s.list| {
        assert s'.list[i] == s.list[i];
      } else {
        assert s'.list[j] == s.list[j];
      }
    }
  }

  lemma UnlinkKeeps(s: State, id: Id)
    requires Inv(s) && Enabled(s, Unlink(id))
    ensures Inv(Step(s, Unlink(id)))
  {
    var s' := Step(s, Unlink(id));
    WithoutNoRepeat(s.list, id);
    forall x ensures x in s'.list <==> x in s.list && x != id { WithoutMembers(s.list, id, x); }
    NamesKept(s, s');
  }

  // Steps that leave the list alone.
  lemma SameListKeeps(s: State, a: Action)
    requires Inv(s) && Enabled(s, a) && !a.Publish? && !a.Unlink?
    ensures NamesOk(Step(s, a)) && ListOk(Step(s, a)) && CountsOk(Step(s, a))
  {
    NamesKept(s, Step(s, a));
  }

  lemma SameListLock(s: State, a: Action)
    requires Inv(s) && Enabled(s, a) && !a.Publish? && !a.Unlink?
    ensures LockOk(Step(s, a))
  {
    if a.Create? {
      NotTakenKept(s, Step(s, a), a.className, a.instanceName);
    } else if s.lock.Creating? {
      NotTakenKept(s, Step(s, a), s.instances[s.lock.id].className, s.instances[s.lock.id].instanceName);
    }
  }

  lemma StepKeepsInv(s: State, a: Action)
    requires Inv(s) && Enabled(s, a)
    ensures Inv(Step(s, a))
  {
    if a.Publish? {
      PublishKeeps(s, a.id);
    } else if a.Unlink? {
      UnlinkKeeps(s, a.id);
    } else {
      SameListKeeps(s, a);
      SameListLock(s, a);
    }
  }

  // ----- Runs -----

  ghost predicate Steps(run: seq<State>, acts: seq<Action>) {
    && |run| == |acts| + 1
    && forall i :: 0 <= i < |acts| ==> Enabled(run[i], acts[i]) && run[i + 1] == Step(run[i], acts[i])
  }

  ghost predicate IsRun(run: seq<State>, acts: seq<Action>) {
    Steps(run, acts) && run[0] == Init
  }

  lemma {:induction false} LauncherInvariant(run: seq<State>, acts: seq<Action>, i: nat)
    requires IsRun(run, acts) && i < |run|
    ensures Inv(run[i])
  {
    if i > 0 {
      LauncherInvariant(run, acts, i - 1);
      hide Inv, Step, Enabled;
      StepKeepsInv(run[i - 1], acts[i - 1]);
    }
  }

  // The event is signalled exactly when the list is empty.
  lemma EventMirrorsEmptiness(run: seq<State>, acts: seq<Action>, i: nat)
    requires IsRun(run, acts) && i < |run|
    ensures run[i].event <==> run[i].list == []
  {
    LauncherInvariant(run, acts, i);
  }

  // Listed names are unique up to case.
  lemma ListedNamesUnique(run: seq<State>, acts: seq<Action>, i: nat, x: Id, y: Id)
    requires IsRun(run, acts) && i < |run| && x in run[i].list && y in run[i].list && x != y
    ensures x in run[i].instances && y in run[i].instances
    ensures var a, b := run[i].instances[x], run[i].instances[y];
      Fold(a.className) != Fold(b.className) || Fold(a.instanceName) != Fold(b.instanceName)
  {
    LauncherInvariant(run, acts, i);
    NamesById(run[i], x, y);
  }

  // What a lookup returned is not freed, nor even unlinked, while its user holds the lock.
  lemma LookupIsNeverFreed(run: seq<State>, acts: seq<Action>, i: nat)
    requires IsRun(run, acts) && i < |run| && run[i].lock.Using?
    ensures run[i].lock.id in run[i].instances && run[i].instances[run[i].lock.id].stage == Listed
  {
    LauncherInvariant(run, acts, i);
  }

  lemma {:induction false} FreedStays(run: seq<State>, acts: seq<Action>, i: nat, j: nat, id: Id)
    requires IsRun(run, acts) && i <= j < |run| && id in run[i].instances && run[i].instances[id].stage == Freed
    ensures id in run[j].instances && run[j].instances[id].stage == Freed
  {
    if i < j {
      FreedStays(run, acts, i, j - 1, id);
      LauncherInvariant(run, acts, j - 1);
      FreedStep(run[j - 1], acts[j - 1], id);
    }
  }

  lemma FreedStep(s: State, a: Action, id: Id)
    requires Inv(s) && Enabled(s, a) && id in s.instances && s.instances[id].stage == Freed
    ensures id in Step(s, a).instances && Step(s, a).instances[id].stage == Freed
  {
  }

  // Past the Registered stage means that the instance was put on the list earlier in the run.
  lemma {:induction false} ListedEarlier(run: seq<State>, acts: seq<Action>, i: nat, id: Id)
    requires IsRun(run, acts) && i < |run| && id in run[i].instances && run[i].instances[id].stage != Registered
    ensures exists k :: 0 <= k < i && acts[k] == Publish(id)
  {
    if i > 0 {
      if id in run[i - 1].instances && run[i - 1].instances[id].stage != Registered {
        ListedEarlier(run, acts, i - 1, id);
        var k :| 0 <= k < i - 1 && acts[k] == Publish(id);
        assert 0 <= k < i && acts[k] == Publish(id);
      } else {
        assert acts[i - 1] == Publish(id);
      }
    }
  }

  // Whatever the order of the two releases, an instance is freed at most once, after both of
  // its owners let go, and only after it was listed.
  lemma FreedOnceAfterListed(run: seq<State>, acts: seq<Action>, i: nat, j: nat, id: Id)
    requires IsRun(run, acts) && i < j < |run| && acts[i] == FreeMemory(id)
    ensures j < |acts| ==> acts[j] != FreeMemory(id)
    ensures exists k :: 0 <= k < i && acts[k] == Publish(id)
    ensures !run[i].instances[id].creator && !run[i].instances[id].callback && id !in run[i].list
  {
    LauncherInvariant(run, acts, i);
    ListedEarlier(run, acts, i, id);
    FreedStays(run, acts, i + 1, j, id);
  }

  // What the critical section's present occupant does next to leave it.
  function Leave(s: State): Action
    requires s.lock != Free
  {
    if s.lock.Creating? then Publish(s.lock.id) else Unlock
  }

  lemma LeavesTheLock(s: State, id: Id)
    requires Inv(s) && s.lock != Free && id in s.instances && s.instances[id].stage == Listed
    requires s.instances[id].refCount == 0
    ensures Enabled(s, Leave(s))
    ensures var s' := Step(s, Leave(s));
      Inv(s') && s'.lock == Free && id in s'.instances && s'.instances[id].stage == Listed && s'.instances[id].refCount == 0
  {
    StepKeepsInv(s, Leave(s));
  }

  lemma Prepend(s: State, a: Action, run: seq<State>, acts: seq<Action>)
    requires Enabled(s, a) && Steps(run, acts) && run[0] == Step(s, a)
    ensures Steps([s] + run, [a] + acts)
  {
    hide Enabled, Step;
    forall i | 0 <= i < |[a] + acts|
      ensures Enabled(([s] + run)[i], ([a] + acts)[i]) && ([s] + run)[i + 1] == Step(([s] + run)[i], ([a] + acts)[i])
    {
      if i > 0 { assert ([s] + run)[i] == run[i - 1] && ([a] + acts)[i] == acts[i - 1]; }
    }
  }

  lemma Unreferenced(s: State, id: Id)
    requires Inv(s) && id in s.instances && !s.instances[id].creator && !s.instances[id].callback
    ensures s.instances[id].stage != Registered && s.instances[id].refCount == 0
  {
  }

  // The last release goes on to free what it took off the list.
  lemma FreesUnlinked(s: State, id: Id) returns (run: seq<State>, acts: seq<Action>)
    requires Inv(s) && id in s.instances && s.instances[id].stage == Unlinked
    ensures Steps(run, acts) && run[0] == s && acts == [FreeMemory(id)]
    ensures id in run[1].instances && run[1].instances[id].stage == Freed
  {
    run, acts := [s, Step(s, FreeMemory(id))], [FreeMemory(id)];
  }

  lemma UnlinksReleased(s: State, id: Id) returns (run: seq<State>, acts: seq<Action>)
    requires Inv(s) && id in s.instances && s.lock == Free
    requires s.instances[id].stage == Listed && s.instances[id].refCount == 0
    ensures Steps(run, acts) && run[0] == s && acts == [Unlink(id), FreeMemory(id)]
    ensures id in run[2].instances && run[2].instances[id].stage == Freed
  {
    StepKeepsInv(s, Unlink(id));
    hide Inv;
    run, acts := FreesUnlinked(Step(s, Unlink(id)), id);
    Prepend(s, Unlink(id), run, acts);
    run, acts := [s] + run, [Unlink(id)] + acts;
  }

  // Nothing leaks: once both owners have released an instance, at most three steps free it,
  // whoever is in the critical section: its occupant leaves, and the last release goes on to take
  // the instance off the list and to free it.
  lemma ReleasedCanBeFreed(s: State, id: Id) returns (run: seq<State>, acts: seq<Action>)
    requires Inv(s) && id in s.instances && !s.instances[id].creator && !s.instances[id].callback
    ensures Steps(run, acts) && run[0] == s && |acts| <= 3
    ensures id in run[|acts|].instances && run[|acts|].instances[id].stage == Freed
    ensures forall a :: a in acts ==> a == Unlink(id) || a == FreeMemory(id) || (s.lock != Free && a == Leave(s))
  {
    Unreferenced(s, id);
    hide Inv, Enabled, Step, Leave;
    if s.instances[id].stage == Freed {
      run, acts := [s], [];
    } else if s.instances[id].stage == Unlinked {
      run, acts := FreesUnlinked(s, id);
    } else if s.lock == Free {
      run, acts := UnlinksReleased(s, id);
    } else {
      LeavesTheLock(s, id);
      run, acts := UnlinksReleased(Step(s, Leave(s)), id);
      Prepend(s, Leave(s), run, acts);
      run, acts := [s] + run, [Leave(s)] + acts;
    }
  }

  // When the listed instances were put on the list.
  ghost predicate InOrder(acts: seq<Action>, list: seq<Id>, when: map<Id, nat>, n: nat)
    requires n <= |acts|
  {
    && (forall a :: 0 <= a < |list| ==> list[a] in when && when[list[a]] < n && acts[when[list[a]]] == Publish(list[a]))
    && (forall a, b :: 0 <= a < b < |list| ==> when[list[a]] < when[list[b]])
  }

  // The list is in the order in which the instances were created, whatever was taken off since.
  lemma {:induction false} ListedInOrder(run: seq<State>, acts: seq<Action>, n: nat) returns (when: map<Id, nat>)
    requires IsRun(run, acts) && n < |run|
    ensures InOrder(acts, run[n].list, when, n)
  {
    if n == 0 {
      when := map[];
    } else {
      hide Inv, Step, Enabled, InOrder, IsRun, Without, NoRepeat;
      var s, a := run[n - 1], acts[n - 1];
      RunStep(run, acts, n - 1);
      LauncherInvariant(run, acts, n - 1);
      when := ListedInOrder(run, acts, n - 1);
      if a.Publish? {
        ListAfter(s, a);
        OrderWith(acts, s.list, when, n, a.id);
        when := when[a.id := n - 1];
      } else if a.Unlink? {
        ListAfter(s, a);
        var k := WithoutAt(s.list, a.id);
        OrderWithout(acts, s.list, when, n, k);
      } else {
        ListAfter(s, a);
        OrderStays(acts, s.list, when, n);
      }
    }
  }

  lemma RunStep(run: seq<State>, acts: seq<Action>, i: nat)
    requires IsRun(run, acts) && i + 1 < |run|
    ensures |run| == |acts| + 1 && Enabled(run[i], acts[i]) && run[i + 1] == Step(run[i], acts[i])
  {
    hide Enabled, Step;
  }

  lemma ListAfter(s: State, a: Action)
    requires Inv(s) && Enabled(s, a)
    ensures a.Publish? ==> a.id !in s.list && Step(s, a).list == s.list + [a.id]
    ensures a.Unlink? ==> a.id in s.list && Step(s, a).list == Without(s.list, a.id)
    ensures !a.Publish? && !a.Unlink? ==> Step(s, a).list == s.list
  {
  }

  lemma OrderStays(acts: seq<Action>, list: seq<Id>, when: map<Id, nat>, n: nat)
    requires 0 < n <= |acts| && InOrder(acts, list, when, n - 1)
    ensures InOrder(acts, list, when, n)
  {
  }

  lemma OrderWith(acts: seq<Action>, list: seq<Id>, when: map<Id, nat>, n: nat, id: Id)
    requires 0 < n <= |acts| && InOrder(acts, list, when, n - 1) && id !in list && acts[n - 1] == Publish(id)
    ensures InOrder(acts, list + [id], when[id := n - 1], n)
  {
    var longer := list + [id];
    assert forall a :: 0 <= a < |list| ==> longer[a] == list[a] && longer[a] in list;
  }

  lemma OrderWithout(acts: seq<Action>, list: seq<Id>, when: map<Id, nat>, n: nat, k: nat)
    requires 0 < n <= |acts| && InOrder(acts, list, when, n - 1) && k < |list|
    ensures InOrder(acts, list[..k] + list[k + 1..], when, n)
  {
    var rest := list[..k] + list[k + 1..];
    assert forall a :: 0 <= a < |rest| ==> rest[a] == list[if a < k then a else a + 1];
  }
}
