/**
 The storage unit table as a value (src/sys/stgunit.c): a fixed number of slots, each empty or
 occupied. Both the imperative table (`UnitTable.dfy`) and the interleaving model
 (`Driver.dfy`) are stated over it.
 */
module UnitSlots {
  import opened Wrappers

  type Guid = nat
  type Pid = nat

  // What the table needs to know of an occupied slot; `unit` names the storage unit object.
  datatype Entry = Entry(guid: Guid, owner: Pid, unit: nat)

  type Slots = seq<Option<Entry>>

  datatype ProvisionOutcome = Provisioned(index: nat) | NameCollision | CannotMake

  ghost predicate UniqueGuids(slots: Slots) {
    forall i, j :: 0 <= i < j < |slots| && slots[i].Some? && slots[j].Some?
                   ==> slots[i].value.guid != slots[j].value.guid
  }

  ghost predicate HasGuid(slots: Slots, guid: Guid) {
    exists i :: 0 <= i < |slots| && slots[i].Some? && slots[i].value.guid == guid
  }

  // i is the lowest free slot.
  ghost predicate LowestFree(slots: Slots, i: int) {
    0 <= i < |slots| && slots[i].None? && forall k :: 0 <= k < i ==> slots[k].Some?
  }

  ghost predicate Full(slots: Slots) {
    forall k :: 0 <= k < |slots| ==> slots[k].Some?
  }

  // The number of occupied slots.
  function Count(slots: Slots): (n: nat)
    ensures n <= |slots|
  {
    if slots == [] then 0
    else Count(slots[..|slots| - 1]) + if slots[|slots| - 1].Some? then 1 else 0
  }

  lemma {:induction false} CountUpdate(slots: Slots, i: nat, v: Option<Entry>)
    requires i < |slots|
    ensures Count(slots[i := v]) == Count(slots) - (if slots[i].Some? then 1 else 0) + (if v.Some? then 1 else 0)
  {
    var n := |slots| - 1;
    if i == n {
      assert slots[i := v][..n] == slots[..n];
    } else {
      assert slots[i := v][..n] == slots[..n][i := v];
      CountUpdate(slots[..n], i, v);
    }
  }

  // Publishing a new unit in a free slot keeps the GUIDs unique exactly when its GUID is new.
  lemma PublishUnique(slots: Slots, i: nat, e: Entry)
    requires UniqueGuids(slots) && i < |slots| && slots[i].None?
    ensures UniqueGuids(slots[i := Some(e)]) <==> !HasGuid(slots, e.guid)
  {
    var s' := slots[i := Some(e)];
    if HasGuid(slots, e.guid) {
      var k :| 0 <= k < |slots| && slots[k].Some? && slots[k].value.guid == e.guid;
      assert s'[k] == slots[k] && s'[i] == Some(e);
    }
  }

  lemma ClearUnique(slots: Slots, i: nat)
    requires UniqueGuids(slots) && i < |slots|
    ensures UniqueGuids(slots[i := None])
  {
  }
}
