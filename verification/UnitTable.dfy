/**
 The table of storage units (src/sys/stgunit.c) and the two scans of its use bitmap: the list
 request (src/sys/ioctl.c) and the process notify routine.
 */
module UnitTable {
  import opened UnitSlots
  import opened Wrappers

  const BITMAP_SIZE: nat := 256

  // SPD_STORAGE_UNIT. `stopped` stands for the Stopped flag of its queue.
  class StorageUnit {
    const guid: Guid
    const owner: Pid
    const ident: nat
    var refCount: int
    var stopped: bool

    constructor (guid: Guid, owner: Pid, ident: nat)
      ensures this.guid == guid && this.owner == owner && this.ident == ident && refCount == 1 && !stopped
    {
      this.guid, this.owner, this.ident := guid, owner, ident;
      refCount, stopped := 1, false;
    }

    function Entry(): Entry { UnitSlots.Entry(guid, owner, ident) }
  }

  // ----- Bits -----

  predicate Bit(b: bv8, k: nat)
    requires k < 8
  {
    (b >> k) & 1 == 1
  }

  lemma SetBit(b: bv8, j: nat, k: nat)
    requires j < 8 && k < 8
    ensures Bit(b | (1 << j), k) <==> Bit(b, k) || j == k
  {
  }

  // Bit I of the bitmap: FlagOn(Bitmap[I >> 3], 1 << (I & 7)).
  predicate Flag(bitmap: seq<bv8>, i: nat)
    requires |bitmap| == 32 && i < BITMAP_SIZE
  {
    Bit(bitmap[i / 8], i % 8)
  }

  lemma NoFlags(i: nat)
    requires i < BITMAP_SIZE
    ensures !Flag(seq(32, _ => 0), i)
  {
    assert forall k: nat :: k < 8 ==> !Bit(0, k);
  }

  // ----- What the scans compute -----

  // The slots a bitmap is asked for: all occupied ones, or those of one process.
  predicate Wanted(slots: Slots, i: nat, pid: Option<Pid>) {
    i < |slots| && slots[i].Some? && (pid.None? || pid.value == slots[i].value.owner)
  }

  // How many of the first n slots are wanted.
  function WantedCount(slots: Slots, pid: Option<Pid>, n: nat): nat {
    if n == 0 then 0 else WantedCount(slots, pid, n - 1) + if Wanted(slots, n - 1, pid) then 1 else 0
  }

  // The wanted indices below n.
  function WantedIndices(slots: Slots, pid: Option<Pid>, n: nat): seq<nat> {
    if n == 0 then []
    else WantedIndices(slots, pid, n - 1) + if Wanted(slots, n - 1, pid) then [n - 1] else []
  }

  // They are exactly the wanted ones, ...
  lemma {:induction false} WantedIndicesExact(slots: Slots, pid: Option<Pid>, n: nat, i: nat)
    ensures |WantedIndices(slots, pid, n)| == WantedCount(slots, pid, n)
    ensures i in WantedIndices(slots, pid, n) <==> i < n && Wanted(slots, i, pid)
  {
    if n > 0 { WantedIndicesExact(slots, pid, n - 1, i); }
  }

  ghost predicate Ascending(s: seq<nat>) {
    forall j, k :: 0 <= j < k < |s| ==> s[j] < s[k]
  }

  // ... each once and in ascending order.
  lemma {:induction false} WantedIndicesAscend(slots: Slots, pid: Option<Pid>, n: nat)
    ensures Ascending(WantedIndices(slots, pid, n))
  {
    if n > 0 {
      WantedIndicesAscend(slots, pid, n - 1);
      var r := WantedIndices(slots, pid, n - 1);
      forall j | 0 <= j < |r| ensures r[j] < n - 1 {
        assert r[j] in r;
        WantedIndicesExact(slots, pid, n - 1, r[j]);
      }
      assert Ascending(r + [n - 1]);
      assert r + [] == r;
    }
  }

  lemma {:induction false} WantedMonotone(slots: Slots, pid: Option<Pid>, m: nat, n: nat)
    requires m <= n
    ensures WantedCount(slots, pid, m) <= WantedCount(slots, pid, n)
    ensures WantedCount(slots, pid, m) == WantedCount(slots, pid, n) ==> forall i :: m <= i < n ==> !Wanted(slots, i, pid)
    ensures (forall i :: m <= i < n ==> !Wanted(slots, i, pid)) ==> WantedCount(slots, pid, m) == WantedCount(slots, pid, n)
  {
    if m < n { WantedMonotone(slots, pid, m, n - 1); }
  }

  // Counting one process's units never exceeds StorageUnitCount, and reaches it only when no
  // other slot is occupied. This is why the scan may stop early.
  lemma {:induction false} WantedVersusCount(slots: Slots, pid: Option<Pid>, n: nat)
    requires n <= |slots|
    ensures WantedCount(slots, pid, n) <= Count(slots[..n])
  {
    if n > 0 {
      WantedVersusCount(slots, pid, n - 1);
      assert slots[..n][..n - 1] == slots[..n - 1];
    }
  }

  lemma {:induction false} CountMonotone(slots: Slots, n: nat)
    requires n <= |slots|
    ensures Count(slots[..n]) <= Count(slots)
    decreases |slots|
  {
    if n < |slots| {
      CountMonotone(slots[..|slots| - 1], n);
      assert slots[..|slots| - 1][..n] == slots[..n];
    } else {
      assert slots[..n] == slots;
    }
  }

  lemma AllCounted(slots: Slots, pid: Option<Pid>, n: nat, i: nat)
    requires n <= i < |slots| && WantedCount(slots, pid, n) == Count(slots)
    ensures !Wanted(slots, i, pid)
  {
    WantedMonotone(slots, pid, n, |slots|);
    WantedVersusCount(slots, pid, |slots|);
    assert slots[..|slots|] == slots;
  }

  function SetFlagged(b: seq<bv8>, i: nat): seq<bv8>
    requires |b| == 32 && i < BITMAP_SIZE
  {
    b[i / 8 := b[i / 8] | (1 << (i % 8))]
  }

  lemma SetFlaggedFlag(b: seq<bv8>, i: nat, k: nat)
    requires |b| == 32 && i < BITMAP_SIZE && k < BITMAP_SIZE
    ensures Flag(SetFlagged(b, i), k) <==> Flag(b, k) || k == i
  {
    if k / 8 == i / 8 {
      SetBit(b[i / 8], i % 8, k % 8);
    }
    hide Bit;
  }

  // SetFlag(Bitmap[I >> 3], 1 << (I & 7)).
  method SetFlag(bitmap: array<bv8>, i: nat)
    requires bitmap.Length == 32 && i < BITMAP_SIZE
    modifies bitmap
    ensures forall k: nat :: k < BITMAP_SIZE ==> (Flag(bitmap[..], k) <==> Flag(old(bitmap[..]), k) || k == i)
  {
    hide Bit, Flag;
    ghost var was := bitmap[..];
    bitmap[i / 8] := bitmap[i / 8] | (1 << (i % 8));
    assert bitmap[..] == SetFlagged(was, i);
    forall k: nat | k < BITMAP_SIZE ensures Flag(bitmap[..], k) <==> Flag(was, k) || k == i {
      SetFlaggedFlag(was, i, k);
    }
  }

  // Every slot of one process emptied, every other as it was.
  function WithoutOwner(slots: Slots, pid: Pid): (s: Slots)
    ensures |s| == |slots|
  {
    seq(|slots|, i requires 0 <= i < |slots| => if Wanted(slots, i, Some(pid)) then None else slots[i])
  }

  lemma {:induction false} CountAll(slots: Slots, n: nat)
    requires n <= |slots|
    ensures WantedCount(slots, None, n) == Count(slots[..n])
  {
    if n > 0 {
      CountAll(slots, n - 1);
      assert slots[..n][..n - 1] == slots[..n - 1];
    }
  }

  // Slots past the end of the table are not wanted.
  lemma BeyondTable(slots: Slots, pid: Option<Pid>, m: nat, n: nat)
    requires |slots| <= m <= n
    ensures WantedCount(slots, pid, m) == WantedCount(slots, pid, n)
  {
    WantedMonotone(slots, pid, m, n);
  }

  lemma NothingCounted(slots: Slots, pid: Option<Pid>)
    ensures WantedCount(slots, pid, 0) == 0 && Btls(WantedIndices(slots, pid, 0)) == []
  {
  }

  lemma OneMore(slots: Slots, pid: Option<Pid>, i: nat)
    ensures WantedCount(slots, pid, i + 1) == WantedCount(slots, pid, i) + if Wanted(slots, i, pid) then 1 else 0
    ensures Btls(WantedIndices(slots, pid, i + 1))
         == Btls(WantedIndices(slots, pid, i)) + if Wanted(slots, i, pid) then [BtlFromIndex(i)] else []
  {
  }

  function Btls(indices: seq<nat>): (r: seq<nat>)
    ensures |r| == |indices|
  {
    seq(|indices|, k requires 0 <= k < |indices| => BtlFromIndex(indices[k]))
  }

  lemma {:induction false} IndicesEqual(slots: Slots, m: nat, n: nat)
    requires m <= n && WantedCount(slots, None, m) == WantedCount(slots, None, n)
    ensures WantedIndices(slots, None, m) == WantedIndices(slots, None, n)
  {
    if m < n {
      WantedMonotone(slots, None, m, n);
      WantedMonotone(slots, None, m, n - 1);
      IndicesEqual(slots, m, n - 1);
    }
  }

  // The loop of SpdIoctlGetList over a bitmap with `count` bits set.
  method ListBitmap(bitmap: array<bv8>, count: nat, capacity: nat, ghost slots: Slots) returns (list: Option<seq<nat>>)
    requires bitmap.Length == 32
    requires forall i: nat :: i < BITMAP_SIZE ==> (Flag(bitmap[..], i) <==> Wanted(slots, i, None))
    requires count == WantedCount(slots, None, BITMAP_SIZE)
    ensures list.None? <==> capacity < count
    ensures list.Some? ==> list.value == Btls(WantedIndices(slots, None, BITMAP_SIZE))
  {
    hide Flag, Wanted, WantedCount, WantedIndices, Btls;
    ghost var bits, size := bitmap[..], 8 * bitmap.Length;
    NothingCounted(slots, None);
    var out: seq<nat> := [];
    var remaining := count;
    var i := 0;
    while 0 < remaining && BITMAP_SIZE > i
      invariant i <= BITMAP_SIZE && |out| <= capacity && |out| + remaining == count
      invariant |out| == WantedCount(slots, None, i) && out == Btls(WantedIndices(slots, None, i))
    {
      WantedMonotone(slots, None, i + 1, size);
      OneMore(slots, None, i);
      if Flag(bitmap[..], i) {
        if |out| + 1 > capacity { return None; }
        out := out + [BtlFromIndex(i)];
        remaining := remaining - 1;
      }
      i := i + 1;
    }
    WantedMonotone(slots, None, i, size);
    IndicesEqual(slots, i, size);
    return Some(out);
  }

  function Empty(n: nat): Slots { seq(n, _ => None) }

  lemma {:induction false} EmptyCounted(n: nat)
    ensures Count(Empty(n)) == 0
  {
    if n > 0 {
      EmptyCounted(n - 1);
      assert Empty(n)[..n - 1] == Empty(n - 1);
    }
  }

  function BtlFromIndex(i: nat): nat { i * 0x100 }

  // SPD_IOCTL_BTL_B, _T and _L.
  function BtlB(btl: nat): nat { (btl / 0x1_0000) % 0x100 }
  function BtlT(btl: nat): nat { (btl / 0x100) % 0x100 }
  function BtlL(btl: nat): nat { btl % 0x100 }

  // A BTL is bus, target and LUN, a byte each; the one made from an index is that target.
  lemma BtlRoundTrip(b: nat, t: nat, l: nat)
    requires b < 0x100 && t < 0x100 && l < 0x100
    ensures var btl := b * 0x1_0000 + t * 0x100 + l;
      && BtlB(btl) == b && BtlT(btl) == t && BtlL(btl) == l
      && (BtlFromIndex(t) == btl <==> b == 0 && l == 0)
  {
  }

  datatype UnprovisionOutcome = Unprovisioned | NotFound | AccessDenied

  // How the unit to unprovision is named.
  datatype Key = ByGuid(guid: Guid) | ByIndex(index: nat)

  // The occupied slot a key names: the one with the GUID, or the one at the index.
  ghost predicate Names(slots: Slots, key: Key, i: nat) {
    i < |slots| && slots[i].Some? && match key case ByGuid(g) => slots[i].value.guid == g case ByIndex(k) => k == i
  }

  // A unit is named by its own GUID and by its own index, and by no other.
  lemma NamesOne(slots: Slots, i: nat, j: nat, guid: Guid)
    requires UniqueGuids(slots) && i < |slots| && slots[i].Some?
    ensures Names(slots, ByIndex(j), i) <==> j == i
    ensures Names(slots, ByGuid(guid), i) <==> guid == slots[i].value.guid
    ensures Names(slots, ByGuid(slots[i].value.guid), j) <==> j == i
  {
  }

  class UnitTable {
    const units: array<StorageUnit?>  // StorageUnits[StorageUnitCapacity]
    var count: nat                    // StorageUnitCount

    function SlotAt(i: nat): Option<Entry>
      requires i < units.Length
      reads units
    {
      if units[i] == null then None else Some(units[i].Entry())
    }

    function Slots(): (s: Slots)
      reads units
      ensures |s| == units.Length && forall i :: 0 <= i < units.Length ==> s[i] == SlotAt(i)
    {
      seq(units.Length, i requires 0 <= i < units.Length reads units => SlotAt(i))
    }

    ghost predicate Valid()
      reads this, units
    {
      && units.Length <= BITMAP_SIZE
      && count == Count(Slots())
      && UniqueGuids(Slots())
    }

    constructor (capacity: nat)
      requires capacity <= BITMAP_SIZE
      ensures Valid() && fresh(units) && Slots() == Empty(capacity)
    {
      units := new StorageUnit?[capacity](_ => null);
      count := 0;
      new;
      assert Slots() == Empty(capacity);
      EmptyCounted(capacity);
    }

    // SpdStorageUnitProvision once the unit is built: one pass looks for a duplicate GUID and
    // the first free slot.
    method Provision(unit: StorageUnit) returns (outcome: ProvisionOutcome)
      requires Valid() && Injective() && unit !in Listed()
      modifies this, units
      ensures Valid() && Injective()
      ensures outcome == NameCollision <==> HasGuid(old(Slots()), unit.guid)
      ensures outcome == CannotMake <==> !HasGuid(old(Slots()), unit.guid) && Full(old(Slots()))
      ensures outcome.Provisioned? ==>
        && LowestFree(old(Slots()), outcome.index) && units[..] == old(units[..])[outcome.index := unit]
        && Slots() == old(Slots())[outcome.index := Some(unit.Entry())] && count == old(count) + 1
      ensures !outcome.Provisioned? ==> units[..] == old(units[..]) && count == old(count)
    {
      var free: Option<nat> := None;
      for i := 0 to units.Length
        invariant free.None? ==> forall k :: 0 <= k < i ==> units[k] != null
        invariant free.Some? ==> free.value < i && LowestFree(Slots(), free.value)
        invariant forall k :: 0 <= k < i && units[k] != null ==> units[k].guid != unit.guid
      {
        if units[i] == null {
          if free.None? { free := Some(i); }
        } else if units[i].guid == unit.guid {
          assert Slots()[i].value.guid == unit.guid;
          return NameCollision;
        }
      }
      if free.None? { return CannotMake; }
      PublishUnique(Slots(), free.value, unit.Entry());
      CountUpdate(Slots(), free.value, Some(unit.Entry()));
      units[free.value] := unit;
      count := count + 1;
      assert Slots() == old(Slots())[free.value := Some(unit.Entry())];
      return Provisioned(free.value);
    }

    method Find(key: Key) returns (found: Option<nat>)
      requires Valid()
      ensures found.Some? ==> Names(Slots(), key, found.value)
      ensures found.None? ==> forall i :: !Names(Slots(), key, i)
    {
      match key
      case ByIndex(k) =>
        found := if k < units.Length && units[k] != null then Some(k) else None;
      case ByGuid(g) =>
        for i := 0 to units.Length
          invariant forall k :: 0 <= k < i ==> !Names(Slots(), key, k)
        {
          if units[i] != null && units[i].guid == g { return Some(i); }
        }
        found := None;
    }

    // SpdStorageUnitUnprovision: clear the slot, stop the queue, drop the table's reference.
    // Only the owner may.
    method Unprovision(key: Key, pid: Pid) returns (outcome: UnprovisionOutcome, ghost index: nat)
      requires Valid() && Injective()
      modifies this, units, Listed()
      ensures Valid() && Injective()
      ensures outcome == NotFound <==> forall i :: !Names(old(Slots()), key, i)
      ensures outcome != NotFound ==> Names(old(Slots()), key, index)
      ensures outcome == AccessDenied <==> outcome != NotFound && old(units[index]).owner != pid
      ensures outcome == Unprovisioned ==>
        && units[..] == old(units[..])[index := null] && Slots() == old(Slots())[index := None] && count == old(count) - 1
        && old(units[index]).stopped && old(units[index]).refCount == old(units[index].refCount) - 1
      ensures outcome != Unprovisioned ==> units[..] == old(units[..]) && Slots() == old(Slots()) && count == old(count)
      ensures forall u :: u in old(Listed()) && !(outcome == Unprovisioned && u == old(units[index])) ==>
        u.stopped == old(u.stopped) && u.refCount == old(u.refCount)
    {
      hide Count, UniqueGuids;
      var found := Find(key);
      if found.None? {
        index := 0;
        return NotFound, index;
      }
      index := found.value;
      var unit := units[found.value];
      if unit.owner != pid { return AccessDenied, index; }
      ClearUnique(Slots(), found.value);
      CountUpdate(Slots(), found.value, None);
      units[found.value] := null;
      count := count - 1;
      unit.stopped := true;
      unit.refCount := unit.refCount - 1;
      assert Slots() == old(Slots())[index := None];
      return Unprovisioned, index;
    }

    // The units in the table; no unit is in two slots.
    ghost function Listed(): set<StorageUnit>
      reads units
    {
      set i | 0 <= i < units.Length && units[i] != null :: units[i]
    }

    ghost predicate Injective()
      reads units
    {
      forall i, j :: 0 <= i < j < units.Length && units[i] != null ==> units[i] != units[j]
    }

    // SpdStorageUnitReferenceByBtl.
    method ReferenceByBtl(btl: nat) returns (unit: StorageUnit?)
      requires Valid()
      modifies Listed()
      ensures unit == if BtlB(btl) != 0 || BtlL(btl) != 0 || BtlT(btl) >= units.Length then null else units[BtlT(btl)]
      ensures unit != null ==> unit.refCount == old(unit.refCount) + 1 && unit.stopped == old(unit.stopped)
      ensures forall u :: u in Listed() && u != unit ==> u.refCount == old(u.refCount) && u.stopped == old(u.stopped)
    {
      if BtlB(btl) != 0 || BtlL(btl) != 0 { return null; }
      unit := if units.Length > BtlT(btl) then units[BtlT(btl)] else null;
      if unit != null { unit.refCount := unit.refCount + 1; }
    }

    // SpdStorageUnitGetUseBitmap. The scan stops as soon as StorageUnitCount units were found.
    method GetUseBitmap(pid: Option<Pid>) returns (bitmap: array<bv8>, found: nat)
      requires Valid()
      ensures fresh(bitmap) && bitmap.Length == 32
      ensures forall i: nat :: i < BITMAP_SIZE ==> (Flag(bitmap[..], i) <==> Wanted(Slots(), i, pid))
      ensures found == WantedCount(Slots(), pid, units.Length)
    {
      hide Flag;
      bitmap := new bv8[32](_ => 0);
      assert bitmap[..] == seq(32, _ => 0);
      forall i: nat | i < BITMAP_SIZE ensures !Flag(bitmap[..], i) { NoFlags(i); }
      found := 0;
      var i := 0;
      while count > found && units.Length > i
        invariant i <= units.Length && found == WantedCount(Slots(), pid, i)
        invariant forall k: nat :: k < BITMAP_SIZE ==> (Flag(bitmap[..], k) <==> k < i && Wanted(Slots(), k, pid))
      {
        var unit := units[i];
        if unit != null && (pid.None? || pid.value == unit.owner) {
          SetFlag(bitmap, i);
          found := found + 1;
        }
        i := i + 1;
      }
      WantedMonotone(Slots(), pid, i, units.Length);
      if i < units.Length {
        CountMonotone(Slots(), i);
        WantedVersusCount(Slots(), pid, i);
        forall k | i <= k < units.Length ensures !Wanted(Slots(), k, pid) { AllCounted(Slots(), pid, i, k); }
      }
    }

    // SpdIoctlGetList: the BTLs of the occupied slots, or STATUS_BUFFER_TOO_SMALL.
    method GetList(capacity: nat) returns (list: Option<seq<nat>>)
      requires Valid()
      ensures list.None? <==> capacity < count
      ensures list.Some? ==> list.value == Btls(WantedIndices(Slots(), None, units.Length))
    {
      var bitmap, found := GetUseBitmap(None);
      ghost var slots, n := Slots(), units.Length;
      assert found == count by {
        CountAll(slots, n);
        assert slots[..n] == slots;
      }
      hide Flag, Count, Wanted, WantedCount, WantedIndices, Btls, UniqueGuids;
      BeyondTable(slots, None, n, BITMAP_SIZE);
      IndicesEqual(slots, n, BITMAP_SIZE);
      list := ListBitmap(bitmap, found, capacity, slots);
    }

    // SpdDeviceExtensionNotifyRoutine: unprovision every unit of a process that ended.
    method NotifyRoutine(pid: Pid)
      requires Valid() && Injective()
      modifies this, units, Listed()
      ensures Valid() && Injective()
      ensures CleanedUpTo(pid, units.Length, old(units[..])) && Slots() == WithoutOwner(old(Slots()), pid)
      ensures DroppedUpTo(pid, units.Length, old(units[..]), old(Stops()), old(Refs()))
    {
      hide Flag, Count, WantedCount, UniqueGuids, Wanted, Sweeping, CleanedUpTo, DroppedUpTo;
      var bitmap, remaining := GetUseBitmap(Some(pid));
      ghost var was, bits, size := Slots(), bitmap[..], 8 * bitmap.Length;
      ghost var objects, stops, refs, all := units[..], Stops(), Refs(), Listed();
      BeyondTable(was, Some(pid), units.Length, size);
      NothingCounted(was, Some(pid));
      SweepStart(pid, objects, stops, refs, all);
      var i := 0;
      while 0 < remaining && BITMAP_SIZE > i
        invariant i <= BITMAP_SIZE && bitmap[..] == bits
        invariant remaining == WantedCount(was, Some(pid), size) - WantedCount(was, Some(pid), i)
        invariant Sweeping(pid, i, objects, stops, refs, all)
      {
        OneMore(was, Some(pid), i);
        OwnedIsWanted(was, objects, i, pid);
        assert Flag(bits, i) <==> Wanted(was, i, Some(pid));
        if Flag(bitmap[..], i) {
          UnprovisionAt(i, pid, objects, stops, refs, all);
          remaining := remaining - 1;
        } else {
          SkipSlot(i, pid, objects, stops, refs, all);
        }
        i := i + 1;
      }
      WantedMonotone(was, Some(pid), i, size);
      forall k | i <= k < units.Length ensures !OwnedBy(objects, k, pid) { OwnedIsWanted(was, objects, k, pid); }
      SweepEnd(pid, i, objects, stops, refs, all);
      CleanedSlots(pid, objects, was);
    }

    lemma SweepStart(pid: Pid, objects: seq<StorageUnit?>, stops: seq<bool>, refs: seq<int>, all: set<StorageUnit>)
      requires Valid() && Injective() && objects == units[..] && stops == Stops() && refs == Refs() && all == Listed()
      ensures Sweeping(pid, 0, objects, stops, refs, all)
    {
    }

    lemma SweepEnd(pid: Pid, i: nat, objects: seq<StorageUnit?>, stops: seq<bool>, refs: seq<int>, all: set<StorageUnit>)
      requires Sweeping(pid, i, objects, stops, refs, all)
      requires forall k :: i <= k < units.Length ==> !OwnedBy(objects, k, pid)
      ensures Valid() && Injective()
      ensures CleanedUpTo(pid, units.Length, objects) && DroppedUpTo(pid, units.Length, objects, stops, refs)
    {
      NothingLeft(pid, i, objects, stops, refs);
    }

    lemma NothingLeft(pid: Pid, i: nat, objects: seq<StorageUnit?>, stops: seq<bool>, refs: seq<int>)
      requires CleanedUpTo(pid, i, objects) && DroppedUpTo(pid, i, objects, stops, refs)
      requires forall k :: i <= k < units.Length ==> !OwnedBy(objects, k, pid)
      ensures CleanedUpTo(pid, units.Length, objects) && DroppedUpTo(pid, units.Length, objects, stops, refs)
    {
      forall k: nat | k < units.Length
        ensures units[k] == if objects[k] != null && objects[k].owner == pid then null else objects[k]
        ensures objects[k] != null && objects[k].owner == pid ==> k < i
      {
        assert k < i || !OwnedBy(objects, k, pid);
      }
    }

    ghost function Stops(): seq<bool>
      reads units, Listed()
    {
      seq(units.Length, k requires 0 <= k < units.Length reads units, Listed() => units[k] != null && units[k].stopped)
    }

    ghost function Refs(): seq<int>
      reads units, Listed()
    {
      seq(units.Length, k requires 0 <= k < units.Length reads units, Listed() => if units[k] == null then 0 else units[k].refCount)
    }

    static ghost predicate OwnedBy(objects: seq<StorageUnit?>, k: nat, pid: Pid) {
      k < |objects| && objects[k] != null && objects[k].owner == pid
    }

    static lemma OwnedIsWanted(slots: Slots, objects: seq<StorageUnit?>, k: nat, pid: Pid)
      requires |slots| == |objects|
      requires forall i :: 0 <= i < |slots| ==> slots[i] == if objects[i] == null then None else Some(objects[i].Entry())
      ensures Wanted(slots, k, Some(pid)) <==> OwnedBy(objects, k, pid)
    {
    }

    // What became of the units below i: stopped and dereferenced if the process owned them.
    ghost predicate DroppedUpTo(pid: Pid, i: nat, objects: seq<StorageUnit?>, stops: seq<bool>, refs: seq<int>)
      reads objects
    {
      |stops| == |refs| == |objects| && forall k: nat :: k < |objects| && objects[k] != null ==>
        if k < i && objects[k].owner == pid then objects[k].stopped && objects[k].refCount == refs[k] - 1
        else objects[k].stopped == stops[k] && objects[k].refCount == refs[k]
    }

    lemma CleanedSlots(pid: Pid, objects: seq<StorageUnit?>, slots: Slots)
      requires CleanedUpTo(pid, units.Length, objects) && |slots| == |objects|
      requires forall i :: 0 <= i < |slots| ==> slots[i] == if objects[i] == null then None else Some(objects[i].Entry())
      ensures Slots() == WithoutOwner(slots, pid)
    {
    }

    // The slots below i of the process are empty, all others are as in `was`.
    ghost predicate CleanedUpTo(pid: Pid, i: nat, was: seq<StorageUnit?>)
      reads units
    {
      |was| == units.Length && forall k: nat :: k < units.Length ==>
        units[k] == if k < i && was[k] != null && was[k].owner == pid then null else was[k]
    }

    lemma CleanedShrinks(pid: Pid, i: nat, was: seq<StorageUnit?>, all: set<StorageUnit>)
      requires CleanedUpTo(pid, i, was)
      requires forall k :: 0 <= k < |was| && was[k] != null ==> was[k] in all
      ensures Listed() <= all
    {
    }

    // The state of the notify routine's loop before slot i.
    ghost predicate Sweeping(pid: Pid, i: nat, objects: seq<StorageUnit?>, stops: seq<bool>, refs: seq<int>, all: set<StorageUnit>)
      reads this, units, objects
    {
      && Valid() && Injective() && Listed() <= all
      && CleanedUpTo(pid, i, objects) && DroppedUpTo(pid, i, objects, stops, refs)
      && (forall k :: 0 <= k < |objects| && objects[k] != null ==> objects[k] in all)
      && (forall j, k :: 0 <= j < k < |objects| && objects[j] != null ==> objects[j] != objects[k])
    }

    lemma SkipSlot(i: nat, pid: Pid, objects: seq<StorageUnit?>, stops: seq<bool>, refs: seq<int>, all: set<StorageUnit>)
      requires Sweeping(pid, i, objects, stops, refs, all) && !OwnedBy(objects, i, pid)
      ensures Sweeping(pid, i + 1, objects, stops, refs, all)
    {
    }

    // The slot at i holds a unit of this process: it is cleared, stopped and dereferenced.
    method UnprovisionAt(i: nat, pid: Pid,
                         ghost objects: seq<StorageUnit?>, ghost stops: seq<bool>, ghost refs: seq<int>, ghost all: set<StorageUnit>)
      requires Sweeping(pid, i, objects, stops, refs, all) && OwnedBy(objects, i, pid)
      modifies this, units, all
      ensures Sweeping(pid, i + 1, objects, stops, refs, all)
    {
      hide Count, UniqueGuids;
      assert Names(Slots(), ByIndex(i), i);
      var outcome, index := Unprovision(ByIndex(i), pid);
      CleanedShrinks(pid, i + 1, objects, all);
    }
  }
}
