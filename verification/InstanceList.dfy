/**
 The launcher's instance list and the event that goes with it (src/launcher/launcher.c), as they
 are changed in place under the lock. `Launcher.dfy` interleaves these two operations.
 */
module InstanceList {
  import opened Lists

  class InstanceList {
    const head: ListEntry
    var event: bool                // SvcInstanceEvent is signalled
    ghost var ring: seq<ListEntry> // the head and the instances

    ghost predicate Valid()
      reads this, ring
    {
      ring != [] && ring[0] == head && Ring(ring) && (event <==> Entries(ring) == [])
    }

    constructor ()
      ensures Valid() && Entries(ring) == [] && event && fresh(head)
    {
      head := new ListEntry();
      event := true;
      ring := [head];
    }

    // The end of SvcInstanceCreate.
    method Publish(entry: ListEntry)
      requires Valid() && entry !in ring
      modifies this`event, this`ring, ring, entry
      ensures Valid() && Entries(ring) == old(Entries(ring)) + [entry] && !event
    {
      InsertTailList(head, entry, ring);
      ring := ring + [entry];
      event := false;
    }

    // The locked section of SvcInstanceRelease.
    method Unlink(entry: ListEntry, ghost k: nat)
      requires Valid() && 0 < k < |ring| && entry == ring[k]
      modifies this`event, this`ring, ring
      ensures Valid() && Entries(ring) == old(Entries(ring))[..k - 1] + old(Entries(ring))[k..]
      ensures event <==> Entries(ring) == []
    {
      var empty := RemoveEntryList(entry, ring, k);
      ring := ring[..k] + ring[k + 1..];
      if empty { event := true; }
    }
  }
}
