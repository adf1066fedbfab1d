/** The circular doubly linked lists of src/shared/minimal.h, which refine sequences. */
module Lists {
  class ListEntry {
    var flink: ListEntry?
    var blink: ListEntry?

    constructor ()
      ensures flink == this && blink == this
    {
      new;
      flink, blink := this, this;
    }
  }

  // ring[0] is the list head; following flink visits the ring in order, blink in reverse.
  ghost predicate Ring(ring: seq<ListEntry>)
    reads ring
  {
    && ring != []
    && (forall i, j :: 0 <= i < j < |ring| ==> ring[i] != ring[j])
    && (forall i {:trigger ring[i].flink} :: 0 <= i < |ring| - 1 ==> ring[i].flink == ring[i + 1])
    && (forall i {:trigger ring[i].blink} :: 0 < i < |ring| ==> ring[i].blink == ring[i - 1])
    && ring[|ring| - 1].flink == ring[0] && ring[0].blink == ring[|ring| - 1]
  }

  // The entries of the list: the ring without its head.
  function Entries(ring: seq<ListEntry>): seq<ListEntry>
    requires ring != []
  {
    ring[1..]
  }

  method InsertTailList(head: ListEntry, entry: ListEntry, ghost ring: seq<ListEntry>)
    requires Ring(ring) && head == ring[0] && entry !in ring
    modifies ring, entry
    ensures Ring(ring + [entry])
  {
    var blink := head.blink;
    entry.flink := head;
    entry.blink := blink;
    blink.flink := entry;
    head.blink := entry;
  }

  // The result says whether the list is empty afterwards.
  method RemoveEntryList(entry: ListEntry, ghost ring: seq<ListEntry>, ghost k: nat) returns (empty: bool)
    requires Ring(ring) && 0 < k < |ring| && entry == ring[k]
    modifies ring
    ensures Ring(ring[..k] + ring[k + 1..])
    ensures empty <==> Entries(ring[..k] + ring[k + 1..]) == []
  {
    ghost var rest := ring[..k] + ring[k + 1..];
    var flink := entry.flink;
    var blink := entry.blink;
    assert blink == ring[k - 1];
    assert flink == if k + 1 < |ring| then ring[k + 1] else ring[0];
    blink.flink := flink;
    flink.blink := blink;
    assert forall i :: 0 <= i < |rest| ==> rest[i] == ring[if i < k then i else i + 1];
    empty := flink == blink;
  }
}
