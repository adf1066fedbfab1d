/**
 The hint table of a pipe storage unit (TakeHintValue and PutHintValue in
 src/shared/stghandle.c): 61 hash chains that refine a finite map.
 */
module Hints {
  import opened HashIndex
  import opened HashMix

  const BUCKET_COUNT: nat := 61

  function HintHash(hint: Word): nat { Mix64(hint as bv64) as nat }

  // The entries by their hint.
  ghost predicate ByHint(entries: map<Word, Entry<nat>>, members: set<Entry<nat>>) {
    && (forall e :: e in members ==> e.key in entries && entries[e.key] == e)
    && (forall k :: k in entries ==> entries[k] in members && entries[k].key == k)
  }

  function Without<V>(m: map<Word, V>, k: Word): (r: map<Word, V>)
    ensures r.Keys == m.Keys - {k} && forall x :: x in r ==> r[x] == m[x]
  {
    map x | x in m && x != k :: m[x]
  }

  class HintTable {
    const index: Index<nat>
    ghost var entries: map<Word, Entry<nat>>
    ghost var contents: map<Word, nat>  // the finite map the chains stand for

    ghost predicate Valid()
      reads this, index, index.buckets, index.members
    {
      && index.Valid() && ByHint(entries, index.members)
      && contents.Keys == entries.Keys && forall k :: k in entries ==> contents[k] == entries[k].value
    }

    constructor ()
      ensures Valid() && contents == map[] && fresh(index) && fresh(index.buckets)
    {
      index := new Index(HintHash, BUCKET_COUNT);
      entries, contents := map[], map[];
    }

    method Take(hint: Word) returns (value: nat)
      requires Valid()
      modifies this, index, index.buckets, index.members`next
      ensures Valid() && index.members <= old(index.members)
      ensures value == if hint in old(contents) then old(contents)[hint] else 0
      ensures contents == Without(old(contents), hint)
    {
      hide Hashed, Linked, Bucket, Index.Valid, HintHash;
      var found := index.Remove(hint);
      value := if found == null then 0 else found.value;
      entries, contents := Without(entries, hint), Without(contents, hint);
    }

    method Put(hint: Word, value: nat) returns (stored: bool)
      requires Valid()
      modifies this, index, index.buckets
      ensures Valid() && fresh(index.members - old(index.members))
      ensures stored <==> hint !in old(contents)
      ensures contents == if stored then old(contents)[hint := value] else old(contents)
    {
      hide Hashed, Linked, Bucket, Index.Valid, HintHash, DistinctKeys, ByHint;
      var found := Contains(hint);
      if found { return false; }
      index.MembersDistinct();
      var item := new Entry(hint, value);
      DistinctWith(index.members, item);
      AddItem(item);
      return true;
    }

    // The search of the chain before an item is added.
    method Contains(hint: Word) returns (found: bool)
      requires Valid()
      ensures found <==> hint in contents
      ensures !found ==> forall e :: e in index.members ==> e.key != hint
    {
      hide Hashed, Linked, Bucket, Index.Valid, HintHash, DistinctKeys;
      var prev, entry;
      ghost var i;
      prev, entry, i := index.Find(hint);
      found := entry != null;
    }

    method AddItem(item: Entry<nat>)
      requires Valid() && item.key !in contents && DistinctKeys(index.members + {item})
      modifies this, index, index.buckets, item`next
      ensures Valid() && index.members == old(index.members) + {item}
      ensures contents == old(contents)[item.key := item.value]
    {
      hide Hashed, Linked, Bucket, Index.Valid, HintHash, DistinctKeys;
      index.Insert(item);
      entries, contents := entries[item.key := item], contents[item.key := item.value];
    }
  }
}
