/**
 A hash table chained through its entries. The driver indexes its processing SRBs this way by
 their address (src/sys/ioq.c), the pipe transport its outstanding reads by their hint
 (src/shared/stghandle.c).
 */
module HashIndex {
  import opened HashMix

  class Entry<X> {
    const key: Word
    var next: Entry?<X>
    var value: X

    constructor (key: Word, value: X)
      ensures this.key == key && this.value == value && next == null
    {
      this.key, this.value, this.next := key, value, null;
    }
  }

  // The bucket a key belongs in.
  function Bucket(hash: Word -> nat, key: Word, count: nat): (b: nat)
    requires count > 0
    ensures b < count
  {
    hash(key) % count
  }

  ghost predicate DistinctKeys<X>(s: set<Entry<X>>) {
    forall e, f :: e in s && f in s && e.key == f.key ==> e == f
  }

  // head starts the chain that visits exactly `chain`, in order.
  ghost predicate Linked<X>(head: Entry?<X>, chain: seq<Entry<X>>)
    reads chain
  {
    && head == (if chain == [] then null else chain[0])
    && (forall i {:trigger chain[i].next} :: 0 <= i < |chain| - 1 ==> chain[i].next == chain[i + 1])
    && (chain != [] ==> chain[|chain| - 1].next == null)
  }

  ghost predicate NoRepeat<X>(chain: seq<Entry<X>>) {
    forall i, j :: 0 <= i < j < |chain| ==> chain[i] != chain[j]
  }

  lemma NoRepeatRest<X>(chain: seq<Entry<X>>, i: nat)
    requires NoRepeat(chain) && i < |chain|
    ensures NoRepeat(chain[..i] + chain[i + 1..])
    ensures forall e :: e in chain[..i] + chain[i + 1..] <==> e in chain && e != chain[i]
  {
    var rest := chain[..i] + chain[i + 1..];
    assert forall k :: 0 <= k < |rest| ==> rest[k] == chain[if k < i then k else k + 1];
    forall e | e in chain && e != chain[i] ensures e in rest {
      var k :| 0 <= k < |chain| && chain[k] == e;
      assert rest[if k < i then k else k - 1] == e;
    }
  }

  // Each member is in the chain of the bucket its key hashes to, once, and nothing else is.
  ghost predicate Hashed<X>(hash: Word -> nat, chains: seq<seq<Entry<X>>>, members: set<Entry<X>>) {
    && |chains| > 0
    && (forall b, i :: 0 <= b < |chains| && 0 <= i < |chains[b]|
                       ==> chains[b][i] in members && Bucket(hash, chains[b][i].key, |chains|) == b)
    && (forall b :: 0 <= b < |chains| ==> NoRepeat(chains[b]))
    && (forall e :: e in members ==> e in chains[Bucket(hash, e.key, |chains|)])
    && DistinctKeys(members)
  }

  lemma HashedInsert<X>(hash: Word -> nat, chains: seq<seq<Entry<X>>>, members: set<Entry<X>>, e: Entry<X>)
    requires Hashed(hash, chains, members) && e !in members && DistinctKeys(members + {e})
    ensures var b := Bucket(hash, e.key, |chains|);
      Hashed(hash, chains[b := [e] + chains[b]], members + {e})
  {
    hide Bucket;
    var b := Bucket(hash, e.key, |chains|);
    var c' := chains[b := [e] + chains[b]];
    forall f | f in members + {e} ensures f in c'[Bucket(hash, f.key, |c'|)] {
      if f == e { assert c'[b][0] == e; }
    }
  }

  lemma HashedRemove<X>(hash: Word -> nat, chains: seq<seq<Entry<X>>>, members: set<Entry<X>>, b: nat, i: nat)
    requires Hashed(hash, chains, members) && b < |chains| && i < |chains[b]|
    ensures Hashed(hash, chains[b := chains[b][..i] + chains[b][i + 1..]], members - {chains[b][i]})
  {
    hide Bucket, NoRepeat;
    var c' := chains[b := chains[b][..i] + chains[b][i + 1..]];
    NoRepeatRest(chains[b], i);
    forall d, k | 0 <= d < |c'| && 0 <= k < |c'[d]|
      ensures c'[d][k] in members - {chains[b][i]} && Bucket(hash, c'[d][k].key, |c'|) == d
    {
      assert c'[d][k] in chains[d];
    }
  }

  lemma ChainsDisjoint<X>(hash: Word -> nat, chains: seq<seq<Entry<X>>>, members: set<Entry<X>>)
    requires Hashed(hash, chains, members)
    ensures forall b, i :: 0 <= b < |chains| && 0 <= i < |chains[b]| ==> chains[b][i] in members
    ensures forall b, c, i, j ::
      (0 <= b < |chains| && 0 <= c < |chains| && 0 <= i < |chains[b]| && 0 <= j < |chains[c]|
       && chains[b][i] == chains[c][j]) ==> b == c && i == j
  {
    hide Bucket;
    forall b, c, i, j | 0 <= b < |chains| && 0 <= c < |chains| && 0 <= i < |chains[b]| && 0 <= j < |chains[c]|
                        && chains[b][i] == chains[c][j]
      ensures b == c && i == j
    {
      assert Bucket(hash, chains[b][i].key, |chains|) == b && Bucket(hash, chains[c][j].key, |chains|) == c;
    }
  }

  lemma DistinctWith<X>(s: set<Entry<X>>, e: Entry<X>)
    requires DistinctKeys(s) && forall f :: f in s ==> f.key != e.key
    ensures DistinctKeys(s + {e}) && e !in s
  {
  }

  lemma DistinctSubset<X>(s: set<Entry<X>>, t: set<Entry<X>>)
    requires s <= t && DistinctKeys(t)
    ensures DistinctKeys(s)
  {
  }

  // The bucket array. `members` is what the chains hold together.
  class Index<X> {
    const hash: Word -> nat
    const buckets: array<Entry?<X>>
    ghost var chains: seq<seq<Entry<X>>>
    ghost var members: set<Entry<X>>

    ghost predicate Valid()
      reads this, buckets, members
    {
      && buckets.Length == |chains| > 0
      && Hashed(hash, chains, members)
      && forall b :: 0 <= b < |chains| ==> Linked(buckets[b], chains[b])
    }

    constructor (hash: Word -> nat, count: nat)
      requires count > 0
      ensures Valid() && members == {} && fresh(buckets) && this.hash == hash && buckets.Length == count
    {
      this.hash := hash;
      buckets := new Entry?<X>[count](_ => null);
      chains := seq(count, _ => []);
      members := {};
    }

    // The entry ends the chain of its bucket.
    ghost predicate LastInChain(e: Entry<X>)
      reads this
    {
      exists b :: 0 <= b < |chains| && chains[b] != [] && chains[b][|chains[b]| - 1] == e
    }

    lemma LastHasNoNext(e: Entry<X>)
      requires Valid() && e in members
      ensures LastInChain(e) <==> e.next == null
    {
      hide Bucket;
      var b := Bucket(hash, e.key, |chains|);
      var i :| 0 <= i < |chains[b]| && chains[b][i] == e;
      assert Linked(buckets[b], chains[b]);
      if c :| 0 <= c < |chains| && chains[c] != [] && chains[c][|chains[c]| - 1] == e {
        assert Linked(buckets[c], chains[c]);
      }
    }

    lemma MembersDistinct()
      requires Valid()
      ensures DistinctKeys(members)
    {
    }

    method Insert(e: Entry<X>)
      requires Valid() && e !in members && DistinctKeys(members + {e})
      modifies this, buckets, e`next
      ensures Valid() && members == old(members) + {e}
      ensures LastInChain(e) <==>
        forall m :: m in old(members) ==> Bucket(hash, m.key, buckets.Length) != Bucket(hash, e.key, buckets.Length)
    {
      hide Bucket, Hashed;
      EmptyBucket(e.key);
      var b := Bucket(hash, e.key, buckets.Length);
      HashedInsert(hash, chains, members, e);
      ChainsDisjoint(hash, chains, members);
      ghost var chain := chains[b];
      e.next := buckets[b];
      assert Linked(e.next, chain);
      buckets[b] := e;
      chains := chains[b := [e] + chain];
      members := members + {e};
      LastHasNoNext(e);
    }

    // The bucket of a key is empty exactly when no member's key belongs in it.
    lemma EmptyBucket(key: Word)
      requires Valid()
      ensures var n := buckets.Length;
        buckets[Bucket(hash, key, n)] == null <==> forall m :: m in members ==> Bucket(hash, m.key, n) != Bucket(hash, key, n)
    {
      hide Bucket;
      var b := Bucket(hash, key, buckets.Length);
      assert Linked(buckets[b], chains[b]);
      if chains[b] != [] { assert chains[b][0] in members; }
    }

    // Walks the chain of the bucket for `key`; `prev` is the entry before the one found.
    method Find(key: Word) returns (prev: Entry?<X>, found: Entry?<X>, ghost i: nat)
      requires Valid()
      ensures found == null <==> forall e :: e in members ==> e.key != key
      ensures found != null ==> found in members && found.key == key
      ensures var chain := chains[Bucket(hash, key, |chains|)];
        && i <= |chain|
        && found == (if i < |chain| then chain[i] else null)
        && prev == (if i == 0 then null else chain[i - 1])
    {
      hide Bucket;
      var b := Bucket(hash, key, buckets.Length);
      ghost var chain := chains[b];
      i, prev, found := 0, null, buckets[b];
      assert Linked(buckets[b], chain);
      while found != null && found.key != key
        invariant i <= |chain|
        invariant found == if i < |chain| then chain[i] else null
        invariant prev == if i == 0 then null else chain[i - 1]
        invariant forall j :: 0 <= j < i ==> chain[j].key != key
        decreases |chain| - i
      {
        prev, found, i := found, found.next, i + 1;
      }
    }

    // *P = Entry->HashNext, where *P is the link into chains[b][i].
    method Unlink(ghost b: nat, ghost i: nat, bucket: nat, prev: Entry?<X>, found: Entry<X>)
      requires buckets.Length == |chains| && b == bucket < |chains| && i < |chains[b]|
      requires forall c :: 0 <= c < |chains| ==> Linked(buckets[c], chains[c])
      requires forall c, j, k :: 0 <= c < |chains| && 0 <= j < |chains[c]| && 0 <= k < |chains[b]|
                                 ==> (chains[c][j] == chains[b][k] <==> c == b && j == k)
      requires found == chains[b][i] && prev == if i == 0 then null else chains[b][i - 1]
      modifies this, buckets, chains[b]`next
      ensures members == old(members)
      ensures chains == old(chains)[b := old(chains[b])[..i] + old(chains[b])[i + 1..]]
      ensures forall c :: 0 <= c < |chains| ==> Linked(buckets[c], chains[c])
      ensures found.next == old(found.next)
    {
      ghost var chain := chains[b];
      ghost var rest := chain[..i] + chain[i + 1..];
      assert forall k :: 0 <= k < |rest| ==> rest[k] == chain[if k < i then k else k + 1];
      if prev == null {
        buckets[bucket] := found.next;
      } else {
        prev.next := found.next;
      }
      assert Linked(buckets[b], rest);
      chains := chains[b := rest];
    }

    // Takes the extension at `key` out of the index, if a chain holds it.
    method Remove(key: Word) returns (found: Entry?<X>)
      requires Valid()
      modifies this, buckets, members`next
      ensures Valid()
      ensures found == null ==> members == old(members) && forall e :: e in members ==> e.key != key
      ensures found != null ==> found in old(members) && found.key == key && members == old(members) - {found}
      ensures found != null ==> found.next == old(found.next) && (found.next == null <==> old(LastInChain(found)))
    {
      hide Bucket, Hashed, LastInChain;
      var prev;
      ghost var i;
      prev, found, i := Find(key);
      if found != null {
        var b := Bucket(hash, key, buckets.Length);
        LastHasNoNext(found);
        HashedRemove(hash, chains, members, b, i);
        ChainsDisjoint(hash, chains, members);
        Unlink(b, i, b, prev, found);
        members := members - {found};
      }
    }

    method Clear()
      requires Valid()
      modifies this, buckets
      ensures Valid() && members == {}
    {
      hide Bucket;
      for i := 0 to buckets.Length
        invariant forall k :: 0 <= k < i ==> buckets[k] == null
        modifies buckets
      {
        buckets[i] := null;
      }
      chains := seq(|chains|, _ => []);
      members := {};
    }
  }
}
