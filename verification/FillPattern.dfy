/** The tester's fill pattern (FillOrTest in src/stgtest/stgtest.c). */
module FillPattern {
  import opened HashMix

  // SpdIoctlTransactReservedKind, WriteKind and UnmapKind; any other kind does nothing.
  datatype Kind = Fill | AfterWrite | AfterUnmap | Ignored

  // BlockAddress + I + 1 in UINT64 arithmetic; I is a ULONG.
  function Key(address: bv64, i: bv64): bv64 {
    address + i + 1
  }

  // The word that every eight bytes of block i hold.
  function Pattern(address: bv64, i: nat): bv64
    requires i < 0x1_0000_0000
  {
    Mix64(Key(address, i as bv64))
  }

  // buffer[i, j] is the j-th 64-bit word of block i: there are BlockLength / 8 of them.
  ghost predicate Filled(buffer: array2<bv64>, address: bv64)
    requires buffer.Length0 <= 0x1_0000_0000
    reads buffer
  {
    forall i, j :: 0 <= i < buffer.Length0 && 0 <= j < buffer.Length1 ==> buffer[i, j] == Pattern(address, i)
  }

  ghost predicate Zero(buffer: array2<bv64>)
    reads buffer
  {
    forall i, j :: 0 <= i < buffer.Length0 && 0 <= j < buffer.Length1 ==> buffer[i, j] == 0
  }

  method FillOrTest(buffer: array2<bv64>, address: bv64, kind: Kind) returns (ok: bool)
    requires buffer.Length0 <= 0x1_0000_0000
    modifies buffer
    ensures kind == Fill ==> ok && Filled(buffer, address)
    ensures kind != Fill ==> forall i, j :: 0 <= i < buffer.Length0 && 0 <= j < buffer.Length1 ==> buffer[i, j] == old(buffer[i, j])
    ensures kind == AfterWrite ==> (ok <==> Filled(buffer, address))
    ensures kind == AfterUnmap ==> (ok <==> Zero(buffer))
    ensures kind == Ignored ==> ok
  {
    hide Pattern;
    for i := 0 to buffer.Length0
      invariant kind != Fill ==> forall k, j :: 0 <= k < buffer.Length0 && 0 <= j < buffer.Length1 ==> buffer[k, j] == old(buffer[k, j])
      invariant kind == Fill || kind == AfterWrite ==>
        forall k, j :: 0 <= k < i && 0 <= j < buffer.Length1 ==> buffer[k, j] == Pattern(address, k)
      invariant kind == AfterUnmap ==> forall k, j :: 0 <= k < i && 0 <= j < buffer.Length1 ==> buffer[k, j] == 0
    {
      var word := Pattern(address, i);
      for j := 0 to buffer.Length1
        invariant kind != Fill ==> forall k, l :: 0 <= k < buffer.Length0 && 0 <= l < buffer.Length1 ==> buffer[k, l] == old(buffer[k, l])
        invariant kind == Fill || kind == AfterWrite ==>
          forall k, l :: 0 <= k < i && 0 <= l < buffer.Length1 ==> buffer[k, l] == Pattern(address, k)
        invariant kind == Fill || kind == AfterWrite ==> forall l :: 0 <= l < j ==> buffer[i, l] == word
        invariant kind == AfterUnmap ==> forall k, l :: 0 <= k < i && 0 <= l < buffer.Length1 ==> buffer[k, l] == 0
        invariant kind == AfterUnmap ==> forall l :: 0 <= l < j ==> buffer[i, l] == 0
      {
        if kind == Fill {
          buffer[i, j] := word;
        } else if kind == AfterWrite {
          if buffer[i, j] != word { return false; }
        } else if kind == AfterUnmap {
          if buffer[i, j] != 0 { return false; }
        }
      }
    }
    return true;
  }

  lemma FirstKeys(a: bv64, b: bv64)
    ensures Key(a, 0) == Key(b, 0) <==> a == b
    ensures Key(a, 0) == 0 <==> a == 0xffff_ffff_ffff_ffff
    ensures !(Key(a, 0) == 0 && Key(a, 1) == 0)
  {
  }

  // A filled buffer of at least one word passes the test of its own address and of no other.
  lemma AcceptedOnlyAtItsAddress(buffer: array2<bv64>, a: bv64, b: bv64)
    requires 0 < buffer.Length0 <= 0x1_0000_0000 && 0 < buffer.Length1
    requires Filled(buffer, a)
    ensures Filled(buffer, b) <==> a == b
  {
    FirstKeys(a, b);
    Injective(Key(a, 0), Key(b, 0));
    hide Mix64, Key;
    assert buffer[0, 0] == Pattern(a, 0);
  }

  // It passes for unmapped only where the pattern itself is zero: in a single block whose
  // address plus one wraps to zero.
  lemma UnmappedOnlyAtTheWrap(buffer: array2<bv64>, a: bv64)
    requires 0 < buffer.Length0 <= 0x1_0000_0000 && 0 < buffer.Length1
    requires Filled(buffer, a)
    ensures Zero(buffer) <==> buffer.Length0 == 1 && a == 0xffff_ffff_ffff_ffff
  {
    FirstKeys(a, a);
    OnlyZeroToZero(Key(a, 0));
    if buffer.Length0 > 1 { OnlyZeroToZero(Key(a, 1)); }
    hide Mix64, Key;
    assert buffer[0, 0] == Pattern(a, 0);
    if buffer.Length0 > 1 { assert buffer[1, 0] == Pattern(a, 1); }
  }

  // The pattern goes by the block's address alone: two blocks have the same exactly if they are
  // the same block of the disk, whatever buffers they are in.
  lemma PatternIsTheBlocks(a: bv64, i: nat, b: bv64, j: nat)
    requires i < 0x1_0000_0000 && j < 0x1_0000_0000
    ensures Pattern(a, i) == Pattern(b, j) <==> a + (i as bv64) == b + (j as bv64)
  {
    hide Mix64;
    NextMixes(a + (i as bv64), b + (j as bv64));
  }

  lemma NextMixes(u: bv64, v: bv64)
    ensures Mix64(u + 1) == Mix64(v + 1) <==> u == v
  {
    hide Mix64;
    if u != v {
      NextDiffers(u, v);
      Injective(u + 1, v + 1);
    }
  }

  lemma NextDiffers(u: bv64, v: bv64)
    requires u != v
    ensures u + 1 != v + 1
  {
  }
}
