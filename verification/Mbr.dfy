/** The master boot record that src/shared/mbr.c writes for a list of partitions. */
module Mbr {
  import opened Arith
  import opened Bytes

  const SPT: nat := 63
  const HPC: nat := 255
  const CYLINDERS: nat := 1024
  const LAST_CHS_BLOCK: nat := CYLINDERS * HPC * SPT - 1

  const TABLE: nat := 446
  const ENTRY: nat := 16
  const RECORD: nat := 512

  const ERROR_SUCCESS: nat := 0
  const ERROR_INVALID_PARAMETER: nat := 87

  type UInt64 = n: nat | n < TWO_64

  datatype Partition = Partition(kind: byte, active: byte, blockAddress: UInt64, blockCount: UInt64)

  // It is not empty, and it ends where a 32-bit block address can point.
  predicate Acceptable(p: Partition) {
    p.blockCount > 0 && p.blockAddress + p.blockCount <= TWO_32 - 1
  }

  // ----- Cylinder, head and sector -----

  datatype Chs = Chs(cylinder: nat, head: nat, sector: nat)

  // LBA_TO_CHS, and the saturation after it.
  function ToChs(lba: nat): (chs: Chs) {
    var c := lba / (HPC * SPT);
    if CYLINDERS - 1 < c then Chs(CYLINDERS - 1, HPC - 1, SPT) else Chs(c, (lba / SPT) % HPC, lba % SPT + 1)
  }

  // CHS_TO_MBR: the masks and shifts of the second byte written as division and remainder.
  function Pack(chs: Chs): (bs: Data)
    requires chs.head < HPC && chs.cylinder < CYLINDERS
    ensures |bs| == 3
  {
    [chs.head as byte,
     (chs.sector % 0x40 + chs.cylinder / 4 % 0x100 / 0x40 * 0x40) as byte,
     (chs.cylinder % 0x100) as byte]
  }

  // How a reader of the record takes the three bytes, and the block they name.
  function Unpack(bs: Data): Chs
    requires |bs| == 3
  {
    Chs(bs[1] as nat / 0x40 * 0x100 + bs[2] as nat, bs[0] as nat, bs[1] as nat % 0x40)
  }

  function Block(chs: Chs): int {
    (chs.cylinder * HPC + chs.head) * SPT + chs.sector - 1
  }

  function Packed(lba: nat): (bs: Data)
    ensures |bs| == 3
  {
    Pack(ToChs(lba))
  }

  lemma HighBits(c: nat)
    requires c < CYLINDERS
    ensures c / 4 % 0x100 / 0x40 == c / 0x100
  {
  }

  lemma PackRoundTrip(chs: Chs)
    requires chs.cylinder < CYLINDERS && chs.head < HPC && 1 <= chs.sector <= SPT
    ensures Unpack(Pack(chs)) == chs
  {
    var c, s := chs.cylinder, chs.sector;
    HighBits(c);
    assert s % 0x40 == s;
    QuotientUnique(0x40 * (c / 0x100) + s, 0x40, c / 0x100, s);
  }

  lemma ToChsBlock(lba: nat)
    ensures var chs := ToChs(lba);
      && chs.cylinder < CYLINDERS && chs.head < HPC && 1 <= chs.sector <= SPT
      && Block(chs) == if lba <= LAST_CHS_BLOCK then lba else LAST_CHS_BLOCK
  {
    var c := lba / (HPC * SPT);
    var h := lba / SPT % HPC;
    assert lba == lba / SPT * SPT + lba % SPT;
    assert lba / SPT == lba / SPT / HPC * HPC + h;
    assert lba / SPT / HPC == c by {
      var q := lba / SPT / HPC;
      QuotientUnique(lba, HPC * SPT, q, h * SPT + lba % SPT);
    }
  }

  // The three bytes name the block itself, or the last one they can name.
  lemma PackedBlock(lba: nat)
    ensures Block(Unpack(Packed(lba))) == if lba <= LAST_CHS_BLOCK then lba else LAST_CHS_BLOCK
  {
    hide Block, Pack, Unpack, ToChs;
    ToChsBlock(lba);
    PackRoundTrip(ToChs(lba));
  }

  // ----- The record -----

  function ToLittleEndian4(v: nat): (bs: Data)
    ensures |bs| == 4
  {
    [(v % 0x100) as byte, (v / 0x100 % 0x100) as byte, (v / 0x1_0000 % 0x100) as byte, (v / 0x100_0000 % 0x100) as byte]
  }

  lemma LittleEndianSum(bs: Data)
    requires |bs| == 4
    ensures LittleEndian(bs) == bs[0] as nat + 0x100 * bs[1] as nat + 0x1_0000 * bs[2] as nat + 0x100_0000 * bs[3] as nat
    ensures LittleEndian(bs) < TWO_32
  {
    assert bs[1..][1..][1..] == [bs[3]] && bs[1..][1..] == [bs[2], bs[3]] && bs[1..] == [bs[1], bs[2], bs[3]];
    assert LittleEndian([bs[3]]) == bs[3] as nat;
    assert LittleEndian([bs[2], bs[3]]) == bs[2] as nat + 0x100 * bs[3] as nat;
  }

  lemma LittleEndian4(v: nat)
    requires v < TWO_32
    ensures LittleEndian(ToLittleEndian4(v)) == v
  {
    hide LittleEndian;
    LittleEndianSum(ToLittleEndian4(v));
    assert v / 0x100 / 0x100 == v / 0x1_0000 && v / 0x1_0000 / 0x100 == v / 0x100_0000;
  }

  // The 16 bytes of a partition. LastCHS is taken from the first block after the partition.
  function Entry(p: Partition): (bs: Data)
    ensures |bs| == ENTRY
  {
    [p.active] + Packed(p.blockAddress) + [p.kind] + Packed(p.blockAddress + p.blockCount)
    + ToLittleEndian4(p.blockAddress) + ToLittleEndian4(p.blockCount)
  }

  function EntryAt(record: Data, i: nat): (bs: Data)
    requires |record| == RECORD && i < 4
    ensures |bs| == ENTRY
  {
    record[TABLE + i * ENTRY..TABLE + (i + 1) * ENTRY]
  }

  const BOOT: Data := [0xCD, 0x18, 0xF4, 0xEB, 0xFD]
  const MAGIC: Data := [0x55, 0xAA]

  // A record holding these partitions and nothing else.
  predicate Holds(record: Data, ps: seq<Partition>)
    requires |record| == RECORD && |ps| <= 4
  {
    && record[..5] == BOOT && record[510..] == MAGIC
    && (forall k :: 5 <= k < TABLE ==> record[k] == 0)
    && (forall i :: 0 <= i < |ps| ==> EntryAt(record, i) == Entry(ps[i]))
    && (forall k :: TABLE + |ps| * ENTRY <= k < 510 ==> record[k] == 0)
  }

  // What a reader of the record finds: the entries with a block count, in order.
  function Partitions(record: Data, i: nat): seq<Partition>
    requires |record| == RECORD && i <= 4
    decreases 4 - i
  {
    if i == 4 then []
    else
      var p := Decoded(EntryAt(record, i));
      (if p.blockCount > 0 then [p] else []) + Partitions(record, i + 1)
  }

  function Decoded(bs: Data): Partition
    requires |bs| == ENTRY
  {
    LittleEndianSum(bs[8..12]);
    LittleEndianSum(bs[12..16]);
    Partition(bs[4], bs[0], LittleEndian(bs[8..12]), LittleEndian(bs[12..16]))
  }

  lemma HoldsMore(was: Data, record: Data, ps: seq<Partition>, p: Partition)
    requires |was| == RECORD && |record| == RECORD && |ps| < 4 && Holds(was, ps)
    requires EntryAt(record, |ps|) == Entry(p)
    requires record[..TABLE + |ps| * ENTRY] == was[..TABLE + |ps| * ENTRY]
    requires record[TABLE + (|ps| + 1) * ENTRY..] == was[TABLE + (|ps| + 1) * ENTRY..]
    ensures Holds(record, ps + [p])
  {
    hide Entry;
    var at := TABLE + |ps| * ENTRY;
    forall k | 0 <= k < RECORD && !(at <= k < at + ENTRY) ensures record[k] == was[k] {
      if k < at { assert record[..at][k] == was[..at][k]; }
      else { assert record[at + ENTRY..][k - at - ENTRY] == was[at + ENTRY..][k - at - ENTRY]; }
    }
    forall i | 0 <= i < |ps| ensures EntryAt(record, i) == Entry(ps[i]) {
      assert EntryAt(record, i) == EntryAt(was, i);
    }
  }

  // SpdDefinePartitionTable, with `count` partitions at `partitions`.
  method DefinePartitionTable(partitions: seq<Partition>, count: nat, buffer: array<byte>) returns (error: nat)
    requires buffer.Length == RECORD && (count <= 4 ==> count <= |partitions|)
    modifies buffer
    ensures error == ERROR_SUCCESS || error == ERROR_INVALID_PARAMETER
    ensures error == ERROR_SUCCESS <==> count <= 4 && forall i :: 0 <= i < count ==>
      partitions[i].blockCount > 0 && partitions[i].blockAddress + partitions[i].blockCount <= 0xffff_ffff
    ensures error == ERROR_SUCCESS ==> Holds(buffer[..], partitions[..count])
    ensures error != ERROR_SUCCESS ==> buffer[..] == old(buffer[..])
  {
    hide Holds;
    if 4 < count { return ERROR_INVALID_PARAMETER; }
    for i := 0 to count
      invariant forall j :: 0 <= j < i ==> Acceptable(partitions[j])
    {
      var blockAddress := partitions[i].blockAddress;
      var endBlockAddress := (blockAddress + partitions[i].blockCount) % TWO_64;
      if endBlockAddress <= blockAddress || endBlockAddress > TWO_32 - 1 {
        assert !Acceptable(partitions[i]);
        return ERROR_INVALID_PARAMETER;
      }
    }
    Clear(buffer);
    assert partitions[..0] == [];
    for i := 0 to count
      invariant Holds(buffer[..], partitions[..i])
    {
      ghost var was := buffer[..];
      WriteEntry(buffer, i, partitions[i]);
      HoldsMore(was, buffer[..], partitions[..i], partitions[i]);
      assert partitions[..i + 1] == partitions[..i] + [partitions[i]];
    }
    return ERROR_SUCCESS;
  }

  // The copy of the record without partitions.
  method Clear(buffer: array<byte>)
    requires buffer.Length == RECORD
    modifies buffer
    ensures Holds(buffer[..], [])
  {
    forall k | 0 <= k < RECORD {
      buffer[k] := if k < 5 then BOOT[k] else if k >= 510 then MAGIC[k - 510] else 0;
    }
  }

  method WriteEntry(buffer: array<byte>, i: nat, p: Partition)
    requires buffer.Length == RECORD && i < 4 && Acceptable(p)
    modifies buffer
    ensures EntryAt(buffer[..], i) == Entry(p)
    ensures buffer[..TABLE + i * ENTRY] == old(buffer[..TABLE + i * ENTRY])
    ensures buffer[TABLE + (i + 1) * ENTRY..] == old(buffer[TABLE + (i + 1) * ENTRY..])
  {
    hide Packed, ToLittleEndian4, Entry;
    var at := TABLE + i * ENTRY;
    WriteTail(buffer, at + 4, p);
    ghost var tail := buffer[at + 4..];
    assert buffer[..at] == buffer[..at + 4][..at] == old(buffer[..at]);
    WriteBlock(buffer, at, p.active, p.blockAddress % TWO_32);
    assert buffer[at..] == buffer[at..at + 4] + tail;
    assert buffer[at..at + 16] == buffer[at..at + 4] + tail[..12];
    assert buffer[at + 16..] == tail[12..];
    EntryParts(p);
  }

  // An entry from its type on.
  method WriteTail(buffer: array<byte>, at: nat, p: Partition)
    requires at + 12 <= buffer.Length && Acceptable(p)
    modifies buffer
    ensures buffer[at..][..12] == [p.kind] + Packed(p.blockAddress + p.blockCount)
      + (ToLittleEndian4(p.blockAddress) + ToLittleEndian4(p.blockCount))
    ensures buffer[..at] == old(buffer[..at]) && buffer[at..][12..] == old(buffer[at + 12..])
  {
    hide Packed, ToLittleEndian4;
    var endBlockAddress := (p.blockAddress + p.blockCount) % TWO_64;
    WriteRange(buffer, at + 4, p.blockAddress, p.blockCount);
    assert buffer[..at] == buffer[..at + 4][..at] == old(buffer[..at]);
    ghost var range := buffer[at + 4..];
    assert range == range[..8] + range[8..] && range[..8] == buffer[at + 4..at + 12];
    assert range[8..] == buffer[at + 12..];
    WriteBlock(buffer, at, p.kind, endBlockAddress % TWO_32);
    assert buffer[at..] == buffer[at..at + 4] + range;
    assert buffer[at..][..12] == buffer[at..at + 4] + range[..8];
    assert buffer[at..][12..] == range[8..];
  }

  lemma EntryParts(p: Partition)
    ensures Entry(p) == ([p.active] + Packed(p.blockAddress)) + ([p.kind] + Packed(p.blockAddress + p.blockCount)
      + (ToLittleEndian4(p.blockAddress) + ToLittleEndian4(p.blockCount)))
  {
    hide Packed, ToLittleEndian4;
  }

  // The two block numbers, lowest byte first.
  method WriteRange(buffer: array<byte>, at: nat, blockAddress: nat, blockCount: nat)
    requires at + 8 <= buffer.Length
    modifies buffer
    ensures buffer[at..at + 8] == ToLittleEndian4(blockAddress) + ToLittleEndian4(blockCount)
    ensures buffer[..at] == old(buffer[..at]) && buffer[at + 8..] == old(buffer[at + 8..])
  {
    buffer[at], buffer[at + 4] := (blockAddress % 0x100) as byte, (blockCount % 0x100) as byte;
    buffer[at + 1], buffer[at + 5] := (blockAddress / 0x100 % 0x100) as byte, (blockCount / 0x100 % 0x100) as byte;
    buffer[at + 2], buffer[at + 6] := (blockAddress / 0x1_0000 % 0x100) as byte, (blockCount / 0x1_0000 % 0x100) as byte;
    buffer[at + 3], buffer[at + 7] := (blockAddress / 0x100_0000 % 0x100) as byte, (blockCount / 0x100_0000 % 0x100) as byte;
  }

  // A byte and the cylinder, head and sector of a block.
  method WriteBlock(buffer: array<byte>, at: nat, b: byte, lba: nat)
    requires at + 4 <= buffer.Length
    modifies buffer
    ensures buffer[at..at + 4] == [b] + Packed(lba)
    ensures buffer[..at] == old(buffer[..at]) && buffer[at + 4..] == old(buffer[at + 4..])
  {
    hide Pack, ToChs;
    ToChsBlock(lba);
    var bs := Pack(ToChs(lba));
    buffer[at] := b;
    forall k | 0 <= k < 3 { buffer[at + 1 + k] := bs[k]; }
  }

  // ----- What the record says -----

  lemma EntryRoundTrip(p: Partition)
    requires Acceptable(p)
    ensures Decoded(Entry(p)) == p
  {
    hide Packed, LittleEndian, ToLittleEndian4;
    var bs := Entry(p);
    LittleEndian4(p.blockAddress);
    LittleEndian4(p.blockCount);
    assert bs[8..12] == ToLittleEndian4(p.blockAddress);
    assert bs[12..16] == ToLittleEndian4(p.blockCount);
  }

  // FirstCHS and LastCHS name the first block and the first block after the partition, as far
  // as they can; so the first never lies behind the last.
  lemma EntryChs(p: Partition)
    requires Acceptable(p)
    ensures var first, last := Block(Unpack(Entry(p)[1..4])), Block(Unpack(Entry(p)[5..8]));
      && first == (if p.blockAddress <= LAST_CHS_BLOCK then p.blockAddress else LAST_CHS_BLOCK)
      && last == (if p.blockAddress + p.blockCount <= LAST_CHS_BLOCK then p.blockAddress + p.blockCount else LAST_CHS_BLOCK)
      && first <= last && (first == last <==> p.blockAddress >= LAST_CHS_BLOCK)
  {
    hide Block, Unpack, Packed, ToLittleEndian4;
    PackedBlock(p.blockAddress);
    PackedBlock(p.blockAddress + p.blockCount);
    assert Entry(p)[1..4] == Packed(p.blockAddress);
    assert Entry(p)[5..8] == Packed(p.blockAddress + p.blockCount);
  }

  // The MBR layout has LastCHS name the partition's last block. It does exactly when that block
  // lies beyond the last one that the three bytes can name.
  lemma LastChsExact(p: Partition)
    requires Acceptable(p)
    ensures Entry(p)[5..8] == Packed(p.blockAddress + p.blockCount - 1) <==> p.blockAddress + p.blockCount > LAST_CHS_BLOCK
  {
    var end := p.blockAddress + p.blockCount;
    assert Entry(p)[5..8] == Packed(end) by { hide Packed, ToLittleEndian4; }
    hide Block, Unpack, Packed;
    PackedBlock(end);
    PackedBlock(end - 1);
    if end > LAST_CHS_BLOCK { Saturated(end - 1, end); }
  }

  lemma Saturated(a: nat, b: nat)
    requires LAST_CHS_BLOCK <= a && LAST_CHS_BLOCK <= b
    ensures Packed(a) == Packed(b)
  {
    hide Pack;
    SaturatedChs(a);
    SaturatedChs(b);
  }

  lemma SaturatedChs(a: nat)
    requires LAST_CHS_BLOCK <= a
    ensures ToChs(a) == Chs(CYLINDERS - 1, HPC - 1, SPT)
  {
    ToChsBlock(a);
    var chs := ToChs(a);
    assert Block(chs) == LAST_CHS_BLOCK;
  }

  // A one-block partition at block 0 is given block 1 as its last.
  lemma LastChsOfOneBlock()
    ensures var p := Partition(7, 0, 0, 1);
      Acceptable(p) && Block(Unpack(Entry(p)[5..8])) == 1
  {
    EntryChs(Partition(7, 0, 0, 1));
  }

  lemma ChsMonotone(a: nat, b: nat)
    requires a <= b
    ensures Block(Unpack(Packed(a))) <= Block(Unpack(Packed(b)))
  {
    hide Block, Unpack, Packed;
    PackedBlock(a);
    PackedBlock(b);
  }

  lemma UnusedEntry(record: Data, i: nat)
    requires |record| == RECORD && i < 4
    requires forall k :: TABLE + i * ENTRY <= k < TABLE + (i + 1) * ENTRY ==> record[k] == 0
    ensures Decoded(EntryAt(record, i)).blockCount == 0
  {
    hide LittleEndian;
    var bs := EntryAt(record, i);
    assert forall k :: 12 <= k < ENTRY ==> bs[k] == record[TABLE + i * ENTRY + k];
    LittleEndianSum(bs[12..16]);
  }

  lemma {:induction false} PartitionsFrom(record: Data, ps: seq<Partition>, i: nat)
    requires |record| == RECORD && |ps| <= 4 && i <= 4 && Holds(record, ps)
    requires forall j :: 0 <= j < |ps| ==> Acceptable(ps[j])
    ensures Partitions(record, i) == if i < |ps| then ps[i..] else []
    decreases 4 - i
  {
    hide Entry, Decoded;
    if i < 4 {
      PartitionsFrom(record, ps, i + 1);
      if i < |ps| { EntryRoundTrip(ps[i]); } else { UnusedEntry(record, i); }
    }
  }

  // Reading the record gives the partitions back: all of them, in order, and no other.
  lemma TableRoundTrip(record: Data, ps: seq<Partition>)
    requires |record| == RECORD && |ps| <= 4 && Holds(record, ps)
    requires forall j :: 0 <= j < |ps| ==> Acceptable(ps[j])
    ensures Partitions(record, 0) == ps
  {
    hide Holds, Partitions;
    PartitionsFrom(record, ps, 0);
  }
}
