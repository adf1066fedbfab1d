/**
 Chunking refines one transfer: the chunks of an SRB partition its range, and against a device
 that is an array of blocks they have the effect of one operation.
 */
module TransferRuns {
  import opened Arith
  import opened Bytes
  import opened Cdb
  import opened IoqSpec
  import opened Scsi
  import opened Transfer
  import opened Wrappers

  // ----- Arithmetic of whole blocks -----

  lemma MultipleIsWhole(k: nat, blockLength: nat)
    requires blockLength > 0
    ensures (k * blockLength) % blockLength == 0 && Blocks(k * blockLength, blockLength) == k
  {
    QuotientUnique(k * blockLength, blockLength, k, 0);
  }

  lemma SumOfWholes(a: nat, b: nat, blockLength: nat)
    requires blockLength > 0 && a % blockLength == 0 && b % blockLength == 0
    ensures (a + b) % blockLength == 0
    ensures Blocks(a + b, blockLength) == Blocks(a, blockLength) + Blocks(b, blockLength)
  {
    var k := Blocks(a, blockLength) + Blocks(b, blockLength);
    assert a == Blocks(a, blockLength) * blockLength && b == Blocks(b, blockLength) * blockLength;
    assert a + b == k * blockLength;
    QuotientUnique(a + b, blockLength, k, 0);
  }

  lemma DifferenceOfWholes(a: nat, b: nat, blockLength: nat)
    requires blockLength > 0 && a % blockLength == 0 && b % blockLength == 0 && b <= a
    ensures (a - b) % blockLength == 0
  {
    var k := Blocks(a, blockLength) - Blocks(b, blockLength);
    assert a == Blocks(a, blockLength) * blockLength && b == Blocks(b, blockLength) * blockLength;
    assert a - b == k * blockLength;
    QuotientUnique(a - b, blockLength, k, 0);
  }

  lemma FloorTimes(n: nat, blockLength: nat)
    requires blockLength > 0
    ensures Blocks(n, blockLength) * blockLength <= n
    ensures n % blockLength == 0 ==> Blocks(n, blockLength) * blockLength == n
    ensures n >= blockLength ==> Blocks(n, blockLength) > 0
  {
    assert n == Blocks(n, blockLength) * blockLength + n % blockLength;
  }

  // ----- The chunks of one SRB -----

  ghost predicate Transferring(p: UnitParams, x: Xfer) {
    Valid(p, x) && !IsFlush(x.cdb[0])
  }

  // The extension after a good response without data: what the next chunk depends on.
  function Next(p: UnitParams, x: Xfer): Xfer
    requires Valid(p, x)
  {
    x.(offset := x.offset + ChunkLength(p, x))
  }

  // The requests issued for an SRB when every response is good.
  function Chunks(p: UnitParams, x: Xfer): (cs: seq<Request>)
    requires Transferring(p, x)
    ensures cs != [] && cs[0] == Prepared(p, x)
    decreases x.length - x.offset
  {
    if Next(p, x).offset >= x.length then [Prepared(p, x)] else [Prepared(p, x)] + Chunks(p, Next(p, x))
  }

  // Chunks follows Complete: the SRB is reposted exactly when there is a further chunk.
  lemma CompletedFollowsChunks(p: UnitParams, x: Xfer, data: Option<Data>)
    requires Transferring(p, x) && (data.Some? ==> |data.value| == p.maxTransferLength)
    ensures var (x', status) := Completed(p, x, true, data);
      && Transferring(p, x') && x'.offset == Next(p, x).offset && x'.length == x.length && x'.cdb == x.cdb
      && (status == Pending <==> |Chunks(p, x)| > 1)
      && (status == Pending ==> x'.offset > x.offset && Chunks(p, x)[1..] == Chunks(p, Next(p, x)))
      && (status != Pending ==> status == Success && x'.offset == x'.length)
  {
  }

  // The status of an answered SRB: the device's failure is an error and changes nothing, an
  // answered flush or a last chunk is a success, and a chunk before the last one is reposted.
  lemma AnsweredStatus(p: UnitParams, x: Xfer, good: bool, data: Option<Data>)
    requires Valid(p, x) && (data.Some? ==> |data.value| == p.maxTransferLength)
    ensures var (x', status) := Completed(p, x, good, data);
      var flush := x.cdb[0] == 0x35 || x.cdb[0] == 0x91;
      && (status == Error <==> !good)
      && (status == Success <==> good && (flush || x.length - x.offset <= p.maxTransferLength))
      && (status == Pending <==> good && !flush && p.maxTransferLength < x.length - x.offset)
      && (!good || flush ==> x' == x)
      && (good && !flush ==> x'.offset == x.offset + if status == Pending then p.maxTransferLength else x.length - x.offset)
  {
  }

  // What a good response leaves in the SRB's buffer: a READ's chunk in its place, zeros if there
  // was no user buffer; every other byte, and all of them for a WRITE, is as it was.
  lemma AnsweredBuffer(p: UnitParams, x: Xfer, data: Option<Data>, k: nat)
    requires Valid(p, x) && (data.Some? ==> |data.value| == p.maxTransferLength) && k < |x.buffer|
    ensures var x', end := Completed(p, x, true, data).0, x.offset + ChunkLength(p, x);
      && |x'.buffer| == |x.buffer|
      && x'.buffer[k] ==
           if !IsRead(x.cdb[0]) || !(x.offset <= k < end) then x.buffer[k]
           else if data.Some? then data.value[k - x.offset] else 0
  {
    hide GetRange;
  }

  // The number of rounds: ceil(length / MaxTransferLength), and one for an empty transfer.
  lemma {:induction false} RoundCount(p: UnitParams, x: Xfer)
    requires Transferring(p, x)
    ensures var rest := x.length - x.offset;
      |Chunks(p, x)| == if rest == 0 then 1 else (rest + p.maxTransferLength - 1) / p.maxTransferLength
    decreases x.length - x.offset
  {
    var rest := x.length - x.offset;
    var m := p.maxTransferLength;
    if rest > m {
      RoundCount(p, Next(p, x));
      CeilStep(rest, m);
    } else if rest > 0 {
      CeilOne(rest, m);
    }
  }

  lemma CeilStep(rest: nat, m: nat)
    requires rest > m > 0
    ensures (rest + m - 1) / m == 1 + (rest - m + m - 1) / m
  {
    var q := (rest - 1) / m;
    assert rest - 1 == q * m + (rest - 1) % m;
    assert rest - 1 + m == (q + 1) * m + (rest - 1) % m;
    QuotientUnique(rest - 1 + m, m, q + 1, (rest - 1) % m);
  }

  lemma CeilOne(rest: nat, m: nat)
    requires 0 < rest <= m
    ensures (rest + m - 1) / m == 1
  {
    QuotientUnique(rest + m - 1, m, 1, rest - 1);
  }

  // cs are consecutive, non-empty, and together exactly `count` blocks from `address`.
  ghost predicate Covers(cs: seq<Request>, address: nat, count: nat) {
    if cs == [] then count == 0
    else cs[0].address == address && 0 < cs[0].count <= count
         && Covers(cs[1..], address + cs[0].count, count - cs[0].count)
  }

  ghost predicate Aligned(p: UnitParams, x: Xfer)
    requires Provisionable(p)
  {
    x.offset % p.blockLength == 0 && x.length % p.blockLength == 0
  }

  lemma AlignedNext(p: UnitParams, x: Xfer)
    requires Transferring(p, x) && Aligned(p, x)
    ensures ChunkLength(p, x) % p.blockLength == 0
    ensures Aligned(p, Next(p, x))
    ensures Blocks(Next(p, x).offset, p.blockLength) == Blocks(x.offset, p.blockLength) + Prepared(p, x).count
  {
    DifferenceOfWholes(x.length, x.offset, p.blockLength);
    SumOfWholes(x.offset, ChunkLength(p, x), p.blockLength);
  }

  // The blocks not yet transferred.
  function Left(p: UnitParams, x: Xfer): int
    requires Provisionable(p)
  {
    Blocks(x.length, p.blockLength) - Blocks(x.offset, p.blockLength)
  }

  function At(p: UnitParams, x: Xfer): nat
    requires Provisionable(p) && IsRangeOp(x.cdb[0])
  {
    GetRange(x.cdb).address + Blocks(x.offset, p.blockLength)
  }

  lemma OneChunk(p: UnitParams, x: Xfer)
    requires Transferring(p, x) && Aligned(p, x) && x.offset < x.length
    ensures var x' := Next(p, x); var c := Prepared(p, x);
      && Aligned(p, x') && x.offset < x'.offset <= x.length
      && c.address == At(p, x) && 0 < c.count <= Left(p, x)
      && At(p, x') == At(p, x) + c.count && Left(p, x') == Left(p, x) - c.count >= 0
      && (x'.offset == x.length ==> Left(p, x') == 0)
  {
    var bl := p.blockLength;
    var x' := Next(p, x);
    AlignedNext(p, x);
    ChunkHasBlock(p, x);
    DifferenceOfWholes(x.length, x'.offset, bl);
    SumOfWholes(x'.offset, x.length - x'.offset, bl);
    hide Blocks, GetRange;
  }

  lemma ChunkHasBlock(p: UnitParams, x: Xfer)
    requires Transferring(p, x) && Aligned(p, x) && x.offset < x.length
    ensures Prepared(p, x).count > 0
  {
    AlignedNext(p, x);
    FloorTimes(ChunkLength(p, x), p.blockLength);
  }

  lemma {:induction false} AlignedChunksCover(p: UnitParams, x: Xfer)
    requires Transferring(p, x) && Aligned(p, x) && x.offset < x.length
    ensures Left(p, x) >= 0 && Covers(Chunks(p, x), At(p, x), Left(p, x))
    decreases x.length - x.offset
  {
    OneChunk(p, x);
    hide Blocks, ChunkLength, GetRange, Left, At;
    var x' := Next(p, x);
    if x'.offset < x.length {
      AlignedChunksCover(p, x');
      assert Chunks(p, x)[1..] == Chunks(p, x');
    } else {
      assert Chunks(p, x)[1..] == [];
    }
  }

  lemma ChunkFits(p: UnitParams, x: Xfer)
    requires Transferring(p, x)
    ensures Prepared(p, x).count * p.blockLength <= ChunkLength(p, x)
    ensures ChunkLength(p, x) > 0 || Next(p, x).offset >= x.length
  {
    FloorTimes(ChunkLength(p, x), p.blockLength);
  }

  // However the arithmetic falls, chunks carry no more whole blocks than there are bytes for.
  lemma {:induction false} CoveredFits(p: UnitParams, x: Xfer, address: nat, count: nat)
    requires Transferring(p, x) && Covers(Chunks(p, x), address, count)
    ensures count * p.blockLength <= x.length - x.offset
    decreases x.length - x.offset
  {
    ChunkFits(p, x);
    hide Prepared, ChunkLength, Provisionable;
    var cs := Chunks(p, x);
    if Next(p, x).offset < x.length {
      assert cs[1..] == Chunks(p, Next(p, x));
      CoveredFits(p, Next(p, x), address + cs[0].count, count - cs[0].count);
      assert count * p.blockLength == cs[0].count * p.blockLength + (count - cs[0].count) * p.blockLength;
    } else {
      assert cs[1..] == [];
      assert count == cs[0].count;
    }
  }

  // The SRB that SpdScsiPostSrb queues for an accepted READ or WRITE.
  ghost predicate Posted(p: UnitParams, x: Xfer, transferLength: nat) {
    && Provisionable(p) && IsRangeOp(x.cdb[0]) && !IsFlush(x.cdb[0])
    && PostRange(p, x.cdb, transferLength) == Post(x.length)
    && x.offset == 0 && x.length <= |x.buffer|
  }

  lemma WrapsBelow(p: UnitParams, count: nat)
    requires Provisionable(p)
    ensures count * p.blockLength < TWO_32 ==> DataLength(p, count) == count * p.blockLength
    ensures DataLength(p, count) <= count * p.blockLength
    ensures DataLength(p, count) < TWO_32
  {
  }

  // The chunks partition the requested range exactly when BlockCount * BlockLength, a 32-bit
  // product in the driver, does not wrap.
  lemma ChunksPartitionExactly(p: UnitParams, x: Xfer, transferLength: nat)
    requires Posted(p, x, transferLength)
    ensures Transferring(p, x)
    ensures var r := GetRange(x.cdb);
      Covers(Chunks(p, x), r.address, r.count) <==> r.count * p.blockLength < TWO_32
  {
    var r := GetRange(x.cdb);
    PostedOnDisk(p, x.cdb, transferLength);
    WrapsBelow(p, r.count);
    if r.count * p.blockLength < TWO_32 {
      MultipleIsWhole(r.count, p.blockLength);
      Grows(r.count, p.blockLength);
      AlignedChunksCover(p, x);
    }
    if Covers(Chunks(p, x), r.address, r.count) {
      CoveredFits(p, x, r.address, r.count);
    }
  }

  // A READ(16) of 2^32 bytes is such a wrap: it is accepted with no bytes to move, asks user
  // mode for zero blocks, and is complete after that one round.
  lemma WrappedTransferMovesNothing(x: Xfer)
    requires x.cdb == Encode(READ16, Range(0, 0x80_0000, false), 0) && x.length == 0 && x.offset == 0
    ensures var p := UnitParams(0x100_0000, 0x200, 0x1_0000, false, false, false);
      && Posted(p, x, 0) && Transferring(p, x)
      && GetRange(x.cdb).count == 0x80_0000 && |Chunks(p, x)| == 1 && Chunks(p, x)[0].count == 0
  {
    var p := UnitParams(0x100_0000, 0x200, 0x1_0000, false, false, false);
    DecodeEncode(READ16, Range(0, 0x80_0000, false), 0);
    hide Encode, GetRange;
    assert DataLength(p, 0x80_0000) == 0;
    assert !OutOfRange(p, 0, 0x80_0000);
    assert Provisionable(p);
  }

  // Every request prepared for a posted SRB, at any offset the chunking reaches, lies on the
  // disk in unbounded arithmetic and fits the user buffer, whether or not the product wrapped.
  lemma PreparedOnDisk(p: UnitParams, x: Xfer, transferLength: nat)
    requires Provisionable(p) && IsRangeOp(x.cdb[0]) && x.offset <= x.length
    requires PostRange(p, x.cdb, transferLength) == Post(x.length)
    ensures Prepared(p, x).address + Prepared(p, x).count <= p.blockCount
    ensures Prepared(p, x).operation != Flush ==> Prepared(p, x).count * p.blockLength <= p.maxTransferLength
  {
    var r := GetRange(x.cdb);
    PostedOnDisk(p, x.cdb, transferLength);
    WrapsBelow(p, r.count);
    if !IsFlush(x.cdb[0]) {
      TwoFloors(x.offset, ChunkLength(p, x), r.count, p.blockLength);
      FloorTimes(ChunkLength(p, x), p.blockLength);
    }
  }

  // A request says what the command said, in any of its formats: the kind of operation, the
  // address of the chunk, and whether the unit's cache may hold the data back.
  lemma PreparedAsEncoded(p: UnitParams, x: Xfer, op: byte, r: Range, spare: byte)
    requires Provisionable(p) && IsRangeOp(op) && Expressible(FormatOf(op), r)
    requires x.cdb == Encode(op, r, spare) && x.offset <= x.length
    ensures Prepared(p, x).operation == if IsRead(op) then Read else if IsWrite(op) then Write else Flush
    ensures IsFlush(op) ==> Prepared(p, x).address == r.address && Prepared(p, x).count == r.count
    ensures !IsFlush(op) ==>
      && Prepared(p, x).address == r.address + Blocks(x.offset, p.blockLength)
      && (Prepared(p, x).fua <==> r.fua || !p.cacheSupported)
  {
    hide GetRange, Encode, Expressible, Blocks;
    DecodeEncode(op, r, spare);
  }

  lemma TwoFloors(a: nat, b: nat, count: nat, blockLength: nat)
    requires blockLength > 0 && a + b <= count * blockLength
    ensures Blocks(a, blockLength) + Blocks(b, blockLength) <= count
  {
    FloorTimes(a, blockLength);
    FloorTimes(b, blockLength);
    hide Blocks;
    var c := Blocks(a, blockLength) + Blocks(b, blockLength);
    assert c * blockLength == Blocks(a, blockLength) * blockLength + Blocks(b, blockLength) * blockLength;
    assert (c - count) * blockLength <= 0;
    Grows(c - count, blockLength);
  }
}
