/**
 Splitting one SRB into chunks of at most MaxTransferLength bytes
 (SpdSrbExecuteScsiPrepare and SpdSrbExecuteScsiComplete in src/sys/scsi.c).
 */
module Transfer {
  import opened Bytes
  import opened Cdb
  import opened IoqSpec
  import opened Scsi
  import opened Wrappers

  // The part of the SRB extension the callbacks use: SystemDataLength, ChunkOffset and the
  // bytes of SystemDataBuffer.
  datatype Xfer = Xfer(cdb: CommandBlock, length: nat, offset: nat, buffer: Data)

  ghost predicate Valid(p: UnitParams, x: Xfer) {
    && Provisionable(p) && IsRangeOp(x.cdb[0])
    && x.offset <= x.length <= |x.buffer| && x.length < TWO_32
  }

  datatype Request = Request(operation: Operation, address: nat, count: nat, fua: bool)

  function ChunkLength(p: UnitParams, x: Xfer): nat
    requires x.offset <= x.length
  {
    var rest := x.length - x.offset;
    if rest > p.maxTransferLength then p.maxTransferLength else rest
  }

  // Whole blocks in n bytes.
  function Blocks(n: nat, blockLength: nat): nat
    requires blockLength > 0
  {
    n / blockLength
  }

  // What Prepare puts in the request.
  function Prepared(p: UnitParams, x: Xfer): Request
    requires Provisionable(p) && IsRangeOp(x.cdb[0]) && x.offset <= x.length
  {
    var r := GetRange(x.cdb);
    var fua := if p.cacheSupported then r.fua else true;
    if IsFlush(x.cdb[0]) then Request(Flush, r.address, r.count, false)
    else Request(if IsRead(x.cdb[0]) then Read else Write,
                 r.address + Blocks(x.offset, p.blockLength), Blocks(ChunkLength(p, x), p.blockLength), fua)
  }

  // What Prepare leaves in the user buffer: the chunk's bytes for a WRITE.
  function PreparedData(p: UnitParams, x: Xfer, data: Data): (d: Data)
    requires x.offset <= x.length <= |x.buffer| && |data| == p.maxTransferLength
    ensures |d| == |data|
  {
    var n := ChunkLength(p, x);
    if IsWrite(x.cdb[0]) then x.buffer[x.offset..x.offset + n] + data[n..] else data
  }

  // What Complete does to the extension, `data` being the user buffer if there is one.
  function Completed(p: UnitParams, x: Xfer, good: bool, data: Option<Data>): (Xfer, SrbStatus)
    requires Valid(p, x) && (data.Some? ==> |data.value| == p.maxTransferLength)
  {
    var n := ChunkLength(p, x);
    var bytes := if data.Some? then data.value[..n] else seq(n, _ => 0 as byte);
    var x' := if IsRead(x.cdb[0])
              then x.(buffer := x.buffer[..x.offset] + bytes + x.buffer[x.offset + n..], offset := x.offset + n)
              else x.(offset := x.offset + n);
    if !good then (x, Error)
    else if IsFlush(x.cdb[0]) then (x, Success)
    else (x', if x'.offset >= x'.length then Success else Pending)
  }

  // The callbacks on the extension and the buffers they change in place.
  class SrbTransfer {
    const params: UnitParams
    const cdb: CommandBlock
    const length: nat
    var offset: nat
    const buffer: array<byte>

    constructor (params: UnitParams, cdb: CommandBlock, length: nat, buffer: array<byte>)
      requires Provisionable(params) && IsRangeOp(cdb[0]) && length <= buffer.Length && length < TWO_32
      ensures this.buffer == buffer && this.params == params
      ensures Valid(params, Abs()) && Abs() == Xfer(cdb, length, 0, buffer[..])
    {
      this.params, this.cdb, this.length, this.offset, this.buffer := params, cdb, length, 0, buffer;
    }

    function Abs(): Xfer
      reads this, buffer
    {
      Xfer(cdb, length, offset, buffer[..])
    }

    // RtlCopyMemory(dst + at, src + from, n).
    static method Copy(dst: array<byte>, at: nat, src: array<byte>, from: nat, n: nat)
      requires dst != src && at + n <= dst.Length && from + n <= src.Length
      modifies dst
      ensures dst[..] == old(dst[..at]) + src[from..from + n] + old(dst[at + n..])
    {
      for i := 0 to n
        invariant forall k :: at <= k < at + i ==> dst[k] == src[from + k - at]
        invariant forall k :: 0 <= k < dst.Length && !(at <= k < at + i) ==> dst[k] == old(dst[k])
      {
        dst[at + i] := src[from + i];
      }
      assert dst[..] == old(dst[..at]) + src[from..from + n] + old(dst[at + n..]);
    }

    method Prepare(data: array<byte>) returns (request: Request)
      requires Valid(params, Abs()) && data != buffer && data.Length == params.maxTransferLength
      modifies data
      ensures request == Prepared(params, Abs()) && Abs() == old(Abs())
      ensures data[..] == PreparedData(params, Abs(), old(data[..]))
    {
      hide GetRange, Blocks;
      var r := GetRange(cdb);
      if IsFlush(cdb[0]) {
        return Request(Flush, r.address, r.count, false);
      }
      var chunk := length - offset;
      if chunk > params.maxTransferLength { chunk := params.maxTransferLength; }
      request := Request(if IsRead(cdb[0]) then Read else Write,
                         r.address + Blocks(offset, params.blockLength), Blocks(chunk, params.blockLength),
                         if params.cacheSupported then r.fua else true);
      if IsWrite(cdb[0]) {
        Copy(data, 0, buffer, offset, chunk);
      }
    }

    method Complete(good: bool, data: array?<byte>) returns (status: SrbStatus)
      requires Valid(params, Abs()) && data != buffer && (data != null ==> data.Length == params.maxTransferLength)
      modifies this`offset, buffer
      ensures (Abs(), status) == Completed(params, old(Abs()), good, if data == null then None else Some(data[..]))
      ensures data != null ==> data[..] == old(data[..])
      ensures Valid(params, Abs())
    {
      hide GetRange, Provisionable;
      if !good { return Error; }
      if IsFlush(cdb[0]) { return Success; }
      var chunk := length - offset;
      if chunk > params.maxTransferLength { chunk := params.maxTransferLength; }
      if IsRead(cdb[0]) {
        if data != null {
          Copy(buffer, offset, data, 0, chunk);
          assert data[0..chunk] == data[..][..chunk];
        } else {
          var zeros := new byte[chunk](_ => 0);
          Copy(buffer, offset, zeros, 0, chunk);
          assert zeros[0..chunk] == seq(chunk, _ => 0 as byte);
        }
      }
      ghost var was := old(Abs());
      assert was.buffer[..was.offset] == old(buffer[..offset]);
      assert was.buffer[was.offset + chunk..] == old(buffer[offset + chunk..]);
      offset := offset + chunk;
      status := if offset >= length then Success else Pending;
    }
  }
}
