/**
 Chunked transfers against a device that is an array of blocks. The chunks of one SRB are
 delivered, executed and completed one after another, while other requests change the rest of
 the disk at any point in between.
 */
module DeviceRuns {
  import Arith
  import opened Bytes
  import opened Cdb
  import opened IoqSpec
  import opened Scsi
  import opened Transfer
  import opened TransferRuns
  import opened Wrappers

  // `data` is the user buffer that travels with the request.
  datatype Phase =
    | Queued
    | Issued(request: Request, data: Data)
    | Executed(request: Request, data: Data)
    | Finished(status: SrbStatus)

  datatype Sys = Sys(disk: Data, x: Xfer, phase: Phase)

  datatype Event =
    | DoPrepare(data: Data)          // the SRB is taken; `data` is what was in the user buffer
    | DoExecute                      // the device carries out the request
    | DoComplete(good: bool)         // the response arrives; a good one, after execution
    | Other(at: nat, bytes: Data)    // some other request writes these bytes

  // The size of n blocks.
  function ByteCount(p: UnitParams, n: nat): nat { n * p.blockLength }

  // d with `bytes` written at `at`: what one write does.
  function Overlay(d: Data, at: nat, bytes: Data): (r: Data)
    requires at + |bytes| <= |d|
    ensures |r| == |d|
  {
    d[..at] + bytes + d[at + |bytes|..]
  }

  ghost predicate CanHappen(p: UnitParams, s: Sys, e: Event) {
    Transferring(p, s.x) &&
    match e
    case DoPrepare(data) => s.phase == Queued && |data| == p.maxTransferLength
    case DoExecute =>
      && s.phase.Issued? && s.phase.request.count * p.blockLength <= |s.phase.data|
      && (s.phase.request.address + s.phase.request.count) * p.blockLength <= |s.disk|
    case DoComplete(good) =>
      (s.phase.Executed? || (s.phase.Issued? && !good)) && |s.phase.data| == p.maxTransferLength
    case Other(at, bytes) => !s.phase.Finished? && at + |bytes| <= |s.disk|
  }

  lemma StartBeforeEnd(p: UnitParams, r: Request)
    ensures (r.address + r.count) * p.blockLength == r.address * p.blockLength + r.count * p.blockLength
  {
  }

  // The device's read and write.
  function Execute(p: UnitParams, s: Sys): Sys
    requires s.phase.Issued? && s.phase.request.count * p.blockLength <= |s.phase.data|
    requires (s.phase.request.address + s.phase.request.count) * p.blockLength <= |s.disk|
  {
    var r := s.phase.request;
    var at, n := r.address * p.blockLength, r.count * p.blockLength;
    StartBeforeEnd(p, r);
    if r.operation == Read
    then s.(phase := Executed(r, s.disk[at..at + n] + s.phase.data[n..]))
    else s.(disk := Overlay(s.disk, at, s.phase.data[..n]), phase := Executed(r, s.phase.data))
  }

  function Prepare(p: UnitParams, s: Sys, data: Data): Sys
    requires Transferring(p, s.x) && |data| == p.maxTransferLength
  {
    s.(phase := Issued(Prepared(p, s.x), PreparedData(p, s.x, data)))
  }

  function Complete(p: UnitParams, s: Sys, good: bool): Sys
    requires Transferring(p, s.x) && (s.phase.Issued? || s.phase.Executed?) && |s.phase.data| == p.maxTransferLength
  {
    var (x, status) := Completed(p, s.x, good, Some(s.phase.data));
    s.(x := x, phase := if status == Pending then Queued else Finished(status))
  }

  ghost function Happen(p: UnitParams, s: Sys, e: Event): Sys
    requires CanHappen(p, s, e)
  {
    match e
    case DoPrepare(data) => Prepare(p, s, data)
    case DoExecute => Execute(p, s)
    case DoComplete(good) => Complete(p, s, good)
    case Other(at, bytes) => s.(disk := Overlay(s.disk, at, bytes))
  }

  ghost predicate IsRun(p: UnitParams, run: seq<Sys>, evs: seq<Event>) {
    && |run| == |evs| + 1
    && forall i :: 0 <= i < |evs| ==> CanHappen(p, run[i], evs[i]) && run[i + 1] == Happen(p, run[i], evs[i])
  }

  // The disk as the other requests alone leave it.
  ghost function OthersOnly(disk: Data, evs: seq<Event>): (d: Data)
    ensures |d| == |disk|
  {
    if evs == [] then disk
    else
      var d := OthersOnly(disk, evs[..|evs| - 1]);
      var e := evs[|evs| - 1];
      if e.Other? && e.at + |e.bytes| <= |d| then Overlay(d, e.at, e.bytes) else d
  }

  // The byte range of the SRB.
  function Start(p: UnitParams, x: Xfer): nat
    requires IsRangeOp(x.cdb[0])
  {
    ByteCount(p, GetRange(x.cdb).address)
  }

  // No other request writes in the range of the SRB.
  ghost predicate Exclusive(start: nat, length: nat, evs: seq<Event>) {
    forall i :: 0 <= i < |evs| && evs[i].Other? ==> evs[i].at + |evs[i].bytes| <= start || start + length <= evs[i].at
  }

  // An accepted READ or WRITE whose product did not wrap, on a disk of the unit's size.
  ghost predicate Fresh(p: UnitParams, s: Sys, transferLength: nat) {
    && Posted(p, s.x, transferLength) && s.phase == Queued
    && GetRange(s.x.cdb).count * p.blockLength < TWO_32
    && |s.disk| == p.blockCount * p.blockLength
  }

  // ----- One chunk in bytes -----

  lemma ChunkBytes(p: UnitParams, x: Xfer)
    requires Transferring(p, x) && Aligned(p, x)
    ensures Prepared(p, x).address * p.blockLength == Start(p, x) + x.offset
    ensures Prepared(p, x).count * p.blockLength == ChunkLength(p, x)
  {
    hide GetRange;
    AlignedNext(p, x);
    FloorTimes(x.offset, p.blockLength);
    FloorTimes(ChunkLength(p, x), p.blockLength);
    hide Blocks, ChunkLength;
    Arith.Distribute(GetRange(x.cdb).address, Blocks(x.offset, p.blockLength), p.blockLength);
  }

  // What stays true of the transfer itself: x0 is the SRB as posted.
  ghost predicate Underway(p: UnitParams, s: Sys, x0: Xfer) {
    && Transferring(p, s.x) && Aligned(p, s.x)
    && s.x.cdb == x0.cdb && s.x.length == x0.length && |s.x.buffer| == |x0.buffer|
    && Start(p, s.x) + s.x.length <= |s.disk|
    && (!s.phase.Finished? ==> s.x.offset < s.x.length)
    && (s.phase.Issued? || s.phase.Executed? ==>
          s.phase.request == Prepared(p, s.x) && |s.phase.data| == p.maxTransferLength)
    && (s.phase == Finished(Success) ==> s.x.offset == s.x.length)
  }

  // The device can always carry out what was delivered.
  lemma IssuedCanExecute(p: UnitParams, s: Sys, x0: Xfer)
    requires Underway(p, s, x0) && s.phase.Issued?
    ensures CanHappen(p, s, DoExecute)
  {
    ChunkBytes(p, s.x);
    StartBeforeEnd(p, s.phase.request);
  }

  lemma FreshLength(p: UnitParams, s: Sys, transferLength: nat)
    requires Fresh(p, s, transferLength)
    ensures var r := GetRange(s.x.cdb);
      s.x.length == r.count * p.blockLength && r.count > 0 && r.address + r.count <= p.blockCount
  {
    PostedOnDisk(p, s.x.cdb, transferLength);
    WrapsBelow(p, GetRange(s.x.cdb).count);
  }

  lemma FreshUnderway(p: UnitParams, s: Sys, transferLength: nat)
    requires Fresh(p, s, transferLength)
    ensures Underway(p, s, s.x) && s.x.length == GetRange(s.x.cdb).count * p.blockLength
  {
    FreshLength(p, s, transferLength);
    hide GetRange;
    var r := GetRange(s.x.cdb);
    MultipleIsWhole(r.count, p.blockLength);
    Arith.Grows(r.count, p.blockLength);
    Arith.Distribute(r.address, r.count, p.blockLength);
    Arith.MonotoneTimes(r.address + r.count, p.blockCount, p.blockLength);
  }

  lemma UnderwayPrepares(p: UnitParams, s: Sys, data: Data, x0: Xfer)
    requires Underway(p, s, x0) && CanHappen(p, s, DoPrepare(data))
    ensures Underway(p, Prepare(p, s, data), x0)
  {
    hide Prepared, GetRange, Aligned, Provisionable;
  }

  lemma UnderwayExecutes(p: UnitParams, s: Sys, x0: Xfer)
    requires Underway(p, s, x0) && CanHappen(p, s, DoExecute)
    ensures Underway(p, Execute(p, s), x0)
  {
    hide Prepared, GetRange, Aligned, Provisionable, Start;
    StartBeforeEnd(p, s.phase.request);
  }

  lemma UnderwayCompletes(p: UnitParams, s: Sys, good: bool, x0: Xfer)
    requires Underway(p, s, x0) && CanHappen(p, s, DoComplete(good))
    ensures Underway(p, Complete(p, s, good), x0)
  {
    AlignedNext(p, s.x);
    CompletedFollowsChunks(p, s.x, Some(s.phase.data));
    CompletedKeeps(p, s.x, good, s.phase.data);
    hide Prepared, GetRange, Completed, Chunks, ChunkLength, Blocks;
  }

  lemma CompletedKeeps(p: UnitParams, x: Xfer, good: bool, data: Data)
    requires Transferring(p, x) && |data| == p.maxTransferLength
    ensures var (x', status) := Completed(p, x, good, Some(data));
      && |x'.buffer| == |x.buffer| && (!good ==> x' == x && status == Error)
      && (status == Pending ==> x'.offset < x'.length)
  {
    hide GetRange, Provisionable;
  }

  lemma UnderwayStep(p: UnitParams, s: Sys, e: Event, x0: Xfer)
    requires Underway(p, s, x0) && CanHappen(p, s, e)
    ensures Underway(p, Happen(p, s, e), x0)
  {
    hide Prepared, GetRange, Aligned, Provisionable, Start, Execute, Prepare, Complete;
    match e
    case DoPrepare(data) => UnderwayPrepares(p, s, data, x0);
    case DoExecute => UnderwayExecutes(p, s, x0);
    case DoComplete(good) => UnderwayCompletes(p, s, good, x0);
    case Other(at, bytes) =>
  }

  // ----- Reading -----

  // `want` is what the disk held in the range; the buffer holds it up to the offset.
  ghost predicate ReadOk(p: UnitParams, s: Sys, x0: Xfer, want: Data) {
    && Underway(p, s, x0) && IsRead(x0.cdb[0]) && |want| == x0.length
    && s.disk[Start(p, s.x)..Start(p, s.x) + |want|] == want
    && s.x.buffer == want[..s.x.offset] + x0.buffer[s.x.offset..]
    && (s.phase.Executed? ==>
          var n := ChunkLength(p, s.x); s.phase.data[..n] == want[s.x.offset..s.x.offset + n])
  }

  lemma ReadExecutes(p: UnitParams, s: Sys, x0: Xfer, want: Data)
    requires ReadOk(p, s, x0, want) && CanHappen(p, s, DoExecute)
    ensures ReadOk(p, Happen(p, s, DoExecute), x0, want)
  {
    UnderwayStep(p, s, DoExecute, x0);
    ChunkBytes(p, s.x);
    StartBeforeEnd(p, s.phase.request);
    var n, at := ChunkLength(p, s.x), Start(p, s.x);
    assert s.disk[at + s.x.offset..at + s.x.offset + n] == s.disk[at..at + |want|][s.x.offset..s.x.offset + n];
  }

  lemma ReadCompletes(p: UnitParams, s: Sys, x0: Xfer, want: Data, good: bool)
    requires ReadOk(p, s, x0, want) && CanHappen(p, s, DoComplete(good))
    ensures ReadOk(p, Happen(p, s, DoComplete(good)), x0, want)
  {
    UnderwayStep(p, s, DoComplete(good), x0);
    var n, o := ChunkLength(p, s.x), s.x.offset;
    assert want[..o] + want[o..o + n] == want[..o + n];
    assert s.x.buffer[o + n..] == x0.buffer[o + n..];
    assert s.x.buffer[..o] == want[..o];
  }

  lemma ReadStep(p: UnitParams, s: Sys, e: Event, x0: Xfer, want: Data)
    requires ReadOk(p, s, x0, want) && CanHappen(p, s, e) && Exclusive(Start(p, x0), x0.length, [e])
    ensures ReadOk(p, Happen(p, s, e), x0, want)
  {
    match e
    case DoPrepare(data) =>
    case DoExecute => ReadExecutes(p, s, x0, want);
    case DoComplete(good) => ReadCompletes(p, s, x0, want, good);
    case Other(at, bytes) =>
      assert [e][0] == e;
      OverlayElsewhere(s.disk, at, bytes, Start(p, x0), x0.length);
  }

  lemma OverlayElsewhere(d: Data, at: nat, bytes: Data, start: nat, length: nat)
    requires at + |bytes| <= |d| && start + length <= |d|
    requires at + |bytes| <= start || start + length <= at
    ensures Overlay(d, at, bytes)[start..start + length] == d[start..start + length]
  {
  }

  lemma {:induction false} ReadInvariant(p: UnitParams, run: seq<Sys>, evs: seq<Event>, i: nat, transferLength: nat)
    requires IsRun(p, run, evs) && Fresh(p, run[0], transferLength) && IsRead(run[0].x.cdb[0]) && i < |run|
    requires Exclusive(Start(p, run[0].x), run[0].x.length, evs)
    ensures Start(p, run[0].x) + run[0].x.length <= |run[0].disk|
    ensures ReadOk(p, run[i], run[0].x, run[0].disk[Start(p, run[0].x)..Start(p, run[0].x) + run[0].x.length])
  {
    FreshUnderway(p, run[0], transferLength);
    if i > 0 {
      hide Happen, CanHappen, ReadOk, Fresh, Start, Underway;
      ReadInvariant(p, run, evs, i - 1, transferLength);
      ReadStep(p, run[i - 1], evs[i - 1], run[0].x,
               run[0].disk[Start(p, run[0].x)..Start(p, run[0].x) + run[0].x.length]);
    }
  }

  // A chunked READ leaves in the buffer what one unchunked read of the range would have put
  // there, and nothing else.
  lemma ChunkedReadIsOneRead(p: UnitParams, run: seq<Sys>, evs: seq<Event>, transferLength: nat)
    requires IsRun(p, run, evs) && Fresh(p, run[0], transferLength) && IsRead(run[0].x.cdb[0])
    requires Exclusive(Start(p, run[0].x), run[0].x.length, evs)
    requires run[|evs|].phase == Finished(Success)
    ensures var x, s := run[0].x, Start(p, run[0].x);
      && s + x.length <= |run[0].disk| && x.length == GetRange(x.cdb).count * p.blockLength
      && run[|evs|].x.buffer == run[0].disk[s..s + x.length] + x.buffer[x.length..]
  {
    FreshUnderway(p, run[0], transferLength);
    ReadInvariant(p, run, evs, |evs|, transferLength);
  }

  // ----- Writing -----

  // Bytes already on the disk: one chunk more once the device has executed it.
  function Written(p: UnitParams, s: Sys): nat
    requires Transferring(p, s.x)
  {
    if s.phase.Executed? then s.x.offset + ChunkLength(p, s.x) else s.x.offset
  }

  // `base` is the disk as the other requests alone would have left it.
  ghost predicate WriteOk(p: UnitParams, s: Sys, x0: Xfer, base: Data) {
    && Underway(p, s, x0) && IsWrite(x0.cdb[0]) && s.x.buffer == x0.buffer && |base| == |s.disk|
    && (s.phase.Issued? ==>
          var n := ChunkLength(p, s.x); s.phase.data[..n] == x0.buffer[s.x.offset..s.x.offset + n])
    && (s.phase != Finished(Error) ==> s.disk == Overlay(base, Start(p, s.x), x0.buffer[..Written(p, s)]))
  }

  lemma OverlayExtends(base: Data, start: nat, buffer: Data, o: nat, n: nat)
    requires o + n <= |buffer| && start + o + n <= |base|
    ensures Overlay(Overlay(base, start, buffer[..o]), start + o, buffer[o..o + n]) == Overlay(base, start, buffer[..o + n])
  {
  }

  lemma OverlaysCommute(base: Data, start: nat, mine: Data, at: nat, bytes: Data)
    requires start + |mine| <= |base| && at + |bytes| <= |base|
    requires at + |bytes| <= start || start + |mine| <= at
    ensures Overlay(Overlay(base, start, mine), at, bytes) == Overlay(Overlay(base, at, bytes), start, mine)
  {
  }

  lemma ExecuteWrites(p: UnitParams, s: Sys, at: nat, n: nat)
    requires CanHappen(p, s, DoExecute) && s.phase.request.operation == Write
    requires at == s.phase.request.address * p.blockLength && n == s.phase.request.count * p.blockLength
    ensures n <= |s.phase.data| && at + n <= |s.disk|
    ensures Execute(p, s) == s.(disk := Overlay(s.disk, at, s.phase.data[..n]), phase := Executed(s.phase.request, s.phase.data))
  {
    hide Transferring, Overlay;
    StartBeforeEnd(p, s.phase.request);
  }

  lemma IssuedWrite(p: UnitParams, s: Sys, x0: Xfer)
    requires Underway(p, s, x0) && IsWrite(x0.cdb[0]) && s.phase.Issued?
    ensures Transferring(p, s.x) && Aligned(p, s.x) && s.phase.request == Prepared(p, s.x)
    ensures Prepared(p, s.x).operation == Write
  {
    hide Aligned, GetRange, Blocks, ChunkLength, Start, Provisionable;
  }

  lemma ChunkInBuffer(p: UnitParams, x: Xfer)
    requires Transferring(p, x)
    ensures x.offset + ChunkLength(p, x) <= |x.buffer|
  {
    hide GetRange, Provisionable;
  }

  // What the device does with the request of a WRITE's chunk.
  lemma ChunkWritten(p: UnitParams, s: Sys, x0: Xfer)
    requires Underway(p, s, x0) && IsWrite(x0.cdb[0]) && CanHappen(p, s, DoExecute)
    ensures Transferring(p, s.x) && s.phase.Issued?
    ensures var n, at := ChunkLength(p, s.x), Start(p, s.x) + s.x.offset;
      && n <= |s.phase.data| && at + n <= |s.disk| && s.x.offset + n <= |s.x.buffer|
      && Happen(p, s, DoExecute)
         == s.(disk := Overlay(s.disk, at, s.phase.data[..n]), phase := Executed(s.phase.request, s.phase.data))
  {
    IssuedWrite(p, s, x0);
    ChunkInBuffer(p, s.x);
    hide Underway, Aligned, Overlay, ChunkLength, Start, Prepared, Transferring, Execute;
    ChunkBytes(p, s.x);
    ExecuteWrites(p, s, Start(p, s.x) + s.x.offset, ChunkLength(p, s.x));
  }

  lemma WrittenOneMore(base: Data, disk: Data, start: nat, buffer: Data, data: Data, o: nat, n: nat)
    requires o + n <= |buffer| && start + o + n <= |base| && n <= |data|
    requires disk == Overlay(base, start, buffer[..o]) && data[..n] == buffer[o..o + n]
    ensures Overlay(disk, start + o, data[..n]) == Overlay(base, start, buffer[..o + n])
  {
    hide Overlay;
    OverlayExtends(base, start, buffer, o, n);
  }

  lemma WriteExecutes(p: UnitParams, s: Sys, x0: Xfer, base: Data)
    requires WriteOk(p, s, x0, base) && CanHappen(p, s, DoExecute)
    ensures WriteOk(p, Happen(p, s, DoExecute), x0, base)
  {
    UnderwayStep(p, s, DoExecute, x0);
    ChunkWritten(p, s, x0);
    hide Happen, CanHappen, Overlay, Start, Underway, Transferring, ChunkLength, IsWrite;
    WrittenOneMore(base, s.disk, Start(p, s.x), x0.buffer, s.phase.data, s.x.offset, ChunkLength(p, s.x));
  }

  lemma WriteCompletes(p: UnitParams, s: Sys, x0: Xfer, base: Data, good: bool)
    requires WriteOk(p, s, x0, base) && CanHappen(p, s, DoComplete(good))
    ensures WriteOk(p, Happen(p, s, DoComplete(good)), x0, base)
  {
    UnderwayStep(p, s, DoComplete(good), x0);
  }

  lemma WriteStep(p: UnitParams, s: Sys, e: Event, x0: Xfer, base: Data)
    requires WriteOk(p, s, x0, base) && CanHappen(p, s, e) && Exclusive(Start(p, x0), x0.length, [e])
    ensures WriteOk(p, Happen(p, s, e), x0, if e.Other? then Overlay(base, e.at, e.bytes) else base)
  {
    match e
    case DoPrepare(data) => UnderwayStep(p, s, e, x0);
    case DoExecute => WriteExecutes(p, s, x0, base);
    case DoComplete(good) => WriteCompletes(p, s, x0, base, good);
    case Other(at, bytes) =>
      assert [e][0] == e;
      OverlaysCommute(base, Start(p, x0), x0.buffer[..Written(p, s)], at, bytes);
  }

  lemma WriteStart(p: UnitParams, s: Sys, transferLength: nat)
    requires Fresh(p, s, transferLength) && IsWrite(s.x.cdb[0])
    ensures WriteOk(p, s, s.x, s.disk)
  {
    FreshUnderway(p, s, transferLength);
    hide Fresh, GetRange, Start, Transferring, IsWrite;
    assert s.disk == Overlay(s.disk, Start(p, s.x), s.x.buffer[..0]);
  }

  lemma {:induction false} WriteInvariant(p: UnitParams, run: seq<Sys>, evs: seq<Event>, i: nat, transferLength: nat)
    requires IsRun(p, run, evs) && Fresh(p, run[0], transferLength) && IsWrite(run[0].x.cdb[0]) && i < |run|
    requires Exclusive(Start(p, run[0].x), run[0].x.length, evs)
    ensures WriteOk(p, run[i], run[0].x, OthersOnly(run[0].disk, evs[..i]))
  {
    hide Happen, CanHappen, WriteOk, Fresh, Start, Underway, IsWrite;
    if i == 0 {
      WriteStart(p, run[0], transferLength);
    } else {
      WriteInvariant(p, run, evs, i - 1, transferLength);
      var base := OthersOnly(run[0].disk, evs[..i - 1]);
      WriteSize(p, run[i - 1], evs[i - 1], run[0].x, base);
      WriteStep(p, run[i - 1], evs[i - 1], run[0].x, base);
      assert evs[..i][..i - 1] == evs[..i - 1];
    }
  }

  lemma WriteSize(p: UnitParams, s: Sys, e: Event, x0: Xfer, base: Data)
    requires WriteOk(p, s, x0, base) && CanHappen(p, s, e)
    ensures e.Other? ==> e.at + |e.bytes| <= |base|
  {
  }

  // A chunked WRITE leaves the disk as the other requests alone would have, with one unchunked
  // write of the whole buffer on top.
  lemma ChunkedWriteIsOneWrite(p: UnitParams, run: seq<Sys>, evs: seq<Event>, transferLength: nat)
    requires IsRun(p, run, evs) && Fresh(p, run[0], transferLength) && IsWrite(run[0].x.cdb[0])
    requires Exclusive(Start(p, run[0].x), run[0].x.length, evs)
    requires run[|evs|].phase == Finished(Success)
    ensures var x, s := run[0].x, Start(p, run[0].x);
      && s + x.length <= |run[0].disk| && x.length == GetRange(x.cdb).count * p.blockLength
      && run[|evs|].disk == Overlay(OthersOnly(run[0].disk, evs), s, x.buffer[..x.length])
  {
    FreshUnderway(p, run[0], transferLength);
    WriteInvariant(p, run, evs, |evs|, transferLength);
    assert evs[..|evs|] == evs;
  }

  // ----- Transfers can finish -----

  lemma Prepend(p: UnitParams, s: Sys, e: Event, run: seq<Sys>, evs: seq<Event>)
    requires CanHappen(p, s, e) && IsRun(p, run, evs) && run[0] == Happen(p, s, e)
    ensures IsRun(p, [s] + run, [e] + evs)
  {
    hide Happen, CanHappen;
    forall i | 0 <= i < |[e] + evs|
      ensures CanHappen(p, ([s] + run)[i], ([e] + evs)[i]) && ([s] + run)[i + 1] == Happen(p, ([s] + run)[i], ([e] + evs)[i])
    {
      if i > 0 { assert ([s] + run)[i] == run[i - 1] && ([e] + evs)[i] == evs[i - 1]; }
    }
  }

  // Prepare, execute, complete: the system after one undisturbed round.
  lemma OneRound(p: UnitParams, s: Sys, data: Data, x0: Xfer) returns (s1: Sys, s2: Sys, s3: Sys)
    requires Underway(p, s, x0) && s.phase == Queued && |data| == p.maxTransferLength
    ensures CanHappen(p, s, DoPrepare(data)) && s1 == Happen(p, s, DoPrepare(data))
    ensures CanHappen(p, s1, DoExecute) && s2 == Happen(p, s1, DoExecute)
    ensures CanHappen(p, s2, DoComplete(true)) && s3 == Happen(p, s2, DoComplete(true))
    ensures Underway(p, s3, x0) && s3.x.offset == Next(p, s.x).offset && s3.x.length == s.x.length
    ensures s3.phase == if |Chunks(p, s.x)| > 1 then Queued else Finished(Success)
  {
    hide Underway, Completed, Prepared, Chunks, Transferring;
    UnderwayTransfers(p, s, x0);
    s1 := Happen(p, s, DoPrepare(data));
    UnderwayStep(p, s, DoPrepare(data), x0);
    IssuedCanExecute(p, s1, x0);
    s2 := Happen(p, s1, DoExecute);
    UnderwayStep(p, s1, DoExecute, x0);
    UnderwayTransfers(p, s2, x0);
    s3 := Happen(p, s2, DoComplete(true));
    UnderwayStep(p, s2, DoComplete(true), x0);
    CompletedFollowsChunks(p, s.x, Some(s2.phase.data));
  }

  lemma UnderwayTransfers(p: UnitParams, s: Sys, x0: Xfer)
    requires Underway(p, s, x0)
    ensures Transferring(p, s.x) && Valid(p, s.x) && (s.phase.Executed? ==> |s.phase.data| == p.maxTransferLength)
    ensures s.phase == Queued ==> s.x.offset < s.x.length
  {
  }

  lemma {:induction false} Finish(p: UnitParams, s: Sys, x0: Xfer) returns (run: seq<Sys>, evs: seq<Event>)
    requires Underway(p, s, x0) && s.phase == Queued
    ensures Transferring(p, s.x) && IsRun(p, run, evs) && run[0] == s && run[|evs|].phase == Finished(Success)
    ensures |evs| == 3 * |Chunks(p, s.x)| && forall i :: 0 <= i < |evs| ==> !evs[i].Other?
    decreases s.x.length - s.x.offset
  {
    hide Underway, Happen, CanHappen, Chunks, Transferring, IsRun;
    UnderwayTransfers(p, s, x0);
    var data: Data := seq(p.maxTransferLength, _ => 0);
    var s1, s2, s3 := OneRound(p, s, data, x0);
    UnderwayTransfers(p, s3, x0);
    RoundsLeft(p, s.x, s3.x);
    if s3.phase == Queued {
      run, evs := Finish(p, s3, x0);
    } else {
      Standstill(p, s3);
      run, evs := [s3], [];
    }
    Prepend(p, s2, DoComplete(true), run, evs);
    run, evs := [s2] + run, [DoComplete(true)] + evs;
    Prepend(p, s1, DoExecute, run, evs);
    run, evs := [s1] + run, [DoExecute] + evs;
    Prepend(p, s, DoPrepare(data), run, evs);
    run, evs := [s] + run, [DoPrepare(data)] + evs;
  }

  lemma Standstill(p: UnitParams, s: Sys)
    ensures IsRun(p, [s], [])
  {
  }

  lemma RoundsLeft(p: UnitParams, x: Xfer, y: Xfer)
    requires Transferring(p, x) && Transferring(p, y) && y.length == x.length && y.offset == Next(p, x).offset
    ensures x.offset < x.length ==> y.offset > x.offset
    ensures |Chunks(p, x)| > 1 ==> |Chunks(p, x)| == 1 + |Chunks(p, y)|
  {
    hide Prepared, GetRange, Provisionable;
    RoundCount(p, y);
    RoundCount(p, Next(p, x));
  }

  // Every accepted READ or WRITE whose product does not wrap can finish, and left alone with a
  // willing device it does so after ceil(length / MaxTransferLength) rounds of three steps.
  lemma TransferCanFinish(p: UnitParams, s: Sys, transferLength: nat) returns (run: seq<Sys>, evs: seq<Event>)
    requires Fresh(p, s, transferLength)
    ensures IsRun(p, run, evs) && run[0] == s && run[|evs|].phase == Finished(Success)
    ensures p.maxTransferLength > 0
    ensures |evs| == 3 * ((s.x.length + p.maxTransferLength - 1) / p.maxTransferLength)
    ensures forall i :: 0 <= i < |evs| ==> !evs[i].Other?
  {
    FreshUnderway(p, s, transferLength);
    run, evs := Finish(p, s, s.x);
    RoundCount(p, s.x);
    hide IsRun;
  }

  // For instance a READ(10) of three blocks in chunks of two.
  lemma SomeTransferIsFresh()
    ensures exists p, s :: Fresh(p, s, 48) && IsRead(s.x.cdb[0]) && |Chunks(p, s.x)| == 2
  {
    var p := UnitParams(8, 16, 32, false, false, false);
    var r := Range(1, 3, false);
    DecodeEncode(READ10, r, 0);
    hide Encode, GetRange;
    var zeros: Data := seq(128, _ => 0);
    var x := Xfer(Encode(READ10, r, 0), 48, 0, zeros[..48]);
    var s := Sys(zeros, x, Queued);
    assert DataLength(p, 3) == 48 && !OutOfRange(p, 1, 3) && Provisionable(p);
    RoundCount(p, x);
    assert Fresh(p, s, 48);
  }
}
