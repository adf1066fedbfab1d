/**
 What the driver accepts from StorPort and what it hands to user mode (src/sys/scsi.c): the
 range and unmap checks before an SRB is posted, and the requests prepared from it later.
 */
module Scsi {
  import opened Bytes
  import opened Cdb

  datatype UnitParams = UnitParams(
    blockCount: nat,
    blockLength: nat,
    maxTransferLength: nat,
    writeProtected: bool,
    cacheSupported: bool,
    unmapSupported: bool)

  // The field widths, and what SpdIoctlProvision insists on.
  predicate Provisionable(p: UnitParams) {
    && 0 < p.blockCount < TWO_64
    && 16 <= p.blockLength < TWO_32
    && 0 < p.maxTransferLength < TWO_32
    && p.maxTransferLength % p.blockLength == 0
  }

  datatype Reason =
    | InternalError
    | InvalidRequest
    | WriteProtect
    | IllegalBlock
    | InvalidFieldInParameterList
    | InvalidCdb

  // The outcome of a SpdScsiPost function: an error, success at once, or an SRB to queue.
  datatype Verdict = Rejected(reason: Reason) | Nothing | Post(length: nat)

  // UINT64 arithmetic: the end address wraps, and the comparison catches it.
  predicate OutOfRange(p: UnitParams, address: nat, count: nat) {
    var end := (address + count) % TWO_64;
    end < address || end > p.blockCount
  }

  lemma OutOfRangeExact(p: UnitParams, address: nat, count: nat)
    requires Provisionable(p) && address < TWO_64 && count < TWO_32
    ensures !OutOfRange(p, address, count) <==> address + count <= p.blockCount
  {
    if address + count >= TWO_64 {
      assert (address + count) % TWO_64 == address + count - TWO_64;
    }
  }

  // UINT32 arithmetic: BlockCount * BlockLength.
  function DataLength(p: UnitParams, count: nat): nat { (count * p.blockLength) % TWO_32 }

  // SpdScsiPostRangeSrb.
  function PostRange(p: UnitParams, cdb: CommandBlock, transferLength: nat): Verdict
    requires IsRangeOp(cdb[0])
  {
    var op := cdb[0];
    var r := GetRange(cdb);
    var length := if IsFlush(op) then 0 else DataLength(p, r.count);
    if IsFlush(op) && !p.cacheSupported then Rejected(InvalidRequest)
    else if !IsRead(op) && p.writeProtected then Rejected(WriteProtect)
    else if !IsFlush(op) && transferLength < length then Rejected(InternalError)
    else if r.count == 0 then Nothing
    else if OutOfRange(p, r.address, r.count) then Rejected(IllegalBlock)
    else Post(length)
  }

  // The unit takes commands of this kind.
  predicate Allowed(p: UnitParams, op: byte) {
    (IsFlush(op) ==> p.cacheSupported) && (!IsRead(op) ==> !p.writeProtected)
  }

  // The SRB's buffer has the bytes of the blocks, as far as 32 bits say how many those are.
  predicate Suffices(p: UnitParams, op: byte, count: nat, transferLength: nat) {
    IsFlush(op) || (count * p.blockLength) % TWO_32 <= transferLength
  }

  // When each verdict is due for a command with this range, in unbounded arithmetic.
  predicate Due(p: UnitParams, op: byte, r: Range, transferLength: nat, v: Verdict) {
    var fits := Allowed(p, op) && Suffices(p, op, r.count, transferLength);
    match v
    case Post(length) =>
      && fits && 0 < r.count && r.address + r.count <= p.blockCount
      && length == if IsFlush(op) then 0 else (r.count * p.blockLength) % TWO_32
    case Nothing => fits && r.count == 0
    case Rejected(IllegalBlock) => fits && 0 < r.count && p.blockCount < r.address + r.count
    case Rejected(InternalError) => Allowed(p, op) && !Suffices(p, op, r.count, transferLength)
    case Rejected(WriteProtect) => !IsRead(op) && p.writeProtected && (IsFlush(op) ==> p.cacheSupported)
    case Rejected(InvalidRequest) => IsFlush(op) && !p.cacheSupported
    case Rejected(_) => false
  }

  // Each verdict is given exactly when it is due: a range SRB is queued exactly when the command
  // is allowed, its buffer is long enough, and its non-empty range lies on the disk.
  lemma PostRangeExact(p: UnitParams, cdb: CommandBlock, transferLength: nat)
    requires Provisionable(p) && IsRangeOp(cdb[0])
    ensures forall v :: PostRange(p, cdb, transferLength) == v <==> Due(p, cdb[0], GetRange(cdb), transferLength, v)
  {
    DecodedIsExpressible(cdb);
    OutOfRangeExact(p, GetRange(cdb).address, GetRange(cdb).count);
    hide GetRange;
  }

  lemma PostedOnDisk(p: UnitParams, cdb: CommandBlock, transferLength: nat)
    requires Provisionable(p) && IsRangeOp(cdb[0]) && PostRange(p, cdb, transferLength).Post?
    ensures var r := GetRange(cdb);
      && Allowed(p, cdb[0]) && Suffices(p, cdb[0], r.count, transferLength)
      && 0 < r.count && r.address + r.count <= p.blockCount
  {
    PostRangeExact(p, cdb, transferLength);
    hide PostRange, GetRange;
    assert Due(p, cdb[0], GetRange(cdb), transferLength, PostRange(p, cdb, transferLength));
  }

  // So a client gets the verdict that is due for the range it encoded.
  lemma EncodedRangeExact(p: UnitParams, op: byte, r: Range, spare: byte, transferLength: nat)
    requires Provisionable(p) && IsRangeOp(op) && Expressible(FormatOf(op), r)
    ensures Encode(op, r, spare)[0] == op
    ensures forall v :: PostRange(p, Encode(op, r, spare), transferLength) == v <==> Due(p, op, r, transferLength, v)
  {
    DecodeEncode(op, r, spare);
    PostRangeExact(p, Encode(op, r, spare), transferLength);
    hide PostRange, Due;
  }

  // ----- Unmap -----

  const UNMAP_HEADER: nat := 8
  const UNMAP_DESCRIPTOR: nat := 16

  // SPD_IOCTL_UNMAP_DESCRIPTOR, what user mode sees.
  datatype Descriptor = Descriptor(address: nat, count: nat, reserved: nat)

  // BlockDescrDataLength in the header of the parameter list.
  function ListLength(list: Data): nat
    requires |list| >= UNMAP_HEADER
  {
    list[2] as nat * 0x100 + list[3] as nat
  }

  // The i-th block descriptor of a parameter list: an eight-byte address and a four-byte count.
  function DescriptorAt(list: Data, i: nat): Descriptor
    requires UNMAP_HEADER + UNMAP_DESCRIPTOR * (i + 1) <= |list|
  {
    var at := UNMAP_HEADER + UNMAP_DESCRIPTOR * i;
    Descriptor(BigEndian(list[at..at + 8]), BigEndian(list[at + 8..at + 12]), 0)
  }

  ghost predicate DescriptorsOnDisk(p: UnitParams, list: Data, n: nat)
    requires UNMAP_HEADER + UNMAP_DESCRIPTOR * n <= |list|
  {
    forall i :: 0 <= i < n ==> DescriptorAt(list, i).address + DescriptorAt(list, i).count <= p.blockCount
  }

  // What both loops read of the i-th descriptor, byte by byte.
  method ReadDescriptor(list: Data, i: nat) returns (address: nat, count: nat)
    requires UNMAP_HEADER + UNMAP_DESCRIPTOR * (i + 1) <= |list|
    ensures address == DescriptorAt(list, i).address < TWO_64
    ensures count == DescriptorAt(list, i).count < TWO_32
  {
    var at := UNMAP_HEADER + UNMAP_DESCRIPTOR * i;
    address := Word(list[at], list[at + 1], list[at + 2], list[at + 3]) * TWO_32
               + Word(list[at + 4], list[at + 5], list[at + 6], list[at + 7]);
    count := Word(list[at + 8], list[at + 9], list[at + 10], list[at + 11]);
    var lba := list[at..at + 8];
    var cnt := list[at + 8..at + 12];
    Word8(lba);
    BigEndian8(lba);
    Word4(cnt);
    BigEndian4(cnt);
  }

  // Which check decides, in the order the checks are made.
  ghost function UnmapVerdict(p: UnitParams, list: Data, anchor: bool): Verdict {
    if !p.unmapSupported then Rejected(InvalidRequest)
    else if p.writeProtected then Rejected(WriteProtect)
    else if |list| < UNMAP_HEADER || |list| < UNMAP_HEADER + ListLength(list) then Rejected(InternalError)
    else if ListLength(list) > p.maxTransferLength then Rejected(InvalidFieldInParameterList)
    else if anchor then Rejected(InvalidCdb)
    else if ListLength(list) == 0 then Nothing
    else if !DescriptorsOnDisk(p, list, ListLength(list) / UNMAP_DESCRIPTOR) then Rejected(IllegalBlock)
    else Post(ListLength(list))
  }

  // SpdScsiPostUnmapSrb. `list` is the SRB's data buffer, DataTransferLength bytes long.
  method PostUnmap(p: UnitParams, list: Data, anchor: bool) returns (v: Verdict)
    requires Provisionable(p)
    ensures v.Post? <==>
      && p.unmapSupported && !p.writeProtected && !anchor
      && UNMAP_HEADER <= |list| && UNMAP_HEADER + ListLength(list) <= |list|
      && 0 < ListLength(list) <= p.maxTransferLength
      && DescriptorsOnDisk(p, list, ListLength(list) / UNMAP_DESCRIPTOR)
    ensures v == UnmapVerdict(p, list, anchor)
  {
    if !p.unmapSupported { return Rejected(InvalidRequest); }
    if p.writeProtected { return Rejected(WriteProtect); }
    if |list| < UNMAP_HEADER || |list| < UNMAP_HEADER + ListLength(list) { return Rejected(InternalError); }
    var length := ListLength(list);
    if length > p.maxTransferLength { return Rejected(InvalidFieldInParameterList); }
    if anchor { return Rejected(InvalidCdb); }
    if length == 0 { return Nothing; }
    var n := length / UNMAP_DESCRIPTOR;
    for i := 0 to n
      invariant DescriptorsOnDisk(p, list, i)
    {
      var address, count := ReadDescriptor(list, i);
      OutOfRangeExact(p, address, count);
      if OutOfRange(p, address, count) { return Rejected(IllegalBlock); }
    }
    return Post(length);
  }

  // The first n descriptors of a parameter list.
  function Descriptors(list: Data, n: nat): (ds: seq<Descriptor>)
    requires UNMAP_HEADER + UNMAP_DESCRIPTOR * n <= |list|
    ensures |ds| == n && forall i :: 0 <= i < n ==> ds[i] == DescriptorAt(list, i)
  {
    seq(n, i requires 0 <= i < n => DescriptorAt(list, i))
  }

  // The unmap case of SpdSrbExecuteScsiPrepare: decodes the same list again into the user buffer,
  // which has room for MaxTransferLength / 16 descriptors.
  method PrepareUnmap(p: UnitParams, list: Data, length: nat, buffer: array<Descriptor>) returns (count: nat)
    requires Provisionable(p) && length <= p.maxTransferLength && UNMAP_HEADER + length <= |list|
    requires buffer.Length == p.maxTransferLength / UNMAP_DESCRIPTOR
    modifies buffer
    ensures count == length / UNMAP_DESCRIPTOR && count * UNMAP_DESCRIPTOR <= p.maxTransferLength
    ensures buffer[..] == Descriptors(list, count) + old(buffer[count..])
  {
    hide BigEndian, Provisionable;
    count := length / UNMAP_DESCRIPTOR;
    for i := 0 to count
      invariant forall k :: 0 <= k < i ==> buffer[k] == DescriptorAt(list, k)
      invariant forall k :: i <= k < buffer.Length ==> buffer[k] == old(buffer[k])
    {
      var address, n := ReadDescriptor(list, i);
      buffer[i] := Descriptor(address, n, 0);
    }
  }

  // An unmap that was posted can be prepared, and every descriptor then delivered lies on the
  // disk: the second decoding delivers what the first one checked.
  lemma DeliveredUnmapOnDisk(p: UnitParams, list: Data, anchor: bool, length: nat)
    requires Provisionable(p) && UnmapVerdict(p, list, anchor) == Post(length)
    ensures length <= p.maxTransferLength && UNMAP_HEADER + length <= |list|
    ensures var delivered := Descriptors(list, length / UNMAP_DESCRIPTOR);
      && |delivered| * UNMAP_DESCRIPTOR <= p.maxTransferLength
      && forall i :: 0 <= i < |delivered| ==> delivered[i].address + delivered[i].count <= p.blockCount
  {
  }

  // From the SRB's list to the user buffer: posted, and prepared later from the unchanged list.
  method PostAndPrepareUnmap(p: UnitParams, list: Data, anchor: bool, buffer: array<Descriptor>) returns (v: Verdict, count: nat)
    requires Provisionable(p) && buffer.Length == p.maxTransferLength / UNMAP_DESCRIPTOR
    modifies buffer
    ensures v == UnmapVerdict(p, list, anchor) && count <= buffer.Length
    ensures v.Post? ==>
      && count == v.length / UNMAP_DESCRIPTOR && UNMAP_HEADER + UNMAP_DESCRIPTOR * count <= |list|
      && buffer[..count] == Descriptors(list, count)
    ensures !v.Post? ==> count == 0
    ensures forall i :: 0 <= i < count ==> buffer[i].address + buffer[i].count <= p.blockCount
    ensures forall i :: count <= i < buffer.Length ==> buffer[i] == old(buffer[i])
  {
    hide UnmapVerdict, DescriptorsOnDisk, DescriptorAt;
    v := PostUnmap(p, list, anchor);
    count := 0;
    if v.Post? {
      DeliveredUnmapOnDisk(p, list, anchor, v.length);
      ghost var was := buffer[..];
      count := PrepareUnmap(p, list, v.length, buffer);
      assert forall i :: 0 <= i < count ==> buffer[..][i] == Descriptors(list, count)[i];
      assert forall i :: count <= i < buffer.Length ==> buffer[..][i] == was[i];
    }
  }
}
