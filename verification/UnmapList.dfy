/**
 The UNMAP parameter list of SBC-3, as an encoder, and what the driver makes of one
 (SpdScsiPostUnmapSrb and SpdSrbExecuteScsiPrepare in src/sys/scsi.c).
 */
module UnmapList {
  import opened Bytes
  import opened Cdb
  import opened Scsi

  // The blocks one block descriptor is about.
  datatype Extent = Extent(address: nat, count: nat)

  ghost predicate Sized(es: seq<Extent>) {
    forall e :: e in es ==> e.address < TWO_64 && e.count < TWO_32
  }

  // UNMAP LOGICAL BLOCK ADDRESS, NUMBER OF LOGICAL BLOCKS and four reserved bytes.
  function EncodedExtent(e: Extent, spare: byte): (bs: Data)
    ensures |bs| == 16
  {
    ToBigEndian(e.address, 8) + ToBigEndian(e.count, 4) + seq(4, _ => spare)
  }

  function EncodedExtents(es: seq<Extent>, spare: byte): (bs: Data)
    ensures |bs| == 16 * |es|
  {
    if es == [] then [] else EncodedExtents(es[..|es| - 1], spare) + EncodedExtent(es[|es| - 1], spare)
  }

  // UNMAP DATA LENGTH, UNMAP BLOCK DESCRIPTOR DATA LENGTH, four reserved bytes and the block
  // descriptors; `partial` is what the second length covers beyond the last whole one.
  function ParameterList(es: seq<Extent>, partial: Data, spare: byte): (bs: Data)
    ensures |bs| == 8 + 16 * |es| + |partial|
  {
    var length := 16 * |es| + |partial|;
    ToBigEndian(length + 6, 2) + ToBigEndian(length, 2) + seq(4, _ => spare) + EncodedExtents(es, spare) + partial
  }

  lemma {:induction false} ExtentAt(es: seq<Extent>, spare: byte, i: nat)
    requires i < |es|
    ensures EncodedExtents(es, spare)[16 * i..16 * i + 16] == EncodedExtent(es[i], spare)
    decreases |es|
  {
    hide EncodedExtent;
    if i < |es| - 1 {
      ExtentAt(es[..|es| - 1], spare, i);
      var bs := EncodedExtents(es[..|es| - 1], spare);
      assert EncodedExtents(es, spare)[16 * i..16 * i + 16] == bs[16 * i..16 * i + 16];
    }
  }

  lemma DecodedLength(es: seq<Extent>, partial: Data, spare: byte, behind: Data)
    requires 16 * |es| + |partial| < 0x1_0000
    ensures ListLength(ParameterList(es, partial, spare) + behind) == 16 * |es| + |partial|
  {
    var length := 16 * |es| + |partial|;
    var list := ParameterList(es, partial, spare) + behind;
    Powers();
    BigEndianRoundTrip(length, 2);
    hide ToBigEndian, BigEndian, Power256, EncodedExtents;
    assert list[2..4] == ToBigEndian(length, 2);
    BigEndian2(list[2..4]);
  }

  lemma SliceOfSlice(list: Data, lo: nat, hi: nat, a: nat, b: nat)
    requires lo <= hi <= |list| && a <= b <= hi - lo
    ensures list[lo..hi][a..b] == list[lo + a..lo + b]
  {
    var x, y := list[lo..hi][a..b], list[lo + a..lo + b];
    assert |x| == |y| && forall k :: 0 <= k < |x| ==> x[k] == y[k];
  }

  lemma ExtentInList(es: seq<Extent>, partial: Data, spare: byte, behind: Data, i: nat)
    requires i < |es|
    ensures var list, at := ParameterList(es, partial, spare) + behind, 8 + 16 * i;
      at + 16 <= |list| && list[at..at + 16] == EncodedExtent(es[i], spare)
  {
    ExtentAt(es, spare, i);
    hide ToBigEndian, EncodedExtents, EncodedExtent;
    var list, at, bs := ParameterList(es, partial, spare) + behind, 8 + 16 * i, EncodedExtents(es, spare);
    assert list[8..8 + |bs|] == bs;
    SliceOfSlice(list, 8, 8 + |bs|, 16 * i, 16 * i + 16);
  }

  lemma ExtentParts(list: Data, at: nat, e: Extent, spare: byte)
    requires at + 16 <= |list| && list[at..at + 16] == EncodedExtent(e, spare)
    ensures list[at..at + 8] == ToBigEndian(e.address, 8) && list[at + 8..at + 12] == ToBigEndian(e.count, 4)
  {
    hide ToBigEndian;
    var bs := EncodedExtent(e, spare);
    SliceOfSlice(list, at, at + 16, 0, 8);
    SliceOfSlice(list, at, at + 16, 8, 12);
    assert bs[0..8] == ToBigEndian(e.address, 8) && bs[8..12] == ToBigEndian(e.count, 4);
  }

  lemma DecodedExtent(es: seq<Extent>, partial: Data, spare: byte, behind: Data, i: nat)
    requires Sized(es) && i < |es|
    ensures DescriptorAt(ParameterList(es, partial, spare) + behind, i) == Descriptor(es[i].address, es[i].count, 0)
  {
    Powers();
    BigEndianRoundTrip(es[i].address, 8);
    BigEndianRoundTrip(es[i].count, 4);
    ExtentInList(es, partial, spare, behind, i);
    ExtentParts(ParameterList(es, partial, spare) + behind, 8 + 16 * i, es[i], spare);
    hide ToBigEndian, BigEndian, Power256, EncodedExtents, EncodedExtent, ParameterList;
  }

  // What user mode is to see.
  function Delivery(es: seq<Extent>): (ds: seq<Descriptor>)
    ensures |ds| == |es| && forall i :: 0 <= i < |es| ==> ds[i] == Descriptor(es[i].address, es[i].count, 0)
  {
    seq(|es|, i requires 0 <= i < |es| => Descriptor(es[i].address, es[i].count, 0))
  }

  // Decoding undoes encoding, whatever an incomplete last descriptor or the reserved bytes hold
  // and whatever follows the list.
  lemma DecodeEncode(es: seq<Extent>, partial: Data, spare: byte, behind: Data)
    requires Sized(es) && |partial| < 16 && 16 * |es| + |partial| < 0x1_0000
    ensures var list := ParameterList(es, partial, spare) + behind;
      ListLength(list) / UNMAP_DESCRIPTOR == |es| && Descriptors(list, |es|) == Delivery(es)
  {
    hide ParameterList, DescriptorAt, ListLength;
    DecodedLength(es, partial, spare, behind);
    forall i | 0 <= i < |es|
      ensures DescriptorAt(ParameterList(es, partial, spare) + behind, i) == Descriptor(es[i].address, es[i].count, 0)
    {
      DecodedExtent(es, partial, spare, behind, i);
    }
  }

  predicate OnDisk(p: UnitParams, e: Extent) { e.address + e.count <= p.blockCount }

  // When each verdict is due for an UNMAP of these extents, `length` being the second length of
  // the list and `whole` saying that the SRB's buffer has it all.
  predicate Due(p: UnitParams, es: seq<Extent>, length: nat, anchor: bool, whole: bool, v: Verdict) {
    var taken := p.unmapSupported && !p.writeProtected;
    var fine := taken && whole && length <= p.maxTransferLength && !anchor;
    match v
    case Post(n) => fine && n == length && 0 < length && forall e :: e in es ==> OnDisk(p, e)
    case Nothing => fine && length == 0
    case Rejected(IllegalBlock) => fine && 0 < length && exists e :: e in es && !OnDisk(p, e)
    case Rejected(InvalidCdb) => taken && whole && length <= p.maxTransferLength && anchor
    case Rejected(InvalidFieldInParameterList) => taken && whole && p.maxTransferLength < length
    case Rejected(InternalError) => taken && !whole
    case Rejected(WriteProtect) => p.unmapSupported && p.writeProtected
    case Rejected(InvalidRequest) => !p.unmapSupported
  }

  lemma AllOnDisk(p: UnitParams, list: Data, es: seq<Extent>)
    requires 8 + 16 * |es| <= |list| && Descriptors(list, |es|) == Delivery(es)
    ensures DescriptorsOnDisk(p, list, |es|) <==> forall e :: e in es ==> OnDisk(p, e)
  {
    hide DescriptorAt;
    if DescriptorsOnDisk(p, list, |es|) {
      forall e | e in es ensures OnDisk(p, e) {
        var i :| 0 <= i < |es| && es[i] == e;
        assert Delivery(es)[i] == DescriptorAt(list, i);
      }
    } else {
      var i :| 0 <= i < |es| && DescriptorAt(list, i).address + DescriptorAt(list, i).count > p.blockCount;
      assert Delivery(es)[i] == DescriptorAt(list, i);
      assert es[i] in es;
    }
  }

  // Each verdict is given exactly when it is due, and an UNMAP that is queued delivers its extents
  // and nothing else.
  lemma EncodedUnmapExact(p: UnitParams, es: seq<Extent>, partial: Data, spare: byte, behind: Data, anchor: bool)
    requires Sized(es) && |partial| < 16 && 16 * |es| + |partial| < 0x1_0000
    ensures var list, length := ParameterList(es, partial, spare) + behind, 16 * |es| + |partial|;
      && (forall v :: UnmapVerdict(p, list, anchor) == v <==> Due(p, es, length, anchor, true, v))
      && 8 + 16 * (length / 16) <= |list| && Descriptors(list, length / 16) == Delivery(es)
  {
    var list, length := ParameterList(es, partial, spare) + behind, 16 * |es| + |partial|;
    DecodedLength(es, partial, spare, behind);
    DecodeEncode(es, partial, spare, behind);
    AllOnDisk(p, list, es);
    hide ParameterList, DescriptorAt, DescriptorsOnDisk, ListLength, OnDisk;
    assert length / 16 == |es|;
  }

  // With a part of the list missing the command is refused for that, once it is taken at all.
  lemma TruncatedUnmap(p: UnitParams, es: seq<Extent>, partial: Data, spare: byte, n: nat, anchor: bool)
    requires Sized(es) && |partial| < 16 && 16 * |es| + |partial| < 0x1_0000
    requires n < |ParameterList(es, partial, spare)|
    ensures var list, length, whole := ParameterList(es, partial, spare)[..n], 16 * |es| + |partial|, false;
      forall v :: UnmapVerdict(p, list, anchor) == v <==> Due(p, es, length, anchor, whole, v)
  {
    var full := ParameterList(es, partial, spare);
    if n >= 8 {
      DecodedLength(es, partial, spare, []);
      assert full + [] == full && full[..n][2] == full[2] && full[..n][3] == full[3];
    }
    hide ParameterList, DescriptorsOnDisk;
  }
}
