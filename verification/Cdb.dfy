/**
 Decoding of the address range of a SCSI command descriptor block (SpdCdbGetRange in
 src/sys/scsi.c), against the layouts of READ, WRITE and SYNCHRONIZE CACHE in SBC-2.
 */
module Cdb {
  import opened Bytes

  type CommandBlock = c: Data | |c| == 16 witness seq(16, _ => 0 as byte)

  datatype Operation = Read | Write | Flush

  datatype Range = Range(address: nat, count: nat, fua: bool)

  const READ6: byte := 0x08
  const WRITE6: byte := 0x0A
  const READ10: byte := 0x28
  const WRITE10: byte := 0x2A
  const SYNC10: byte := 0x35
  const READ16: byte := 0x88
  const WRITE16: byte := 0x8A
  const SYNC16: byte := 0x91
  const READ12: byte := 0xA8
  const WRITE12: byte := 0xAA

  predicate IsRead(op: byte) { op == READ6 || op == READ10 || op == READ12 || op == READ16 }
  predicate IsWrite(op: byte) { op == WRITE6 || op == WRITE10 || op == WRITE12 || op == WRITE16 }
  predicate IsFlush(op: byte) { op == SYNC10 || op == SYNC16 }
  predicate IsRangeOp(op: byte) { IsRead(op) || IsWrite(op) || IsFlush(op) }

  // Bit 3 of byte 1 of the ten-, twelve- and sixteen-byte commands.
  predicate ForceUnitAccess(cdb: CommandBlock) { (cdb[1] / 8) % 2 == 1 }

  function Word(b0: byte, b1: byte, b2: byte, b3: byte): nat {
    b0 as nat * 0x100_0000 + b1 as nat * 0x1_0000 + b2 as nat * 0x100 + b3 as nat
  }

  function Range6(cdb: CommandBlock): Range {
    // the upper three bits of byte 1 are not part of the address
    Range((cdb[1] % 0x20) as nat * 0x1_0000 + cdb[2] as nat * 0x100 + cdb[3] as nat,
          if cdb[4] != 0 then cdb[4] as nat else 256,
          false)
  }

  function Range10(cdb: CommandBlock): Range {
    Range(Word(cdb[2], cdb[3], cdb[4], cdb[5]), cdb[7] as nat * 0x100 + cdb[8] as nat, ForceUnitAccess(cdb))
  }

  function Range12(cdb: CommandBlock): Range {
    Range(Word(cdb[2], cdb[3], cdb[4], cdb[5]), Word(cdb[6], cdb[7], cdb[8], cdb[9]), ForceUnitAccess(cdb))
  }

  function Range16(cdb: CommandBlock): Range {
    Range(Word(cdb[2], cdb[3], cdb[4], cdb[5]) * TWO_32 + Word(cdb[6], cdb[7], cdb[8], cdb[9]),
          Word(cdb[10], cdb[11], cdb[12], cdb[13]),
          ForceUnitAccess(cdb))
  }

  // SpdCdbGetRange, which goes by the group code in the upper three bits of the operation code.
  // The shifted fields do not overlap, so their bitwise or is their sum.
  function GetRange(cdb: CommandBlock): Range
    requires IsRangeOp(cdb[0])
  {
    match cdb[0] / 0x20
    case 0 => Range6(cdb)
    case 4 => Range16(cdb)
    case 5 => Range12(cdb)
    case _ => Range10(cdb)
  }

  // ----- The command formats, as an encoder -----

  datatype Format = Six | Ten | Twelve | Sixteen

  function FormatOf(op: byte): Format
    requires IsRangeOp(op)
  {
    if op == READ6 || op == WRITE6 then Six
    else if op == READ12 || op == WRITE12 then Twelve
    else if op == READ16 || op == WRITE16 || op == SYNC16 then Sixteen
    else Ten
  }

  // What a format can say. The six-byte commands have no FUA bit, and say 256 blocks by zero.
  ghost predicate Expressible(f: Format, r: Range) {
    match f
    case Six => r.address < 0x20_0000 && 1 <= r.count <= 256 && !r.fua
    case Ten => r.address < TWO_32 && r.count < 0x1_0000
    case Twelve => r.address < TWO_32 && r.count < TWO_32
    case Sixteen => r.address < TWO_64 && r.count < TWO_32
  }

  // Byte 1 with the FUA bit, the other bits being whatever `spare` says.
  function Flags(fua: bool, spare: byte): byte {
    (spare / 0x10) * 0x10 + (if fua then 8 else 0) + spare % 8
  }

  function Encode6(op: byte, r: Range, spare: byte): CommandBlock {
    var a := ToBigEndian(r.address, 3);
    [op, (spare / 0x20) * 0x20 + a[0] % 0x20, a[1], a[2], (r.count % 256) as byte] + seq(11, _ => spare)
  }

  function Encode10(op: byte, r: Range, spare: byte): CommandBlock {
    [op, Flags(r.fua, spare)] + ToBigEndian(r.address, 4) + [spare] + ToBigEndian(r.count, 2) + seq(7, _ => spare)
  }

  function Encode12(op: byte, r: Range, spare: byte): CommandBlock {
    [op, Flags(r.fua, spare)] + ToBigEndian(r.address, 4) + ToBigEndian(r.count, 4) + seq(6, _ => spare)
  }

  function Encode16(op: byte, r: Range, spare: byte): CommandBlock {
    [op, Flags(r.fua, spare)] + ToBigEndian(r.address, 8) + ToBigEndian(r.count, 4) + [spare, spare]
  }

  // The command block for a range; `spare` gives the bits and bytes the range does not use.
  function Encode(op: byte, r: Range, spare: byte): CommandBlock
    requires IsRangeOp(op)
  {
    match FormatOf(op)
    case Six => Encode6(op, r, spare)
    case Ten => Encode10(op, r, spare)
    case Twelve => Encode12(op, r, spare)
    case Sixteen => Encode16(op, r, spare)
  }

  lemma Word4(bs: Data)
    requires |bs| == 4
    ensures Word(bs[0], bs[1], bs[2], bs[3]) == BigEndian(bs)
  {
    BigEndian4(bs);
  }

  lemma Powers()
    ensures Power256(2) == 0x1_0000 && Power256(3) == 0x100_0000 && Power256(4) == TWO_32 && Power256(8) == TWO_64
  {
    assert Power256(3) == 0x100 * Power256(2);
    assert Power256(5) == 0x100 * Power256(4);
    assert Power256(7) == 0x100 * Power256(6);
  }

  lemma FlagsDecode(fua: bool, spare: byte)
    ensures (Flags(fua, spare) / 8) % 2 == 1 <==> fua
  {
  }

  lemma BigEndian2(bs: Data)
    requires |bs| == 2
    ensures BigEndian(bs) == bs[0] as nat * 0x100 + bs[1] as nat
  {
    assert bs[..1] == [bs[0]];
    assert BigEndian(bs[..1]) == bs[0] as nat;
  }

  lemma Decode10(op: byte, r: Range, spare: byte)
    requires Expressible(Ten, r)
    ensures Range10(Encode10(op, r, spare)) == r
  {
    var cdb := Encode10(op, r, spare);
    Powers();
    BigEndianRoundTrip(r.address, 4);
    BigEndianRoundTrip(r.count, 2);
    FlagsDecode(r.fua, spare);
    hide ToBigEndian, BigEndian, Power256, Word, Flags;
    assert cdb[2..6] == ToBigEndian(r.address, 4);
    Word4(cdb[2..6]);
    assert cdb[7..9] == ToBigEndian(r.count, 2);
    BigEndian2(cdb[7..9]);
  }

  lemma Decode12(op: byte, r: Range, spare: byte)
    requires Expressible(Twelve, r)
    ensures Range12(Encode12(op, r, spare)) == r
  {
    var cdb := Encode12(op, r, spare);
    Powers();
    BigEndianRoundTrip(r.address, 4);
    BigEndianRoundTrip(r.count, 4);
    FlagsDecode(r.fua, spare);
    hide BigEndian, ToBigEndian, Power256, Word, Flags;
    assert cdb[2..6] == ToBigEndian(r.address, 4);
    Word4(cdb[2..6]);
    assert cdb[6..10] == ToBigEndian(r.count, 4);
    Word4(cdb[6..10]);
  }

  lemma Word8(bs: Data)
    requires |bs| == 8
    ensures Word(bs[0], bs[1], bs[2], bs[3]) * TWO_32 + Word(bs[4], bs[5], bs[6], bs[7]) == BigEndian(bs)
  {
    BigEndian8(bs);
    Word4(bs[..4]);
    Word4(bs[4..]);
  }

  lemma Decode16(op: byte, r: Range, spare: byte)
    requires Expressible(Sixteen, r)
    ensures Range16(Encode16(op, r, spare)) == r
  {
    var cdb := Encode16(op, r, spare);
    Powers();
    BigEndianRoundTrip(r.address, 8);
    BigEndianRoundTrip(r.count, 4);
    FlagsDecode(r.fua, spare);
    hide BigEndian, ToBigEndian, Power256, Word, Flags;
    assert cdb[2..10] == ToBigEndian(r.address, 8);
    Word8(cdb[2..10]);
    assert cdb[10..14] == ToBigEndian(r.count, 4);
    Word4(cdb[10..14]);
  }

  lemma BigEndian3(bs: Data)
    requires |bs| == 3
    ensures BigEndian(bs) == bs[0] as nat * 0x1_0000 + bs[1] as nat * 0x100 + bs[2] as nat
  {
    assert bs[..2] == [bs[0], bs[1]] && bs[..2][..1] == [bs[0]];
    assert BigEndian(bs[..2][..1]) == bs[0] as nat;
  }

  lemma Decode6(op: byte, r: Range, spare: byte)
    requires Expressible(Six, r)
    ensures Range6(Encode6(op, r, spare)) == r
  {
    Powers();
    BigEndianRoundTrip(r.address, 3);
    BigEndian3(ToBigEndian(r.address, 3));
    hide BigEndian, ToBigEndian, Power256;
    var a := ToBigEndian(r.address, 3);
    assert a[0] as nat < 0x20;
    LowFive(spare, a[0]);
    assert Encode6(op, r, spare)[..5] == [op, (spare / 0x20) * 0x20 + a[0] % 0x20, a[1], a[2], (r.count % 256) as byte];
  }

  lemma LowFive(spare: byte, a: byte)
    requires a < 0x20
    ensures (spare / 0x20) * 0x20 + a % 0x20 <= 0xff && ((spare / 0x20) * 0x20 + a % 0x20) % 0x20 == a
  {
  }

  // Decoding undoes the standard's encoding, whatever the bits outside the range fields are.
  lemma DecodeEncode(op: byte, r: Range, spare: byte)
    requires IsRangeOp(op) && Expressible(FormatOf(op), r)
    ensures Encode(op, r, spare)[0] == op && GetRange(Encode(op, r, spare)) == r
  {
    hide Range6, Range10, Range12, Range16, Word, Flags, ToBigEndian, Expressible;
    match FormatOf(op)
    case Six => Decode6(op, r, spare);
    case Ten => Decode10(op, r, spare);
    case Twelve => Decode12(op, r, spare);
    case Sixteen => Decode16(op, r, spare);
  }

  // And every command block decodes to a range its format can express.
  lemma DecodedIsExpressible(cdb: CommandBlock)
    requires IsRangeOp(cdb[0])
    ensures Expressible(FormatOf(cdb[0]), GetRange(cdb))
  {
  }
}
