/** Bytes and the two byte orders the code reads and writes numbers in. */
module Bytes {
  newtype byte = b: int | 0 <= b < 0x100

  type Data = seq<byte>

  const TWO_32: nat := 0x1_0000_0000
  const TWO_64: nat := 0x1_0000_0000_0000_0000

  function BigEndian(bs: Data): nat {
    if bs == [] then 0 else 0x100 * BigEndian(bs[..|bs| - 1]) + bs[|bs| - 1] as nat
  }

  function LittleEndian(bs: Data): nat {
    if bs == [] then 0 else bs[0] as nat + 0x100 * LittleEndian(bs[1..])
  }

  // The big-endian bytes of v, `width` of them: the reference encoder.
  function ToBigEndian(v: nat, width: nat): (bs: Data)
    ensures |bs| == width
  {
    if width == 0 then [] else ToBigEndian(v / 0x100, width - 1) + [(v % 0x100) as byte]
  }

  function Power256(n: nat): (p: nat)
    ensures p > 0
  {
    if n == 0 then 1 else 0x100 * Power256(n - 1)
  }

  lemma {:induction false} BigEndianRoundTrip(v: nat, width: nat)
    requires v < Power256(width)
    ensures BigEndian(ToBigEndian(v, width)) == v
  {
    if width > 0 {
      var bs := ToBigEndian(v, width);
      assert bs[..width - 1] == ToBigEndian(v / 0x100, width - 1);
      BigEndianRoundTrip(v / 0x100, width - 1);
    }
  }

  lemma {:induction false} BigEndianBound(bs: Data)
    ensures BigEndian(bs) < Power256(|bs|)
  {
    if bs != [] { BigEndianBound(bs[..|bs| - 1]); }
  }

  lemma BigEndian4(bs: Data)
    requires |bs| == 4
    ensures BigEndian(bs) == bs[0] as nat * 0x100_0000 + bs[1] as nat * 0x1_0000 + bs[2] as nat * 0x100 + bs[3] as nat
    ensures BigEndian(bs) < TWO_32
  {
    assert bs[..3][..2][..1] == [bs[0]] && bs[..3][..2] == [bs[0], bs[1]] && bs[..3] == [bs[0], bs[1], bs[2]];
    assert BigEndian(bs[..3][..2][..1]) == bs[0] as nat;
  }

  lemma BigEndian8(bs: Data)
    requires |bs| == 8
    ensures BigEndian(bs) == BigEndian(bs[..4]) * TWO_32 + BigEndian(bs[4..])
    ensures BigEndian(bs) < TWO_64
  {
    assert bs[..7][..6][..5][..4] == bs[..4];
    BigEndian4(bs[4..]);
    BigEndian4(bs[..4]);
    assert BigEndian(bs[..7][..6][..5]) == 0x100 * BigEndian(bs[..4]) + bs[4] as nat;
    assert BigEndian(bs[..7][..6]) == 0x100 * BigEndian(bs[..7][..6][..5]) + bs[5] as nat;
  }
}
