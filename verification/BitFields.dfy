/** Big-endian bit fields, and the byte-at-a-time loop of src/scsitool/scsitext.c that reads them. */
module BitFields {
  import opened Arith
  import opened Bytes

  function Pow2(n: nat): (p: nat)
    ensures p > 0
  {
    if n == 0 then 1 else 2 * Pow2(n - 1)
  }

  lemma {:induction false} Pow2Add(a: nat, b: nat)
    ensures Pow2(a + b) == Pow2(a) * Pow2(b)
  {
    if a > 0 { Pow2Add(a - 1, b); }
  }

  lemma Pow2Four()
    ensures Pow2(4) == 0x10
  {
  }

  lemma Pow2Values()
    ensures Pow2(8) == 0x100 && Pow2(64) == TWO_64
  {
    hide Pow2;
    Pow2Four();
    Pow2Add(4, 4);
    Pow2Add(8, 8);
    Pow2Add(16, 16);
    Pow2Add(32, 32);
  }

  // Bit i of a buffer, the highest bit of a byte first.
  function Bit(buf: Data, i: nat): (b: nat)
    requires i < 8 * |buf|
    ensures b < 2
  {
    buf[i / 8] as nat / Pow2(7 - i % 8) % 2
  }

  // The number that n bits from lo on spell.
  function Bits(buf: Data, lo: nat, n: nat): (v: nat)
    requires lo + n <= 8 * |buf|
    ensures v < Pow2(n)
  {
    if n == 0 then 0 else 2 * Bits(buf, lo, n - 1) + Bit(buf, lo + n - 1)
  }

  lemma OneMoreBit(buf: Data, lo: nat, n: nat)
    requires lo + n < 8 * |buf|
    ensures Bits(buf, lo, n + 1) == 2 * Bits(buf, lo, n) + Bit(buf, lo + n)
    ensures Pow2(n + 1) == 2 * Pow2(n)
  {
  }

  lemma NoBits(buf: Data, lo: nat)
    requires lo <= 8 * |buf|
    ensures Bits(buf, lo, 0) == 0 && Pow2(0) == 1
  {
  }

  lemma SplitStep(x: nat, p: nat, q: nat, y: nat, bit: nat)
    requires q == 2 * p
    ensures 2 * (x * p + y) + bit == x * q + (2 * y + bit)
  {
    Associate(x, p, 2);
  }

  lemma {:induction false} BitsSplit(buf: Data, lo: nat, a: nat, b: nat)
    requires lo + a + b <= 8 * |buf|
    ensures Bits(buf, lo, a + b) == Bits(buf, lo, a) * Pow2(b) + Bits(buf, lo + a, b)
    decreases b
  {
    hide Bit, Bits, Pow2;
    if b == 0 {
      NoBits(buf, lo + a);
    } else {
      BitsSplit(buf, lo, a, b - 1);
      OneMoreBit(buf, lo, a + b - 1);
      OneMoreBit(buf, lo + a, b - 1);
      SplitStep(Bits(buf, lo, a), Pow2(b - 1), Pow2(b), Bits(buf, lo + a, b - 1), Bit(buf, lo + a + b - 1));
    }
  }

  // w bits of a byte, k bits from its top: ((u << k) & 0xff) >> (8 - w).
  function Chunk(u: byte, k: nat, w: nat): nat
    requires 1 <= w && k + w <= 8
  {
    LowByteOver(Times(u as nat, Pow2(k)), Pow2(8 - w))
  }

  function LowByteOver(n: nat, d: nat): nat
    requires d > 0
  {
    n % 0x100 / d
  }

  function Times(a: nat, b: nat): nat { a * b }

  lemma ModDouble(x: nat, v: nat)
    requires v > 0
    ensures 2 * (x / 2 % v) + x % 2 == x % (2 * v)
  {
    var q, r := x / 2 / v, x / 2 % v;
    assert x / 2 == q * v + r;
    assert x == q * (2 * v) + (2 * r + x % 2) by { assert 2 * (q * v) == q * (2 * v); }
    QuotientUnique(x, 2 * v, q, 2 * r + x % 2);
  }

  lemma DivDouble(u: nat, e: nat)
    requires e > 0
    ensures u / (2 * e) == u / e / 2
  {
    var x := u / e;
    assert u == x * e + u % e && x == x / 2 * 2 + x % 2;
    assert u == x / 2 * (2 * e) + (x % 2 * e + u % e) by {
      assert x / 2 * (2 * e) == x / 2 * 2 * e;
      assert x * e == (x / 2 * 2 + x % 2) * e == x / 2 * 2 * e + x % 2 * e;
    }
    QuotientUnique(u, 2 * e, x / 2, x % 2 * e + u % e);
  }

  lemma {:induction false} BitsOfByte(buf: Data, pos: nat, w: nat)
    requires pos < 8 * |buf| && pos % 8 + w <= 8
    ensures Bits(buf, pos, w) == buf[pos / 8] as nat / Pow2(8 - pos % 8 - w) % Pow2(w)
  {
    hide Bits, Pow2, Bit;
    if w == 0 {
      NoBits(buf, pos);
    } else {
      BitsOfByte(buf, pos, w - 1);
      OneMoreBit(buf, pos, w - 1);
      var e := 8 - pos % 8 - w;
      BitOfByte(buf, pos, w - 1);
      Pow2Double(e);
      ByteStep(buf[pos / 8] as nat, Pow2(e), Pow2(e + 1), Pow2(w - 1), Pow2(w));
    }
  }

  lemma BitOfByte(buf: Data, pos: nat, k: nat)
    requires pos < 8 * |buf| && pos % 8 + k < 8
    ensures pos + k < 8 * |buf| && Bit(buf, pos + k) == buf[pos / 8] as nat / Pow2(7 - pos % 8 - k) % 2
  {
    hide Pow2;
    assert (pos + k) / 8 == pos / 8 && (pos + k) % 8 == pos % 8 + k;
  }

  lemma ByteStep(u: nat, e: nat, f: nat, v: nat, w: nat)
    requires e > 0 && v > 0 && f == 2 * e && w == 2 * v
    ensures 2 * (u / f % v) + u / e % 2 == u / e % w
  {
    DivDouble(u, e);
    ModDouble(u / e, v);
  }

  lemma Pow2Double(n: nat)
    ensures Pow2(n + 1) == 2 * Pow2(n)
  {
  }

  lemma ChunkIsBits(buf: Data, pos: nat, w: nat)
    requires pos < 8 * |buf| && 1 <= w && pos % 8 + w <= 8
    ensures Chunk(buf[pos / 8], pos % 8, w) == Bits(buf, pos, w)
  {
    hide Bits, Pow2;
    BitsOfByte(buf, pos, w);
    var k := pos % 8;
    Pow2Values();
    Pow2Add(8 - k - w, k);
    Pow2Add(w, 8 - w);
    ChunkOf(buf[pos / 8] as nat, Pow2(8 - k - w), Pow2(k), Pow2(w), Pow2(8 - w));
  }

  // The masked and shifted byte, with e, p, w and m the powers of two below, above and of the
  // field, and of what is not the field.
  lemma ChunkOf(u: nat, e: nat, p: nat, w: nat, m: nat)
    requires e > 0 && p > 0 && w > 0 && m == e * p && m > 0 && w * m == 0x100
    ensures Times(u, p) % 0x100 / m == u / e % w
  {
    var x, t := u / e, u % e;
    var q, s := x / w, x % w;
    assert u == x * e + t && x == q * w + s;
    ChunkParts(u, x, t, q, s, e, p, w, m);
  }

  lemma ChunkParts(u: nat, x: nat, t: nat, q: nat, s: nat, e: nat, p: nat, w: nat, m: nat)
    requires p > 0 && m == e * p && m > 0 && w * m == 0x100
    requires u == x * e + t && t < e && x == q * w + s && s < w
    ensures Times(u, p) % 0x100 / m == s
  {
    Bounded(t, e, p);
    Bounded(s, w, m);
    ShiftedByte(u, x, t, q, s, e, p, w);
    MaskAndShift(Times(u, p), m, q, s, Times(t, p));
  }

  lemma MaskAndShift(up: nat, m: nat, q: nat, s: nat, tp: nat)
    requires m > 0 && up == q * 0x100 + (s * m + tp) && s * m + tp < 0x100 && tp < m
    ensures up % 0x100 / m == s
  {
    QuotientUnique(up, 0x100, q, s * m + tp);
    QuotientUnique(s * m + tp, m, s, tp);
  }

  lemma Bounded(t: nat, e: nat, p: nat)
    requires t < e && p > 0
    ensures t * p + p <= e * p && t * p < e * p && e * p > 0
  {
    MonotoneTimes(t + 1, e, p);
    Distribute(t, 1, p);
    MonotoneTimes(1, e, p);
  }

  lemma ShiftedByte(u: nat, x: nat, t: nat, q: nat, s: nat, e: nat, p: nat, w: nat)
    requires u == x * e + t && x == q * w + s && w * (e * p) == 0x100
    ensures u * p == q * 0x100 + (s * (e * p) + t * p)
  {
    Distribute(x * e, t, p);
    Associate(x, e, p);
    Distribute(q * w, s, e * p);
    Associate(q, w, e * p);
  }

  // uval <<= w; uval |= chunk: what is shifted out of the 64 bits is lost, and the chunk fills the
  // bits that were shifted in.
  function ShiftIn(uval: nat, w: nat, chunk: nat): nat {
    Times(uval, Pow2(w)) % TWO_64 + chunk
  }

  lemma ShiftInKeepsLow(v: nat, w: nat, chunk: nat)
    requires w <= 8 && chunk < Pow2(w)
    ensures ShiftIn(v % TWO_64, w, chunk) == (Times(v, Pow2(w)) + chunk) % TWO_64
  {
    hide Pow2;
    Pow2Values();
    Pow2Add(64 - w, w);
    ShiftInOf(v, Pow2(w), Pow2(64 - w), chunk);
  }

  lemma ShiftInOf(v: nat, p: nat, q: nat, c: nat)
    requires p > 0 && q > 0 && q * p == TWO_64 && c < p
    ensures Times(v % TWO_64, p) % TWO_64 + c == (Times(v, p) + c) % TWO_64
  {
    var low, high := v % TWO_64, v / TWO_64;
    var a, b := low / q, low % q;
    assert low == a * q + b && v == high * TWO_64 + low;
    Bounded(b, q, p);
    ShiftParts(low, a, b, p, q);
    QuotientUnique(Times(low, p), TWO_64, a, Times(b, p));
    Distribute(high * TWO_64, low, p);
    Associate(high, TWO_64, p);
    Associate(high, p, TWO_64);
    ShiftWhole(Times(v, p) + c, Times(high, p), a, Times(b, p) + c);
  }

  lemma ShiftParts(low: nat, a: nat, b: nat, p: nat, q: nat)
    requires low == a * q + b && q * p == TWO_64
    ensures Times(low, p) == a * TWO_64 + Times(b, p)
  {
    Distribute(a * q, b, p);
    Associate(a, q, p);
  }

  lemma ShiftWhole(n: nat, hp: nat, a: nat, r: nat)
    requires n == hp * TWO_64 + (a * TWO_64 + r) && r < TWO_64
    ensures n % TWO_64 == r
  {
    QuotientUnique(n, TWO_64, hp + a, r);
  }

  // The loop that reads a field: the bits from bitpos on as one big-endian number, of which the
  // low 64 bits remain.
  method ReadBits(buf: Data, bitpos: nat, width: nat) returns (uval: nat, endpos: nat)
    requires bitpos + width <= 8 * |buf|
    ensures endpos == bitpos + width && uval == Bits(buf, bitpos, width) % TWO_64
  {
    hide Bits, Pow2, Chunk;
    var pos: nat, loopw: nat := bitpos, width;
    uval := 0;
    NoBits(buf, bitpos);
    while 0 < loopw
      invariant bitpos <= pos && loopw <= width && pos + loopw == bitpos + width
      invariant uval == Bits(buf, bitpos, pos - bitpos) % TWO_64
    {
      var w := loopw;
      var byteEnd := (pos + 8) / 8 * 8;
      if pos + w > byteEnd { w := byteEnd - pos; }
      assert 1 <= w && pos % 8 + w <= 8;
      ChunkIsBits(buf, pos, w);
      BitsSplit(buf, bitpos, pos - bitpos, w);
      ShiftInKeepsLow(Bits(buf, bitpos, pos - bitpos), w, Bits(buf, pos, w));
      uval := ShiftIn(uval, w, Chunk(buf[pos / 8], pos % 8, w));
      pos := pos + w;
      loopw := loopw - w;
    }
    endpos := pos;
  }

  // Up to 64 bits nothing is lost.
  lemma NarrowFieldIsExact(buf: Data, lo: nat, n: nat)
    requires lo + n <= 8 * |buf| && n <= 64
    ensures Bits(buf, lo, n) % TWO_64 == Bits(buf, lo, n)
  {
    hide Bits, Pow2;
    Pow2Values();
    Pow2Add(n, 64 - n);
    MonotoneTimes(1, Pow2(64 - n), Pow2(n));
    assert Pow2(64 - n) * Pow2(n) == Pow2(n) * Pow2(64 - n);
  }

  lemma ByteBits(buf: Data, i: nat)
    requires i < |buf|
    ensures Bits(buf, 8 * i, 8) == buf[i] as nat
  {
    hide Bits, Pow2;
    assert 8 * i / 8 == i && 8 * i % 8 == 0;
    BitsOfByte(buf, 8 * i, 8);
    Pow2Values();
    NoBits(buf, 8 * i);
  }

  // On byte boundaries a field is the big-endian number of its bytes.
  lemma {:induction false} BitsOfBytes(buf: Data, at: nat, n: nat)
    requires at + n <= |buf|
    ensures Bits(buf, 8 * at, 8 * n) == BigEndian(buf[at..at + n])
  {
    hide Bits, Pow2;
    if n == 0 {
      NoBits(buf, 8 * at);
    } else {
      BitsOfBytes(buf, at, n - 1);
      BitsSplit(buf, 8 * at, 8 * (n - 1), 8);
      ByteBits(buf, at + n - 1);
      Pow2Values();
      assert buf[at..at + n][..n - 1] == buf[at..at + n - 1];
    }
  }
}
