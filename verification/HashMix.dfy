/**
 The MurmurHash3 64-bit finalizer that the driver, the pipe transport and the tester each carry
 (src/sys/driver.h, src/shared/stghandle.c, src/stgtest/stgtest.c).
 */
module HashMix {
  // A UINT64 or a pointer as a number.
  type Word = n: nat | n < 0x1_0000_0000_0000_0000

  function XorShift(k: bv64): bv64 { k ^ (k >> 33) }
  function Times1(k: bv64): bv64 { k * 0xff51afd7ed558ccd }
  function Times2(k: bv64): bv64 { k * 0xc4ceb9fe1a85ec53 }

  function Mix64(k: bv64): bv64 {
    XorShift(Times2(XorShift(Times1(XorShift(k)))))
  }

  // The odd multipliers have inverses modulo 2^64.
  function Untimes1(k: bv64): bv64 { k * 0x4f74430c22a54005 }
  function Untimes2(k: bv64): bv64 { k * 0x9cb4b2f8129337db }

  function Unmix64(k: bv64): bv64 {
    XorShift(Untimes1(XorShift(Untimes2(XorShift(k)))))
  }

  // Each step is proved on its bits first, and the composition on the hidden functions.
  lemma XorShiftBits(x: bv64)
    ensures XorShift(x ^ (x >> 33)) == x
    ensures XorShift(x) == x ^ (x >> 33)
  {
  }

  lemma XorShiftTwice(x: bv64)
    ensures XorShift(XorShift(x)) == x
  {
    hide XorShift;
    XorShiftBits(x);
  }

  lemma TimesBits(x: bv64)
    ensures Untimes1(x * 0xff51afd7ed558ccd) == x && Times1(x) == x * 0xff51afd7ed558ccd
    ensures Untimes2(x * 0xc4ceb9fe1a85ec53) == x && Times2(x) == x * 0xc4ceb9fe1a85ec53
  {
  }

  lemma TimesBack(x: bv64)
    ensures Untimes1(Times1(x)) == x && Untimes2(Times2(x)) == x
  {
    hide Times1, Times2, Untimes1, Untimes2;
    TimesBits(x);
  }

  lemma UnmixMix(k: bv64)
    ensures Unmix64(Mix64(k)) == k
  {
    hide XorShift, Times1, Times2, Untimes1, Untimes2;
    var a := XorShift(k);
    var b := XorShift(Times1(a));
    XorShiftTwice(Times2(b));
    TimesBack(b);
    XorShiftTwice(Times1(a));
    TimesBack(a);
    XorShiftTwice(k);
  }

  lemma Injective(x: bv64, y: bv64)
    ensures Mix64(x) == Mix64(y) <==> x == y
  {
    hide Mix64, Unmix64;
    UnmixMix(x);
    UnmixMix(y);
  }

  lemma OnlyZeroToZero(x: bv64)
    ensures Mix64(x) == 0 <==> x == 0
  {
    ZeroToZero();
    hide Mix64;
    Injective(x, 0);
  }

  lemma ZeroToZero()
    ensures Mix64(0) == 0
  {
    assert XorShift(0) == 0 && Times1(0) == 0 && Times2(0) == 0;
  }
}
