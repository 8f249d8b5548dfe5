/** Exclusive or on numbers, bit by bit, and the CRC-32 the discovery packets carry. */
module Bits {
  import opened Bytes

  function Pow2(k: nat): (p: nat)
    ensures p > 0
  {
    if k == 0 then 1 else 2 * Pow2(k - 1)
  }

  /** Exclusive or of the low k bits of a and b. */
  function XorBits(a: nat, b: nat, k: nat): (r: nat)
    ensures r < Pow2(k)
  {
    if k == 0 then 0 else (if a % 2 != b % 2 then 1 else 0) + 2 * XorBits(a / 2, b / 2, k - 1)
  }

  lemma XorBitsCancel(a: nat, b: nat, k: nat)
    requires a < Pow2(k)
    ensures XorBits(XorBits(a, b, k), b, k) == a
  {
  }

  lemma XorBitsComm(a: nat, b: nat, k: nat)
    ensures XorBits(a, b, k) == XorBits(b, a, k)
  {
  }

  lemma {:induction false} XorBitsAssoc(a: nat, b: nat, c: nat, k: nat)
    ensures XorBits(XorBits(a, b, k), c, k) == XorBits(a, XorBits(b, c, k), k)
  {
    if k > 0 {
      XorBitsAssoc(a / 2, b / 2, c / 2, k - 1);
      var ab, bc := XorBits(a, b, k), XorBits(b, c, k);
      assert ab / 2 == XorBits(a / 2, b / 2, k - 1) && bc / 2 == XorBits(b / 2, c / 2, k - 1);
    }
  }

  lemma XorBitsZero(a: nat, k: nat)
    requires a < Pow2(k)
    ensures XorBits(a, 0, k) == a && XorBits(a, a, k) == 0
  {
  }

  /** Bits above both operands do not matter. */
  lemma {:induction false} XorBitsWiden(a: nat, b: nat, k: nat, m: nat)
    requires a < Pow2(k) && b < Pow2(k) && k <= m
    ensures XorBits(a, b, m) == XorBits(a, b, k)
    decreases m
  {
    if k == 0 {
      if m > 0 { XorBitsWiden(0, 0, 0, m - 1); }
    } else {
      XorBitsWiden(a / 2, b / 2, k - 1, m - 1);
    }
  }

  /** The top bit of an exclusive or in which exactly one operand has it. */
  lemma {:induction false} XorBitsTop(x: nat, y: nat, k: nat)
    requires x < Pow2(k) <= y < Pow2(k + 1)
    ensures XorBits(x, y, k + 1) >= Pow2(k)
  {
    if k > 0 {
      XorBitsTop(x / 2, y / 2, k - 1);
    }
  }

  function Xor(a: byte, b: byte): byte {
    assert Pow2(8) == 0x100;
    XorBits(a as nat, b as nat, 8) as byte
  }

  lemma XorCancel(a: byte, b: byte)
    ensures Xor(Xor(a, b), b) == a
  {
    assert Pow2(8) == 0x100;
    XorBitsCancel(a as nat, b as nat, 8);
  }

  function Xor32(a: u32, b: u32): u32 {
    Pow2At32();
    XorBits(a, b, 32)
  }

  lemma Pow2At32()
    ensures Pow2(31) == 0x8000_0000 && Pow2(32) == 0x1_0000_0000
  {
    Pow2Add8(0);
    Pow2Add8(8);
    Pow2Add8(16);
    Pow2Add8(24);
  }

  lemma Pow2Add8(k: nat)
    ensures Pow2(k + 8) == 0x100 * Pow2(k)
  {
    Pow2Add2(k);
    Pow2Add2(k + 2);
    Pow2Add2(k + 4);
    Pow2Add2(k + 6);
  }

  lemma Pow2Add2(k: nat)
    ensures Pow2(k + 2) == 4 * Pow2(k)
  {
    assert Pow2(k + 1) == 2 * Pow2(k);
  }

  lemma {:induction false} Xor32Zero(a: u32, b: u32)
    ensures Xor32(a, b) == 0 <==> a == b
  {
    Pow2At32();
    XorBitsCancel(a, b, 32);
    Xor32Unit(a);
    Xor32Unit(b);
  }

  lemma {:induction false} Xor32Unit(a: u32)
    ensures Xor32(a, 0) == a == Xor32(0, a) && Xor32(a, a) == 0
  {
    Pow2At32();
    XorBitsZero(a, 32);
    XorBitsComm(0, a, 32);
  }

  /** Regroups an exclusive or of four words. */
  lemma {:induction false} Xor32Exchange(a: u32, b: u32, c: u32, d: u32)
    ensures Xor32(Xor32(a, b), Xor32(c, d)) == Xor32(Xor32(a, c), Xor32(b, d))
  {
    XorBitsAssoc(a, b, Xor32(c, d), 32);
    XorBitsAssoc(b, c, d, 32);
    XorBitsComm(b, c, 32);
    XorBitsAssoc(c, b, d, 32);
    XorBitsAssoc(a, c, Xor32(b, d), 32);
  }

  // The reflected CRC-32 with initial value 0 and no final exclusive or.

  const POLY: u32 := 0xEDB8_8320

  /** The polynomial of section 3.2.9 of IEEE 802.3, its powers of x but the leading one counted from the top bit. */
  lemma PolyIsStandard()
    ensures POLY == Pow2(31 - 26) + Pow2(31 - 23) + Pow2(31 - 22) + Pow2(31 - 16) + Pow2(31 - 12) + Pow2(31 - 11)
                    + Pow2(31 - 10) + Pow2(31 - 8) + Pow2(31 - 7) + Pow2(31 - 5) + Pow2(31 - 4) + Pow2(31 - 2)
                    + Pow2(31 - 1) + Pow2(31 - 0)
  {
  }

  function CrcBit(c: u32): u32 {
    if c % 2 == 1 then Xor32(c / 2, POLY) else c / 2
  }

  function CrcSteps(c: u32, k: nat): u32
    decreases k, c
  {
    if k == 0 then c else CrcSteps(CrcBit(c), k - 1)
  }

  function CrcByte(c: u32, b: byte): u32 {
    CrcSteps(Xor32(c, b as u32), 8)
  }

  function CrcFrom(c: u32, b: bytes): u32
    decreases |b|
  {
    if b == [] then c else CrcFrom(CrcByte(c, b[0]), b[1..])
  }

  function Checksum(b: bytes): u32 {
    CrcFrom(0, b)
  }

  /** The polynomial's top bit tells whether the last bit was shifted out as a one. */
  lemma {:induction false} CrcBitInjective(c: u32, d: u32)
    requires CrcBit(c) == CrcBit(d)
    ensures c == d
  {
    Pow2At32();
    XorBitsTop(c / 2, POLY, 31);
    XorBitsTop(d / 2, POLY, 31);
    XorBitsCancel(c / 2, POLY, 32);
    XorBitsCancel(d / 2, POLY, 32);
  }

  lemma {:induction false} Halves(x: u32, y: u32)
    ensures Xor32(x, y) / 2 == Xor32(x / 2, y / 2)
    ensures Xor32(x, y) % 2 == 1 <==> x % 2 != y % 2
  {
    Pow2At32();
    XorBitsWiden(x / 2, y / 2, 31, 32);
  }

  /** What one shift adds: the polynomial when a one falls off the end. */
  function Tap(x: u32): u32 { if x % 2 == 1 then POLY else 0 }

  lemma CrcBitAsXor(x: u32)
    ensures CrcBit(x) == Xor32(x / 2, Tap(x))
  {
    Xor32Unit(x / 2);
  }

  lemma {:induction false} TapLinear(x: u32, y: u32)
    ensures Tap(Xor32(x, y)) == Xor32(Tap(x), Tap(y))
  {
    Halves(x, y);
    Xor32Unit(POLY);
    Xor32Unit(0);
  }

  lemma {:induction false} CrcBitLinear(x: u32, y: u32)
    ensures CrcBit(Xor32(x, y)) == Xor32(CrcBit(x), CrcBit(y))
  {
    CrcBitAsXor(x);
    CrcBitAsXor(y);
    CrcBitAsXor(Xor32(x, y));
    Halves(x, y);
    TapLinear(x, y);
    Xor32Exchange(x / 2, Tap(x), y / 2, Tap(y));
  }

  lemma {:induction false} CrcStepsInjective(c: u32, d: u32, k: nat)
    requires CrcSteps(c, k) == CrcSteps(d, k)
    ensures c == d
    decreases k
  {
    if k > 0 {
      CrcStepsInjective(CrcBit(c), CrcBit(d), k - 1);
      CrcBitInjective(c, d);
    }
  }

  lemma {:induction false} CrcStepsLinear(x: u32, y: u32, k: nat)
    ensures CrcSteps(Xor32(x, y), k) == Xor32(CrcSteps(x, k), CrcSteps(y, k))
    decreases k
  {
    if k > 0 {
      CrcBitLinear(x, y);
      CrcStepsLinear(CrcBit(x), CrcBit(y), k - 1);
    }
  }

  /** A word whose low byte is zero is only shifted. */
  lemma {:induction false} CrcStepsShift(v: u32)
    requires v < 0x100_0000
    ensures CrcSteps(0x100 * v, 8) == v
  {
    ShiftOut(0x40 * v, 6);
    ShiftOut(0x10 * v, 4);
    ShiftOut(0x4 * v, 2);
    ShiftOut(v, 0);
  }

  /** Two zero bits fall off without touching the rest. */
  lemma {:induction false} ShiftOut(v: u32, k: nat)
    requires v < 0x4000_0000
    ensures CrcSteps(4 * v, k + 2) == CrcSteps(v, k)
  {
    assert CrcBit(4 * v) == 2 * v && CrcBit(2 * v) == v;
    assert CrcSteps(4 * v, k + 2) == CrcSteps(2 * v, k + 1);
  }

  /** How the difference of two checksum states moves over one byte of each. */
  lemma {:induction false} CrcByteDifference(c: u32, d: u32, b: byte, e: byte)
    ensures Xor32(CrcByte(c, b), CrcByte(d, e)) == CrcSteps(Xor32(Xor32(c, d), Xor32(b as u32, e as u32)), 8)
  {
    CrcStepsLinear(Xor32(c, b as u32), Xor32(d, e as u32), 8);
    Xor32Exchange(c, b as u32, d, e as u32);
  }

  lemma {:induction false} Xor32Bound(a: u32, b: u32, k: nat)
    requires k <= 32 && a < Pow2(k) && b < Pow2(k)
    ensures Xor32(a, b) < Pow2(k)
  {
    XorBitsWiden(a, b, k, 32);
  }

  /**
   Two runs of at most four bytes that take states c and d to the same state started from
   states differing only in the bits those bytes can reach, and are equal if c and d are.
   */
  lemma {:induction false} CrcBurst(c: u32, d: u32, m: bytes, n: bytes)
    requires |m| == |n| <= 4 && CrcFrom(c, m) == CrcFrom(d, n)
    ensures Xor32(c, d) < Pow2(8 * |m|)
    ensures c == d ==> m == n
    decreases |m|
  {
    if m == [] {
      Xor32Unit(c);
    } else {
      CrcBurst(CrcByte(c, m[0]), CrcByte(d, n[0]), m[1..], n[1..]);
      CrcBurstStep(c, d, m[0], n[0], |m| - 1);
      if c == d {
        assert m == [m[0]] + m[1..] && n == [n[0]] + n[1..];
      }
    }
  }

  lemma {:induction false} CrcBurstStep(c: u32, d: u32, b: byte, e: byte, r: nat)
    requires r <= 3 && Xor32(CrcByte(c, b), CrcByte(d, e)) < Pow2(8 * r)
    ensures Xor32(c, d) < Pow2(8 * r + 8)
    ensures c == d ==> b == e && CrcByte(c, b) == CrcByte(d, e)
  {
    var after, x := Xor32(CrcByte(c, b), CrcByte(d, e)), Xor32(b as u32, e as u32);
    CrcByteDifference(c, d, b, e);
    Pow2Bounds(r);
    CrcUnstep(after, Xor32(c, d), x);
    Xor32Bound(b as u32, e as u32, 8);
    Xor32Bound(0x100 * after, x, 8 * r + 8);
    if c == d {
      Xor32Zero(c, d);
      NoDifference(after, b, e);
    }
  }

  lemma {:induction false} NoDifference(after: u32, b: byte, e: byte)
    requires after < 0x100_0000 && Xor32(0x100 * after, Xor32(b as u32, e as u32)) == 0
    ensures b == e
  {
    Xor32Zero(0x100 * after, Xor32(b as u32, e as u32));
    Pow2Bounds(0);
    Xor32Bound(b as u32, e as u32, 8);
    Xor32Zero(b as u32, e as u32);
  }

  /** A byte step that ends below 2^24 started from the end state moved up a byte. */
  lemma {:induction false} CrcUnstep(after: u32, before: u32, x: u32)
    requires after < 0x100_0000 && after == CrcSteps(Xor32(before, x), 8)
    ensures before == Xor32(0x100 * after, x)
  {
    CrcStepsShift(after);
    CrcStepsInjective(Xor32(before, x), 0x100 * after, 8);
    Pow2At32();
    XorBitsCancel(before, x, 32);
  }

  lemma Pow2Bounds(r: nat)
    requires r <= 3
    ensures Pow2(8) == 0x100 && Pow2(8 * r) <= 0x100_0000 && Pow2(8 * r + 8) == 0x100 * Pow2(8 * r)
  {
    Pow2Add8(0);
    Pow2Add8(8);
    Pow2Add8(16);
    Pow2Add8(8 * r);
  }

  lemma {:induction false} CrcFromInjective(c: u32, d: u32, b: bytes)
    requires CrcFrom(c, b) == CrcFrom(d, b)
    ensures c == d
    decreases |b|
  {
    if b != [] {
      CrcFromInjective(CrcByte(c, b[0]), CrcByte(d, b[0]), b[1..]);
      CrcStepsInjective(Xor32(c, b[0] as u32), Xor32(d, b[0] as u32), 8);
      Pow2At32();
      XorBitsCancel(c, b[0] as u32, 32);
      XorBitsCancel(d, b[0] as u32, 32);
    }
  }

  lemma {:induction false} CrcFromAppend(c: u32, a: bytes, b: bytes)
    ensures CrcFrom(c, a + b) == CrcFrom(CrcFrom(c, a), b)
    decreases |a|
  {
    if a == [] {
      assert a + b == b;
    } else {
      CrcFromAppend(CrcByte(c, a[0]), a[1..], b);
      assert (a + b)[1..] == a[1..] + b;
    }
  }

  /** Any change confined to four consecutive bytes changes the checksum. */
  lemma {:induction false} ChecksumDetectsBurst(pre: bytes, m: bytes, n: bytes, post: bytes)
    requires |m| == |n| <= 4 && m != n
    ensures Checksum(pre + m + post) != Checksum(pre + n + post)
  {
    var c := CrcFrom(0, pre);
    CrcFromAppend(0, pre, m);
    CrcFromAppend(0, pre, n);
    CrcFromAppend(0, pre + m, post);
    CrcFromAppend(0, pre + n, post);
    if Checksum(pre + m + post) == Checksum(pre + n + post) {
      CrcFromInjective(CrcFrom(c, m), CrcFrom(c, n), post);
      CrcBurst(c, c, m, n);
    }
  }
}
