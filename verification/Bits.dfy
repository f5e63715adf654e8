/** Bit operations on unsigned numbers, and when "or" and "exclusive or" of two
    numbers are their sum. */
module Bits {
  import opened Arith

  const BASE := 0x1_0000_0000
  type Word = x: int | 0 <= x < BASE

  function Pow2(n: nat): (p: nat)
    ensures p > 0
  {
    if n == 0 then 1 else 2 * Pow2(n - 1)
  }

  function XorBit(x: nat, y: nat): (b: nat)
    ensures b <= 1
  {
    (x + y) % 2
  }

  function OrBit(x: nat, y: nat): (b: nat)
    ensures b <= 1
  {
    if x % 2 == 1 || y % 2 == 1 then 1 else 0
  }

  function XorNat(x: nat, y: nat): nat
    decreases x + y
  {
    if x == 0 && y == 0 then 0 else XorBit(x, y) + 2 * XorNat(x / 2, y / 2)
  }

  function OrNat(x: nat, y: nat): nat
    decreases x + y
  {
    if x == 0 && y == 0 then 0 else OrBit(x, y) + 2 * OrNat(x / 2, y / 2)
  }

  lemma {:induction false} Bounds(x: nat, y: nat, n: nat)
    requires x < Pow2(n) && y < Pow2(n)
    ensures XorNat(x, y) < Pow2(n) && OrNat(x, y) < Pow2(n)
    decreases n
  {
    if n > 0 {
      Bounds(x / 2, y / 2, n - 1);
    }
  }

  lemma Pow32()
    ensures Pow2(32) == BASE && Pow2(24) == 0x100_0000 && Pow2(16) == 0x1_0000 && Pow2(8) == 0x100
  {
    assert Pow2(4) == 16 && Pow2(8) == 0x100 && Pow2(12) == 0x1000 && Pow2(16) == 0x1_0000;
    assert Pow2(20) == 0x10_0000 && Pow2(24) == 0x100_0000 && Pow2(28) == 0x1000_0000 && Pow2(32) == BASE;
  }

  function Xor(x: Word, y: Word): Word {
    Pow32();
    Bounds(x, y, 32);
    XorNat(x, y)
  }

  function Or(x: Word, y: Word): Word {
    Pow32();
    Bounds(x, y, 32);
    OrNat(x, y)
  }

  /** Bit n of a number, the lowest being bit 0. */
  function Bit(x: nat, n: nat): nat
    decreases n
  {
    if n == 0 then x % 2 else Bit(x / 2, n - 1)
  }

  /** Exclusive or, bit by bit. */
  lemma {:induction false} XorBits(x: nat, y: nat, n: nat)
    ensures Bit(XorNat(x, y), n) == if Bit(x, n) == Bit(y, n) then 0 else 1
    decreases n
  {
    XorHalves(x, y);
    if n > 0 {
      XorBits(x / 2, y / 2, n - 1);
    }
  }

  lemma {:induction false} OrBits(x: nat, y: nat, n: nat)
    ensures Bit(OrNat(x, y), n) == if Bit(x, n) == 0 && Bit(y, n) == 0 then 0 else 1
    decreases n
  {
    OrSplits(x, y);
    if n > 0 {
      OrBits(x / 2, y / 2, n - 1);
    }
  }

  /** A shift to the right by k: bit n is what was bit n + k. */
  lemma {:induction false} ShiftedBits(x: Word, k: nat, n: nat)
    ensures Bit(ShiftRight(x, k), n) == Bit(x, n + k)
    decreases k
  {
    if k > 0 {
      ShiftedBits(x / 2, k - 1, n);
      HalfThenRest(x, Pow2(k - 1));
    }
  }

  lemma HalfThenRest(x: nat, p: nat)
    requires p > 0
    ensures x / 2 / p == x / (2 * p)
  {
    var h := x / 2;
    DivModSplits(h, p);
    assert h == p * (h / p) + h % p;
    Double(h / p, p);
    DivModUnique(x, 2 * p, h / p, 2 * (h % p) + x % 2);
  }

  lemma {:induction false} WithZero(y: nat)
    ensures XorNat(0, y) == y && OrNat(0, y) == y && XorNat(y, 0) == y && OrNat(y, 0) == y
    decreases y
  {
    if y > 0 {
      WithZero(y / 2);
    }
  }

  lemma XorHalves(x: nat, y: nat)
    ensures XorNat(x, y) % 2 == (x + y) % 2 && XorNat(x, y) / 2 == XorNat(x / 2, y / 2)
    ensures XorNat(x, y) == (x + y) % 2 + 2 * XorNat(x / 2, y / 2)
  {
  }

  lemma OrHalves(x: nat, y: nat)
    ensures OrNat(x, y) == OrBit(x, y) + 2 * OrNat(x / 2, y / 2)
  {
  }

  lemma OrSplits(x: nat, y: nat)
    ensures OrNat(x, y) % 2 == OrBit(x, y) && OrNat(x, y) / 2 == OrNat(x / 2, y / 2)
  {
    OrHalves(x, y);
  }

  lemma EvenHalf(x: nat, h: nat)
    ensures XorNat(x, 2 * h) == x % 2 + 2 * XorNat(x / 2, h) && XorNat(2 * h, x) == x % 2 + 2 * XorNat(h, x / 2)
    ensures OrNat(x, 2 * h) == x % 2 + 2 * OrNat(x / 2, h) && OrNat(2 * h, x) == x % 2 + 2 * OrNat(h, x / 2)
  {
    var y := 2 * h;
    assert y / 2 == h && (x + y) % 2 == x % 2;
    XorHalves(x, y);
    XorHalves(y, x);
    OrHalves(x, y);
    OrHalves(y, x);
  }

  lemma OneBitMore(x: nat, h: nat)
    requires XorNat(x / 2, h) == OrNat(x / 2, h) == XorNat(h, x / 2) == OrNat(h, x / 2) == x / 2 + h
    ensures XorNat(x, 2 * h) == OrNat(x, 2 * h) == XorNat(2 * h, x) == OrNat(2 * h, x) == x + 2 * h
  {
    EvenHalf(x, h);
  }

  lemma Double(y: int, p: int)
    ensures y * (2 * p) == 2 * (y * p)
  {
  }

  /** Bits that do not meet. */
  lemma {:induction false} Disjoint(x: nat, y: nat, n: nat)
    requires x < Pow2(n)
    ensures XorNat(x, y * Pow2(n)) == OrNat(x, y * Pow2(n)) == x + y * Pow2(n)
    ensures XorNat(y * Pow2(n), x) == OrNat(y * Pow2(n), x) == x + y * Pow2(n)
    decreases n
  {
    if n == 0 {
      WithZero(y);
    } else {
      Double(y, Pow2(n - 1));
      Disjoint(x / 2, y, n - 1);
      OneBitMore(x, y * Pow2(n - 1));
    }
  }

  lemma Parity(a: nat, x: nat, y: nat, z: nat)
    requires a % 2 == (x + y) % 2
    ensures (a + z) % 2 == (x + y + z) % 2
  {
  }

  lemma {:induction false} XorAssociates(x: nat, y: nat, z: nat)
    ensures XorNat(XorNat(x, y), z) == XorNat(x, XorNat(y, z))
    decreases x + y + z
  {
    if x > 0 || y > 0 || z > 0 {
      var xy, yz := XorNat(x, y), XorNat(y, z);
      XorAssociates(x / 2, y / 2, z / 2);
      XorHalves(x, y);
      XorHalves(y, z);
      XorHalves(xy, z);
      XorHalves(x, yz);
      Parity(xy, x, y, z);
      Parity(yz, y, z, x);
    } else {
      WithZero(0);
    }
  }

  function ShiftLeft(x: Word, n: nat): Word {
    (x * Pow2(n)) % BASE
  }

  function ShiftRight(x: Word, n: nat): (r: Word)
    ensures r <= x
  {
    DivModSplits(x, Pow2(n));
    x / Pow2(n)
  }

  lemma Twice(a: int, b: int)
    ensures 2 * (a * b) == (2 * a) * b
  {
  }

  lemma {:induction false} Pow2Adds(m: nat, n: nat)
    ensures Pow2(m + n) == Pow2(m) * Pow2(n)
    decreases m
  {
    if m > 0 {
      Pow2Adds(m - 1, n);
      Twice(Pow2(m - 1), Pow2(n));
    }
  }

  /** What a left shift keeps of a word. */
  lemma ShiftLeftKeeps(x: Word, n: nat)
    requires n <= 32
    ensures ShiftLeft(x, n) == (x % Pow2(32 - n)) * Pow2(n)
  {
    var p, m := Pow2(n), Pow2(32 - n);
    Pow32();
    Pow2Adds(32 - n, n);
    DivModSplits(x, m);
    ScaleSplit(x, p, m, x / m, x % m);
    DivModUnique(x * p, m * p, x / m, (x % m) * p);
  }

  lemma ScaleSplit(x: int, p: int, m: int, q: int, r: int)
    requires p > 0 && x == q * m + r && 0 <= r < m
    ensures x * p == q * (m * p) + r * p && 0 <= r * p < m * p
  {
    assert (q * m + r) * p == q * (m * p) + r * p;
    assert (m - r) * p > 0;
    assert r * p >= 0;
  }
}
