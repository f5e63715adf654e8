/** MurmurHash2 and its two variants: one reads aligned words only and slides a
    window over them, one reads octets. All give the same hash. */
module Murmur {
  import opened Arith
  import opened Bits

  type Byte = x: int | 0 <= x < 0x100

  const M: Word := 0x5bd1e995

  /* The hash, as a function of the key. */

  /** Up to four octets as a number, the lowest first. */
  function Value(s: seq<Byte>): nat
    decreases |s|
  {
    if s == [] then 0 else s[0] + 0x100 * Value(s[1..])
  }

  lemma {:induction false} ValueBound(s: seq<Byte>)
    ensures Value(s) < Pow2(8 * |s|)
    decreases |s|
  {
    if s != [] {
      ValueBound(s[1..]);
      Pow2Adds(8, 8 * |s| - 8);
      Pow32();
    }
  }

  function AsWord(s: seq<Byte>): Word
    requires |s| <= 4
  {
    ValueBound(s);
    Pow2Grows(8 * |s|, 32);
    Pow32();
    Value(s)
  }

  function Times(h: Word): Word {
    (h * M) % BASE
  }

  function Scramble(k: Word): Word {
    var k1 := Times(k);
    Times(Xor(k1, ShiftRight(k1, 24)))
  }

  function Mix(h: Word, k: Word): Word {
    Xor(Times(h), Scramble(k))
  }

  /** The last octets, fewer than four. */
  function Tail(h: Word, rest: seq<Byte>): Word
    requires |rest| < 4
  {
    if rest == [] then h else Times(Xor(h, AsWord(rest)))
  }

  function Avalanche(h: Word): Word {
    var h1 := Times(Xor(h, ShiftRight(h, 13)));
    Xor(h1, ShiftRight(h1, 15))
  }

  /** The hash from the state h on. */
  function From(h: Word, key: seq<Byte>): Word
    decreases |key|
  {
    if |key| < 4 then Avalanche(Tail(h, key)) else From(Mix(h, AsWord(key[..4])), key[4..])
  }

  /** A key's length is a C int. */
  type Key = k: seq<Byte> | |k| < 0x8000_0000 witness []

  function Hash(key: Key, seed: Word): Word {
    From(Xor(seed, |key|), key)
  }

  /** Every bit of w is the exclusive or of a bit of x and the bit of y that is k
      places higher. */
  ghost predicate XorOf(w: Word, x: Word, y: Word, k: nat) {
    forall n: nat :: BitIsXor(w, x, y, k, n)
  }

  predicate BitIsXor(w: Word, x: Word, y: Word, k: nat, n: nat) {
    Bit(w, n) == if Bit(x, n) == Bit(y, n + k) then 0 else 1
  }

  lemma XorIs(x: Word, y: Word, k: nat)
    ensures XorOf(Xor(x, ShiftRight(y, k)), x, y, k)
  {
    forall n: nat ensures BitIsXor(Xor(x, ShiftRight(y, k)), x, y, k, n) {
      XorBits(x, ShiftRight(y, k), n);
      ShiftedBits(y, k, n);
    }
  }

  /** The last mixing: the hash h is mixed with itself shifted by 13, multiplied,
      and mixed with itself shifted by 15. */
  lemma AvalancheMeans(h: Word)
    ensures exists a: Word ::
              && XorOf(a, h, h, 13)
              && XorOf(Avalanche(h), (a * 0x5bd1e995) % 0x1_0000_0000, (a * 0x5bd1e995) % 0x1_0000_0000, 15)
  {
    var a := Xor(h, ShiftRight(h, 13));
    XorIs(h, h, 13);
    XorIs(Times(a), Times(a), 15);
    assert XorOf(a, h, h, 13);
  }

  /** What four octets do to the hash h: their number, lowest first, is multiplied,
      mixed with itself shifted by 24, multiplied again, and mixed into the multiple
      of h. */
  lemma MixMeans(h: Word, s: seq<Byte>)
    requires |s| == 4
    ensures exists k: Word, a: Word ::
              && k == (Octets4(s[0], s[1], s[2], s[3]) * 0x5bd1e995) % 0x1_0000_0000
              && XorOf(a, k, k, 24)
              && XorOf(Mix(h, AsWord(s)), (h * 0x5bd1e995) % 0x1_0000_0000, (a * 0x5bd1e995) % 0x1_0000_0000, 0)
  {
    Octets4Is(s);
    var k := Times(AsWord(s));
    var a := Xor(k, ShiftRight(k, 24));
    XorIs(k, k, 24);
    MixIs(Times(h), Times(a));
    assert XorOf(a, k, k, 24);
  }

  function Octets4(a: int, b: int, c: int, d: int): int {
    a + 0x100 * b + 0x1_0000 * c + 0x100_0000 * d
  }

  lemma Octets4Is(s: seq<Byte>)
    requires |s| == 4
    ensures AsWord(s) == Octets4(s[0], s[1], s[2], s[3])
  {
    assert s[1..][1..] == s[2..] && s[2..][1..] == s[3..] && s[3..][1..] == [];
    assert Value(s[3..]) == s[3];
    assert Value(s[2..]) == s[2] as int + 0x100 * Value(s[3..]);
    assert Value(s[1..]) == s[1] as int + 0x100 * Value(s[2..]);
  }

  lemma MixIs(x: Word, y: Word)
    ensures XorOf(Xor(x, y), x, y, 0)
  {
    XorIs(x, y, 0);
    assert ShiftRight(y, 0) == y;
  }

  /* Octets put together by shifts. */

  lemma {:induction false} ValueSplits(s: seq<Byte>, n: nat)
    requires n <= |s|
    ensures Value(s) == Value(s[n..]) * Pow2(8 * n) + Value(s[..n])
    decreases n
  {
    if n > 0 {
      ValueSplits(s[1..], n - 1);
      assert s[..n] == [s[0]] + s[1..][..n - 1];
      Pow2Adds(8, 8 * n - 8);
      Pow32();
      Distribute(Value(s[1..][..n - 1]), Pow2(8 * n - 8), Value(s[n..]));
    } else {
      assert s[0..] == s;
    }
  }

  lemma Distribute(a: int, p: int, b: int)
    ensures 0x100 * (b * p + a) == b * (0x100 * p) + 0x100 * a
  {
    assert 0x100 * (b * p) == b * (0x100 * p);
  }

  /** The lower and the upper octets of a word. */
  lemma SplitWord(s: seq<Byte>, n: nat)
    requires n <= |s|
    ensures Value(s) % Pow2(8 * n) == Value(s[..n]) && Value(s) / Pow2(8 * n) == Value(s[n..])
  {
    var low, high, p := Value(s[..n]), Value(s[n..]), Pow2(8 * n);
    ValueSplits(s, n);
    ValueBound(s[..n]);
    DivModUnique(Value(s), p, high, low);
  }

  /** Two groups of octets that do not meet. */
  lemma Joined(a: seq<Byte>, b: seq<Byte>)
    ensures var low, high := Value(a), Value(b) * Pow2(8 * |a|);
            OrNat(low, high) == OrNat(high, low) == XorNat(low, high) == XorNat(high, low) == Value(a + b)
  {
    ValueBound(a);
    Disjoint(Value(a), Value(b), 8 * |a|);
    ValueSplits(a + b, |a|);
    assert (a + b)[..|a|] == a && (a + b)[|a|..] == b;
  }

  lemma {:induction false} Pow2Grows(m: nat, n: nat)
    requires m <= n
    ensures Pow2(m) <= Pow2(n)
    decreases n
  {
    if m < n {
      Pow2Grows(m, n - 1);
    }
  }

  lemma Disjoint8(x: nat, y: nat)
    requires x < 0x100
    ensures OrNat(x, 0x100 * y) == OrNat(0x100 * y, x) == XorNat(0x100 * y, x) == x + 0x100 * y
  {
    Pow32();
    Disjoint(x, y, 8);
    assert y * Pow2(8) == 0x100 * y;
  }

  lemma Disjoint16(x: nat, y: nat)
    requires x < 0x1_0000
    ensures OrNat(x, 0x1_0000 * y) == OrNat(0x1_0000 * y, x) == XorNat(0x1_0000 * y, x) == x + 0x1_0000 * y
  {
    Pow32();
    Disjoint(x, y, 16);
    assert y * Pow2(16) == 0x1_0000 * y;
  }

  lemma Disjoint24(x: nat, y: nat)
    requires x < 0x100_0000
    ensures OrNat(x, 0x100_0000 * y) == x + 0x100_0000 * y
  {
    Pow32();
    Disjoint(x, y, 24);
    assert y * Pow2(24) == 0x100_0000 * y;
  }

  /** Octet i moved to its place. */
  function Placed(b: Byte, i: nat): Word
    requires i < 4
  {
    if i == 0 then b else if i == 1 then 0x100 * (b as int) else if i == 2 then 0x1_0000 * (b as int) else 0x100_0000 * (b as int)
  }

  function Sum(d0: Byte, d1: Byte, d2: Byte, d3: Byte): Word {
    (d0 as int) + 0x100 * (d1 as int) + 0x1_0000 * (d2 as int) + 0x100_0000 * (d3 as int)
  }

  lemma TwoHighest(d0: Byte, d1: Byte)
    ensures Or(Placed(d1, 1), d0) == XorNat(Placed(d1, 1), d0) == Sum(d0, d1, 0, 0)
  {
    Disjoint8(d0, d1);
  }

  lemma OrHighest(d0: Byte, d1: Byte, d2: Byte)
    ensures Or(Or(Placed(d2, 2), Placed(d1, 1)), d0) == Sum(d0, d1, d2, 0)
  {
    var upper := d1 as int + 0x100 * d2 as int;
    Disjoint16(0x100 * d1 as int, d2);
    assert Or(Placed(d2, 2), Placed(d1, 1)) == 0x100 * upper;
    Disjoint8(d0, upper);
  }

  lemma XorHighest(d0: Byte, d1: Byte, d2: Byte)
    ensures XorNat(Placed(d2, 2), XorNat(Placed(d1, 1), d0)) == Sum(d0, d1, d2, 0)
  {
    TwoHighest(d0, d1);
    Disjoint16(Sum(d0, d1, 0, 0), d2);
  }

  /** Octets put in their places from the highest down. */
  lemma FromHighest(d0: Byte, d1: Byte, d2: Byte)
    ensures Or(Or(Placed(d2, 2), Placed(d1, 1)), d0) == Sum(d0, d1, d2, 0)
    ensures XorNat(Placed(d2, 2), XorNat(Placed(d1, 1), d0)) == Sum(d0, d1, d2, 0)
    ensures Or(Placed(d1, 1), d0) == XorNat(Placed(d1, 1), d0) == Sum(d0, d1, 0, 0)
  {
    TwoHighest(d0, d1);
    OrHighest(d0, d1, d2);
    XorHighest(d0, d1, d2);
  }

  /** Octets put in their places from the lowest up. */
  lemma FromLowest(d0: Byte, d1: Byte, d2: Byte, d3: Byte)
    ensures Or(Or(Or(d0, Placed(d1, 1)), Placed(d2, 2)), Placed(d3, 3)) == Sum(d0, d1, d2, d3)
  {
    Disjoint8(d0, d1);
    Disjoint16(Sum(d0, d1, 0, 0), d2);
    Disjoint24(Sum(d0, d1, d2, 0), d3);
  }

  lemma ValueOf(s: seq<Byte>)
    ensures |s| == 0 ==> Value(s) == 0
    ensures |s| == 1 ==> Value(s) == s[0]
    ensures |s| == 2 ==> Value(s) == Sum(s[0], s[1], 0, 0)
    ensures |s| == 3 ==> Value(s) == Sum(s[0], s[1], s[2], 0)
    ensures |s| == 4 ==> Value(s) == Sum(s[0], s[1], s[2], s[3])
  {
    if s != [] {
      ValueOf(s[1..]);
    }
  }

  /** Reading a word in one go, on a little-endian machine. */
  function ReadWord(key: seq<Byte>, i: nat): Word
    requires i + 4 <= |key|
  {
    AsWord(key[i..i + 4])
  }

  /** The switch that collects n octets in a register that was zero. */
  method LowOctets(key: seq<Byte>, i: nat, n: nat) returns (t: Word)
    requires n < 4 && i + n <= |key|
    ensures t == AsWord(key[i..i + n])
  {
    ValueOf(key[i..i + n]);
    t := 0;
    if n >= 3 {
      FromHighest(key[i], key[i + 1], key[i + 2]);
      WithZero(Placed(key[i + 2], 2));
      t := Or(t, Placed(key[i + 2], 2));
    }
    if n >= 2 {
      FromHighest(key[i], key[i + 1], 0);
      WithZero(Placed(key[i + 1], 1));
      t := Or(t, Placed(key[i + 1], 1));
    }
    if n >= 1 {
      WithZero(key[i]);
      t := Or(t, key[i]);
    }
  }

  lemma XorThree(h: Word, x: Word, y: Word, z: Word)
    ensures Xor(Xor(Xor(h, x), y), z) == XorNat(h, XorNat(x, XorNat(y, z)))
    ensures Xor(Xor(h, y), z) == XorNat(h, XorNat(y, z))
  {
    XorAssociates(XorNat(h, x), y, z);
    XorAssociates(h, x, XorNat(y, z));
    XorAssociates(h, y, z);
  }

  /** Mixing octets in one by one mixes in the number they make. */
  lemma XorOctets(h: Word, rest: seq<Byte>)
    requires 0 < |rest| < 4
    ensures Xor(h, AsWord(rest)) ==
      if |rest| == 3 then Xor(Xor(Xor(h, Placed(rest[2], 2)), Placed(rest[1], 1)), rest[0])
      else if |rest| == 2 then Xor(Xor(h, Placed(rest[1], 1)), rest[0])
      else Xor(h, rest[0])
  {
    ValueOf(rest);
    if |rest| == 3 {
      FromHighest(rest[0], rest[1], rest[2]);
      XorThree(h, Placed(rest[2], 2), Placed(rest[1], 1), rest[0]);
    } else if |rest| == 2 {
      FromHighest(rest[0], rest[1], 0);
      XorThree(h, 0, Placed(rest[1], 1), rest[0]);
    }
  }

  /** The switch that mixes the last n octets in. */
  method MixTail(key: seq<Byte>, i: nat, n: nat, h: Word) returns (r: Word)
    requires n < 4 && i + n == |key|
    ensures r == Tail(h, key[i..])
  {
    if n > 0 {
      XorOctets(h, key[i..]);
    }
    r := h;
    if n >= 3 {
      r := Xor(r, Placed(key[i + 2], 2));
    }
    if n >= 2 {
      r := Xor(r, Placed(key[i + 1], 1));
    }
    if n >= 1 {
      r := Xor(r, key[i]);
      r := Times(r);
    }
  }

  /** One word of the key, read at i. */
  lemma OneWord(h: Word, key: seq<Byte>, i: nat)
    requires i + 4 <= |key|
    ensures From(h, key[i..]) == From(Mix(h, ReadWord(key, i)), key[i + 4..])
  {
    assert key[i..][..4] == key[i..i + 4] && key[i..][4..] == key[i + 4..];
  }

  method MurmurHash2(key: Key, seed: Word) returns (h: Word)
    ensures h == Hash(key, seed)
  {
    h := Xor(seed, |key|);
    var data: nat, len := 0, |key|;
    assert key[0..] == key;
    while len >= 4
      invariant data + len == |key| && len >= 0 && From(h, key[data..]) == Hash(key, seed)
    {
      OneWord(h, key, data);
      h := Mix(h, ReadWord(key, data));
      data, len := data + 4, len - 4;
    }
    h := MixTail(key, data, len, h);
    h := Avalanche(h);
  }

  method MurmurHashNeutral2(key: Key, seed: Word) returns (h: Word)
    ensures h == Hash(key, seed)
  {
    h := Xor(seed, |key|);
    var data: nat, len := 0, |key|;
    assert key[0..] == key;
    while len >= 4
      invariant data + len == |key| && len >= 0 && From(h, key[data..]) == Hash(key, seed)
    {
      OneWord(h, key, data);
      var k := ReadOctets(key, data);
      h := Mix(h, k);
      data, len := data + 4, len - 4;
    }
    h := MixTail(key, data, len, h);
    h := Avalanche(h);
  }

  method ReadOctets(key: seq<Byte>, i: nat) returns (k: Word)
    requires i + 4 <= |key|
    ensures k == ReadWord(key, i)
  {
    FromLowest(key[i], key[i + 1], key[i + 2], key[i + 3]);
    ValueOf(key[i..i + 4]);
    k := key[i];
    k := Or(k, Placed(key[i + 1], 1));
    k := Or(k, Placed(key[i + 2], 2));
    k := Or(k, Placed(key[i + 3], 3));
  }

  /* The window. */

  function Span(a: nat, held: seq<Byte>, next: seq<Byte>): seq<Byte> {
    held + if |next| < a then next else next[..a]
  }

  /** The lower octets of a word, seen through a shift that drops the others. */
  lemma LowPart(d: Word, a: nat, next: seq<Byte>)
    requires 1 <= a <= 3 && |next| <= 4 && d == Value(next)
    ensures d % Pow2(8 * a) == Value(Span(a, [], next))
  {
    assert [] + next == next && [] + next[..if |next| < a then 0 else a] == next[..if |next| < a then 0 else a];
    if |next| < a {
      ValueBound(next);
      Pow2Grows(8 * |next|, 8 * a);
      DivModUnique(d, Pow2(8 * a), 0, d);
    } else {
      SplitWord(next, a);
    }
  }

  /** The lower octets of a word, shifted up. */
  lemma LowShifted(d: Word, a: nat, next: seq<Byte>)
    requires 1 <= a <= 3 && |next| <= 4 && d == Value(next)
    ensures ShiftLeft(d, 32 - 8 * a) == Value(Span(a, [], next)) * Pow2(8 * (4 - a))
  {
    ShiftLeftKeeps(d, 32 - 8 * a);
    LowPart(d, a, next);
    assert 32 - 8 * a == 8 * (4 - a);
  }

  /** The upper octets of t are those held back; with the lower ones of d above
      them they make the next word. */
  lemma Window(t: Word, d: Word, a: nat, held: seq<Byte>, next: seq<Byte>)
    requires 1 <= a <= 3 && |held| == 4 - a && |next| <= 4
    requires t / Pow2(8 * a) == Value(held) && d == Value(next)
    ensures Or(ShiftRight(t, 8 * a), ShiftLeft(d, 32 - 8 * a)) == AsWord(Span(a, held, next))
  {
    var low := Span(a, [], next);
    LowShifted(d, a, next);
    Joined(held, low);
    assert held + low == Span(a, held, next);
  }

  /** The octets held back from the first, unaligned word. */
  lemma Preload(t: Word, a: nat, held: seq<Byte>)
    requires 1 <= a <= 3 && |held| == 4 - a && t == Value(held)
    ensures ShiftLeft(t, 8 * a) / Pow2(8 * a) == Value(held)
  {
    var p, m := Pow2(8 * a), Pow2(32 - 8 * a);
    ShiftLeftKeeps(t, 8 * a);
    ValueBound(held);
    DivModUnique(t, m, 0, t);
    DivModUnique(t * p, p, t, 0);
  }

  ghost predicate Sliding(key: Key, seed: Word, a: nat, h: Word, t: Word, data: nat) {
    && 1 <= a <= 3 && 4 - a <= data <= |key|
    && t / Pow2(8 * a) == Value(key[data - (4 - a)..data])
    && From(h, key[data - (4 - a)..]) == Hash(key, seed)
  }

  lemma SpanOfKey(key: Key, a: nat, data: nat, next: seq<Byte>)
    requires 1 <= a <= 3 && 4 - a <= data && |key| >= data + |next| && next == key[data..data + |next|] && a <= |next|
    ensures Span(a, key[data - (4 - a)..data], next) == key[data - (4 - a)..data + a]
  {
    assert next[..a] == key[data..data + a];
  }

  lemma SlideHash(key: Key, seed: Word, a: nat, h: Word, t: Word, data: nat, next: seq<Byte>)
    requires Sliding(key, seed, a, h, t, data) && |key| >= data + |next| && next == key[data..data + |next|]
    requires a <= |next| <= 4
    ensures From(Mix(h, Or(ShiftRight(t, 8 * a), ShiftLeft(AsWord(next), 32 - 8 * a))), key[data + a..]) == Hash(key, seed)
  {
    var start := data - (4 - a);
    var held := key[start..data];
    Window(t, AsWord(next), a, held, next);
    SpanOfKey(key, a, data, next);
    OneWord(h, key, start);
  }

  lemma SlideOn(key: Key, seed: Word, a: nat, h: Word, t: Word, data: nat)
    requires Sliding(key, seed, a, h, t, data) && data + 4 <= |key|
    ensures var d := ReadWord(key, data);
            Sliding(key, seed, a, Mix(h, Or(ShiftRight(t, 8 * a), ShiftLeft(d, 32 - 8 * a))), d, data + 4)
  {
    var next := key[data..data + 4];
    SlideHash(key, seed, a, h, t, data, next);
    SplitWord(next, a);
    assert next[a..] == key[data + a..data + 4];
  }

  /** What is left in the window and beyond it makes no word. */
  lemma SlideOut(key: Key, seed: Word, a: nat, h: Word, t: Word, data: nat)
    requires Sliding(key, seed, a, h, t, data) && |key| < data + a
    ensures var d := AsWord(key[data..]);
            Avalanche(Times(Xor(h, Or(ShiftRight(t, 8 * a), ShiftLeft(d, 32 - 8 * a))))) == Hash(key, seed)
  {
    var start, next := data - (4 - a), key[data..];
    var held := key[start..data];
    Window(t, AsWord(next), a, held, next);
    assert Span(a, held, next) == key[start..];
  }

  /** Enough octets are left to complete the word in the window. */
  method LastWord(key: Key, ghost seed: Word, align: nat, h: Word, t: Word, data: nat) returns (r: Word)
    requires Sliding(key, seed, align, h, t, data) && data + align <= |key| < data + 4
    ensures Avalanche(r) == Hash(key, seed)
  {
    var d := LowOctets(key, data, align);
    SlideHash(key, seed, align, h, t, data, key[data..data + align]);
    var k := Or(ShiftRight(t, 8 * align), ShiftLeft(d, 32 - 8 * align));
    r := MixTail(key, data + align, |key| - data - align, Mix(h, k));
  }

  /** The octets left in the window and beyond it. */
  method Leftover(key: Key, ghost seed: Word, align: nat, h: Word, t: Word, data: nat) returns (r: Word)
    requires Sliding(key, seed, align, h, t, data) && |key| < data + 4
    ensures r == Hash(key, seed)
  {
    var len := |key| - data;
    if len >= align {
      r := LastWord(key, seed, align, h, t, data);
    } else {
      SlideOut(key, seed, align, h, t, data);
      assert key[data..data + len] == key[data..];
      var d := LowOctets(key, data, len);
      r := Times(Xor(h, Or(ShiftRight(t, 8 * align), ShiftLeft(d, 32 - 8 * align))));
    }
    r := Avalanche(r);
  }

  lemma Begin(key: Key, seed: Word, a: nat, t: Word)
    requires 1 <= a <= 3 && |key| >= 4 && t == AsWord(key[..4 - a])
    ensures Sliding(key, seed, a, Xor(seed, |key|), ShiftLeft(t, 8 * a), 4 - a)
  {
    var held := key[..4 - a];
    Preload(t, a, held);
    assert key[0..4 - a] == held && key[0..] == key;
  }

  /** The octets before the first aligned word, as they wait in the window. */
  method FirstOctets(key: Key, align: nat, ghost seed: Word) returns (t: Word)
    requires 1 <= align <= 3 && |key| >= 4
    ensures Sliding(key, seed, align, Xor(seed, |key|), t, 4 - align)
  {
    t := LowOctets(key, 0, 4 - align);
    Begin(key, seed, align, t);
    t := ShiftLeft(t, 8 * align);
  }

  method MurmurHashAligned2(key: Key, align: nat, seed: Word) returns (h: Word)
    requires align < 4
    ensures h == Hash(key, seed)
  {
    if align == 0 || |key| < 4 {
      h := MurmurHash2(key, seed);
      return;
    }
    h := Xor(seed, |key|);
    var t := FirstOctets(key, align, seed);
    var data: nat, len := 4 - align, |key| - (4 - align);
    while len >= 4
      invariant data + len == |key| && len >= 0 && Sliding(key, seed, align, h, t, data)
    {
      SlideOn(key, seed, align, h, t, data);
      var d := ReadWord(key, data);
      h := Mix(h, Or(ShiftRight(t, 8 * align), ShiftLeft(d, 32 - 8 * align)));
      t := d;
      data, len := data + 4, len - 4;
    }
    h := Leftover(key, seed, align, h, t, data);
  }
}
