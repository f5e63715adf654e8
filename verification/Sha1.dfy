/** The streaming digest: a 64-octet block buffer and two length counters,
    updated octet by octet. */
module Sha1 {
  import opened Octets
  import opened Sequences
  import opened Sha1Spec

  const SUCCESS := 0
  /** Set when the length counters wrap; the header calls code 1 shaNull. */
  const TOO_LONG := 1
  const STATE_ERROR := 3

  /** 2^61 octets, the first length whose bits do not fit the counters. */
  const LIMIT: nat := 0x2000_0000_0000_0000

  /** What a context stands for. */
  datatype Phase = Absorbing(m: seq<Octet>) | Done(m: seq<Octet>) | Broken(code: int)

  function AfterInput(p: Phase, bytes: seq<Octet>): (Phase, int) {
    if bytes == [] then (p, SUCCESS)
    else
      match p
      case Absorbing(m) => (if |m| + |bytes| < LIMIT then Absorbing(m + bytes) else Broken(TOO_LONG), SUCCESS)
      case Done(_) => (Broken(STATE_ERROR), STATE_ERROR)
      case Broken(code) => (p, code)
  }

  datatype Answer = Digested(d: seq<Octet>) | Failed(code: int)

  function AfterResult(p: Phase): (Phase, Answer) {
    match p
    case Absorbing(m) => (Done(m), Digested(Digest(m)))
    case Done(m) => (p, Digested(Digest(m)))
    case Broken(code) => (p, Failed(code))
  }

  /** All whole blocks of a message, and what is left over. */
  function Whole(m: seq<Octet>): (n: nat)
    ensures n <= |m| && n % 64 == 0 && |m| - n == |m| % 64
  {
    |m| - |m| % 64
  }

  lemma HashGrows(s: seq<Octet>, block: Block)
    requires |s| % 64 == 0
    ensures (|s| + 64) % 64 == 0 && Hash(s + block) == Compress(Hash(s), block)
  {
    assert (s + block)[..|s|] == s && (s + block)[|s|..] == block;
  }

  method ProcessBlock(hash: array<Word>, block: array<Octet>)
    requires hash.Length == 5 && block.Length == 64
    modifies hash
    ensures Registers(hash) == Compress(old(Registers(hash)), block[..])
  {
    ghost var start, bytes: Block := Registers(hash), block[..];
    var w := Schedule(block);
    var r := Regs(hash[0], hash[1], hash[2], hash[3], hash[4]);
    r := FirstTwenty(w, r, bytes, start);
    r := SecondTwenty(w, r, bytes, start);
    r := ThirdTwenty(w, r, bytes, start);
    r := LastTwenty(w, r, bytes, start);
    AddTo(hash, r);
  }

  /* The four loops of twenty rounds. */

  method FirstTwenty(w: array<Word>, r: Regs, ghost bytes: Block, ghost start: Regs) returns (q: Regs)
    requires w.Length == 80 && Scheduled(w[..], bytes, 80) && r == Rounds(bytes, start, 0)
    ensures q == Rounds(bytes, start, 20)
  {
    var a, b, c, d, e := r.a, r.b, r.c, r.d, r.e;
    var t: nat := 0;
    while t < 20
      invariant 0 <= t <= 20 && Regs(a, b, c, d, e) == Rounds(bytes, start, t)
    {
      assert w[t] == w[..][t] == W(bytes, t);
      var temp := Temp(a, Choice(b, c, d), e, w[t], K(0));
      a, b, c, d, e := temp, a, S30(b), c, d;
      t := t + 1;
    }
    q := Regs(a, b, c, d, e);
  }

  method SecondTwenty(w: array<Word>, r: Regs, ghost bytes: Block, ghost start: Regs) returns (q: Regs)
    requires w.Length == 80 && Scheduled(w[..], bytes, 80) && r == Rounds(bytes, start, 20)
    ensures q == Rounds(bytes, start, 40)
  {
    var a, b, c, d, e := r.a, r.b, r.c, r.d, r.e;
    var t: nat := 20;
    while t < 40
      invariant 20 <= t <= 40 && Regs(a, b, c, d, e) == Rounds(bytes, start, t)
    {
      assert w[t] == w[..][t] == W(bytes, t);
      var temp := Temp(a, Parity(b, c, d), e, w[t], K(20));
      a, b, c, d, e := temp, a, S30(b), c, d;
      t := t + 1;
    }
    q := Regs(a, b, c, d, e);
  }

  method ThirdTwenty(w: array<Word>, r: Regs, ghost bytes: Block, ghost start: Regs) returns (q: Regs)
    requires w.Length == 80 && Scheduled(w[..], bytes, 80) && r == Rounds(bytes, start, 40)
    ensures q == Rounds(bytes, start, 60)
  {
    var a, b, c, d, e := r.a, r.b, r.c, r.d, r.e;
    var t: nat := 40;
    while t < 60
      invariant 40 <= t <= 60 && Regs(a, b, c, d, e) == Rounds(bytes, start, t)
    {
      assert w[t] == w[..][t] == W(bytes, t);
      var temp := Temp(a, Majority(b, c, d), e, w[t], K(40));
      a, b, c, d, e := temp, a, S30(b), c, d;
      t := t + 1;
    }
    q := Regs(a, b, c, d, e);
  }

  method LastTwenty(w: array<Word>, r: Regs, ghost bytes: Block, ghost start: Regs) returns (q: Regs)
    requires w.Length == 80 && Scheduled(w[..], bytes, 80) && r == Rounds(bytes, start, 60)
    ensures q == Rounds(bytes, start, 80)
  {
    var a, b, c, d, e := r.a, r.b, r.c, r.d, r.e;
    var t: nat := 60;
    while t < 80
      invariant 60 <= t <= 80 && Regs(a, b, c, d, e) == Rounds(bytes, start, t)
    {
      assert w[t] == w[..][t] == W(bytes, t);
      var temp := Temp(a, Parity(b, c, d), e, w[t], K(60));
      a, b, c, d, e := temp, a, S30(b), c, d;
      t := t + 1;
    }
    q := Regs(a, b, c, d, e);
  }

  method AddTo(hash: array<Word>, r: Regs)
    requires hash.Length == 5
    modifies hash
    ensures Registers(hash) == Sum(old(Registers(hash)), r)
  {
    hash[0], hash[1], hash[2], hash[3], hash[4] := Add(hash[0], r.a), Add(hash[1], r.b), Add(hash[2], r.c), Add(hash[3], r.d), Add(hash[4], r.e);
  }

  ghost function Registers(hash: array<Word>): Regs
    requires hash.Length == 5
    reads hash
  {
    Regs(hash[0], hash[1], hash[2], hash[3], hash[4])
  }

  /** The first n words of the schedule. */
  ghost predicate Scheduled(w: seq<Word>, bytes: Block, n: nat) {
    n <= |w| && forall k {:trigger w[k]} | 0 <= k < n :: w[k] == W(bytes, k)
  }

  lemma FirstWord(w: seq<Word>, bytes: Block, t: nat, x: Word)
    requires t < 16 && t < |w| && Scheduled(w, bytes, t)
    requires x == WordOf(bytes[t * 4], bytes[t * 4 + 1], bytes[t * 4 + 2], bytes[t * 4 + 3])
    ensures Scheduled(w[t := x], bytes, t + 1)
  {
  }

  lemma NextWord(w: seq<Word>, bytes: Block, t: nat, x: Word)
    requires 16 <= t < |w| && Scheduled(w, bytes, t)
    requires x == Mix(w[t - 3], w[t - 8], w[t - 14], w[t - 16])
    ensures Scheduled(w[t := x], bytes, t + 1)
  {
    var y := Mix(W(bytes, t - 3), W(bytes, t - 8), W(bytes, t - 14), W(bytes, t - 16));
    assert y == W(bytes, t);
    assert x == y;
  }

  /** The message schedule. */
  method Schedule(block: array<Octet>) returns (w: array<Word>)
    requires block.Length == 64
    ensures fresh(w) && w.Length == 80 && Scheduled(w[..], block[..], 80)
  {
    w := new Word[80];
    ghost var bytes: Block := block[..];
    var t := 0;
    while t < 16
      invariant 0 <= t <= 16 && Scheduled(w[..], bytes, t)
    {
      var x := WordOf(block[t * 4], block[t * 4 + 1], block[t * 4 + 2], block[t * 4 + 3]);
      FirstWord(w[..], bytes, t, x);
      label Before:
      w[t] := x;
      assert w[..] == old@Before(w[..])[t := x];
      t := t + 1;
    }
    while t < 80
      invariant 16 <= t <= 80 && Scheduled(w[..], bytes, t)
    {
      var x := Mix(w[t - 3], w[t - 8], w[t - 14], w[t - 16]);
      NextWord(w[..], bytes, t, x);
      label Then:
      w[t] := x;
      assert w[..] == old@Then(w[..])[t := x];
      t := t + 1;
    }
  }

  /* Padding, block by block. */

  lemma OneBlock(a: seq<Octet>, b: seq<Octet>, c: seq<Octet>, z: seq<Octet>, l: seq<Octet>)
    ensures a + b + c + z + l == a + (b + c + z + l)
  {
  }

  lemma TwoBlocks(a: seq<Octet>, b: seq<Octet>, c: seq<Octet>, z: seq<Octet>, y: seq<Octet>, l: seq<Octet>)
    ensures a + b + c + (z + y) + l == a + (b + c + z) + (y + l)
  {
  }

  lemma FillOf(n: nat)
    ensures n % 64 <= 55 ==> Fill(n) == 55 - n % 64
    ensures n % 64 > 55 ==> Fill(n) == 63 - n % 64 + 56
  {
  }

  lemma ZerosJoin(a: nat, b: nat)
    ensures Zeros(a + b) == Zeros(a) + Zeros(b)
  {
  }

  lemma PadOne(m: seq<Octet>, first: seq<Octet>, tail: seq<Octet>)
    requires m == first + tail && first == m[..Whole(m)] && |tail| <= 55
    ensures Pad(m) == first + (tail + [0x80] + Zeros(55 - |tail|) + BigEndian(8 * |m|, 8))
  {
    FillOf(|m|);
    OneBlock(first, tail, [0x80], Zeros(55 - |tail|), BigEndian(8 * |m|, 8));
  }

  lemma PadTwo(m: seq<Octet>, first: seq<Octet>, tail: seq<Octet>)
    requires m == first + tail && first == m[..Whole(m)] && |tail| > 55
    ensures Pad(m) == first + (tail + [0x80] + Zeros(63 - |tail|)) + (Zeros(56) + BigEndian(8 * |m|, 8))
  {
    FillOf(|m|);
    ZerosJoin(63 - |tail|, 56);
    TwoBlocks(first, tail, [0x80], Zeros(63 - |tail|), Zeros(56), BigEndian(8 * |m|, 8));
  }

  /** The two counters hold the upper and the lower four octets of the length. */
  lemma {:induction false} CountersSplit(high: nat, low: nat, unit: nat, k: nat)
    requires low < unit && unit == Power(k)
    ensures BigEndian(high * unit + low, 4 + k) == BigEndian(high, 4) + BigEndian(low, k)
    decreases k
  {
    if k > 0 {
      var rest, upper := Power(k - 1), BigEndian(high, 4);
      CarryOut(high, low, rest);
      CountersSplit(high, low / 0x100, rest, k - 1);
      assert upper + (BigEndian(low / 0x100, k - 1) + [Digit(low)]) == upper + BigEndian(low / 0x100, k - 1) + [Digit(low)];
    } else {
      assert high * unit + low == high;
    }
  }

  lemma CarryOut(high: nat, low: nat, rest: nat)
    ensures (high * (0x100 * rest) + low) / 0x100 == high * rest + low / 0x100
    ensures (high * (0x100 * rest) + low) % 0x100 == low % 0x100
  {
    var p := high * rest;
    assert high * (0x100 * rest) == 0x100 * p;
  }

  lemma FourOctets(n: nat)
    ensures BigEndian(n, 4) == [Digit(n / 0x100_0000), Digit(n / 0x1_0000), Digit(n / 0x100), Digit(n)]
  {
    assert n / 0x100 / 0x100 == n / 0x1_0000 && n / 0x1_0000 / 0x100 == n / 0x100_0000;
    var a := n / 0x100_0000;
    assert BigEndian(a, 1) == BigEndian(a / 0x100, 0) + [Digit(a)];
    assert BigEndian(n / 0x1_0000, 2) == BigEndian(a, 1) + [Digit(n / 0x1_0000)];
    assert BigEndian(n / 0x100, 3) == BigEndian(n / 0x1_0000, 2) + [Digit(n / 0x100)];
  }

  lemma PowerOfFour()
    ensures Power(4) == BASE
  {
    assert Power(2) == 0x100 * Power(1);
  }

  class Context {
    const hash: array<Word>
    const block: array<Octet>
    var lengthLow: nat
    var lengthHigh: nat
    var index: nat
    var computed: bool
    var corrupted: int
    ghost var phase: Phase

    /** The counters hold the bits of the message. */
    ghost predicate Counts(m: seq<Octet>)
      reads this
    {
      lengthLow < BASE && lengthHigh < BASE && lengthHigh * BASE + lengthLow == 8 * |m|
    }

    /** The whole blocks are hashed and the rest is in the buffer. */
    ghost predicate Buffered(m: seq<Octet>)
      requires hash.Length == 5 && block.Length == 64
      reads this, hash, block
    {
      index == |m| % 64 && block[..index] == m[Whole(m)..] && Registers(hash) == Hash(m[..Whole(m)])
    }

    ghost predicate Valid()
      reads this, hash, block
    {
      && hash.Length == 5 && block.Length == 64
      && match phase
         case Absorbing(m) => !computed && corrupted == 0 && |m| < LIMIT && Counts(m) && Buffered(m)
         case Done(m) => computed && corrupted == 0 && Registers(hash) == Hash(Pad(m))
         case Broken(code) => code != 0 && corrupted == code && (computed <==> code == STATE_ERROR)
    }

    constructor ()
      ensures Valid() && phase == Absorbing([]) && fresh(hash) && fresh(block)
    {
      hash := new Word[5](i => 0);
      block := new Octet[64](i => 0);
      new;
      Reset();
    }

    method Reset()
      requires hash.Length == 5 && block.Length == 64
      modifies this, hash
      ensures Valid() && phase == Absorbing([])
    {
      lengthLow, lengthHigh, index := 0, 0, 0;
      hash[0], hash[1], hash[2], hash[3], hash[4] := INITIAL.a, INITIAL.b, INITIAL.c, INITIAL.d, INITIAL.e;
      computed, corrupted := false, 0;
      phase := Absorbing([]);
      assert Hash([]) == INITIAL;
    }

    /** One octet into the counters, and its bits are counted. */
    method Count(ghost m: seq<Octet>)
      requires Counts(m) && |m| < LIMIT && corrupted == 0
      modifies `lengthLow, `lengthHigh, `corrupted
      ensures if |m| + 1 < LIMIT then corrupted == 0 && lengthLow < BASE && lengthHigh < BASE
                                      && lengthHigh * BASE + lengthLow == 8 * (|m| + 1)
              else corrupted == TOO_LONG
    {
      lengthLow := (lengthLow + 8) % BASE;
      if lengthLow == 0 {
        lengthHigh := (lengthHigh + 1) % BASE;
        if lengthHigh == 0 {
          corrupted := TOO_LONG;
        }
      }
    }

    /** One octet into the buffer, which is hashed when it is full. */
    method Buffer(b: Octet, ghost m: seq<Octet>)
      requires hash.Length == 5 && block.Length == 64 && Buffered(m)
      modifies `index, block, hash
      ensures Buffered(m + [b])
    {
      block[index] := b;
      index := index + 1;
      assert block[..index] == old(block[..index]) + [b];
      if index == 64 {
        assert block[..index] == block[..];
        BufferFull(m, b, block[..]);
        HashBuffer(m[..Whole(m)]);
      } else {
        BufferGrows(m, b, block[..index]);
      }
    }

    method Absorb(b: Octet)
      requires Valid() && phase.Absorbing?
      modifies this, block, hash
      ensures Valid()
      ensures var m := old(phase.m); phase == if |m| + 1 < LIMIT then Absorbing(m + [b]) else Broken(TOO_LONG)
    {
      ghost var m := phase.m;
      Buffer(b, m);
      Count(m);
      phase := if |m| + 1 < LIMIT then Absorbing(m + [b]) else Broken(TOO_LONG);
    }

    /** The next portion of the message. */
    method Input(bytes: seq<Octet>) returns (r: int)
      requires Valid()
      modifies this, block, hash
      ensures Valid() && (phase, r) == AfterInput(old(phase), bytes)
    {
      if |bytes| == 0 {
        return SUCCESS;
      }
      if computed {
        corrupted := STATE_ERROR;
        phase := Broken(STATE_ERROR);
        return STATE_ERROR;
      }
      if corrupted != 0 {
        return corrupted;
      }
      ghost var m := phase.m;
      var i := 0;
      while i < |bytes| && corrupted == 0
        invariant 0 <= i <= |bytes| && Valid()
        invariant phase == if |m| + i < LIMIT then Absorbing(m + bytes[..i]) else Broken(TOO_LONG)
      {
        assert m + bytes[..i] + [bytes[i]] == m + bytes[..i + 1];
        Absorb(bytes[i]);
        i := i + 1;
      }
      assert bytes[..|bytes|] == bytes;
      return SUCCESS;
    }

    method FillTo(n: nat)
      requires block.Length == 64 && index <= n <= 64
      modifies `index, block
      ensures index == n && block[..n] == old(block[..index]) + Zeros(n - old(index))
    {
      ghost var start := index;
      while index < n
        invariant start <= index <= n
        invariant block[..index] == old(block[..index]) + Zeros(index - start)
      {
        block[index] := 0;
        index := index + 1;
        assert block[..index] == block[..index - 1] + [0];
      }
    }

    /** Four octets of a counter, the highest first. */
    method StoreWord(at: nat, n: nat)
      requires block.Length == 64 && at <= 60
      modifies block
      ensures block[..at + 4] == old(block[..at]) + BigEndian(n, 4)
    {
      FourOctets(n);
      block[at], block[at + 1] := Digit(n / 0x100_0000), Digit(n / 0x1_0000);
      block[at + 2], block[at + 3] := Digit(n / 0x100), Digit(n);
    }

    method StoreLength(ghost bits: nat)
      requires block.Length == 64 && lengthLow < BASE && lengthHigh < BASE && bits == lengthHigh * BASE + lengthLow
      modifies block
      ensures block[..] == old(block[..56]) + BigEndian(bits, 8)
    {
      ghost var start := block[..56];
      StoreWord(56, lengthHigh);
      StoreWord(60, lengthLow);
      assert block[..64] == block[..];
      PowerOfFour();
      CountersSplit(lengthHigh, lengthLow, BASE, 4);
      Assoc(start, BigEndian(lengthHigh, 4), BigEndian(lengthLow, 4));
    }

    /** Hashes the full buffer behind the blocks `first`. */
    method HashBuffer(ghost first: seq<Octet>)
      requires hash.Length == 5 && block.Length == 64 && |first| % 64 == 0 && Registers(hash) == Hash(first)
      modifies `index, hash
      ensures index == 0 && |first + block[..]| % 64 == 0 && Registers(hash) == Hash(first + block[..])
    {
      ProcessBlock(hash, block);
      index := 0;
      HashGrows(first, block[..]);
    }

    /** The first padding octet and zeros up to n. */
    method Close(n: nat)
      requires block.Length == 64 && index < n <= 64
      modifies `index, block
      ensures index == n && block[..n] == old(block[..index]) + [0x80] + Zeros(n - 1 - old(index))
    {
      block[index] := 0x80;
      index := index + 1;
      assert block[..index] == old(block[..index]) + [0x80];
      FillTo(n);
    }

    /** The padding but for the length, in the block that will hold it. */
    method PadUpToLength(ghost m: seq<Octet>) returns (ghost first: seq<Octet>)
      requires hash.Length == 5 && block.Length == 64 && Buffered(m)
      modifies `index, block, hash
      ensures |first| % 64 == 0 && Registers(hash) == Hash(first)
      ensures Pad(m) == first + (block[..56] + BigEndian(8 * |m|, 8))
    {
      ghost var tail := m[Whole(m)..];
      first := m[..Whole(m)];
      assert m == first + tail;
      if index > 55 {
        PadTwo(m, first, tail);
        first := FillOne(first, tail);
        FillTo(56);
        assert block[..56] == Zeros(56);
      } else {
        PadOne(m, first, tail);
        Close(56);
      }
    }

    /** A block of its own for the rest of the message and the first padding octets. */
    method FillOne(ghost before: seq<Octet>, ghost tail: seq<Octet>) returns (ghost first: seq<Octet>)
      requires hash.Length == 5 && block.Length == 64 && index == |tail| < 64 && block[..index] == tail
      requires |before| % 64 == 0 && Registers(hash) == Hash(before)
      modifies `index, block, hash
      ensures index == 0 && first == before + (tail + [0x80] + Zeros(63 - |tail|))
      ensures |first| % 64 == 0 && Registers(hash) == Hash(first)
    {
      Close(64);
      assert block[..64] == block[..];
      HashBuffer(before);
      first := before + block[..];
    }

    method PadMessage(ghost m: seq<Octet>)
      requires hash.Length == 5 && block.Length == 64 && Counts(m) && Buffered(m)
      modifies `index, block, hash
      ensures Registers(hash) == Hash(Pad(m))
    {
      ghost var first := PadUpToLength(m);
      StoreLength(8 * |m|);
      HashBuffer(first);
    }

    /** The digest; asking again gives the same one. */
    method Result(digest: array<Octet>) returns (r: int)
      requires Valid() && digest.Length == 20 && digest != block
      modifies this, block, hash, digest
      ensures Valid()
      ensures phase == AfterResult(old(phase)).0
      ensures match AfterResult(old(phase)).1
              case Digested(d) => r == SUCCESS && digest[..] == d
              case Failed(code) => r == code && digest[..] == old(digest[..])
    {
      if corrupted != 0 {
        return corrupted;
      }
      if !computed {
        PadMessage(phase.m);
        forall i | 0 <= i < 64 {
          block[i] := 0;
        }
        lengthLow, lengthHigh := 0, 0;
        computed := true;
        phase := Done(phase.m);
      }
      WriteDigest(hash, digest);
      return SUCCESS;
    }
  }

  function WordAt(h: Regs, i: nat): Word
    requires i < 5
  {
    if i == 0 then h.a else if i == 1 then h.b else if i == 2 then h.c else if i == 3 then h.d else h.e
  }

  lemma FiveFours(a: seq<Octet>, b: seq<Octet>, c: seq<Octet>, d: seq<Octet>, e: seq<Octet>, i: nat)
    requires |a| == |b| == |c| == |d| == |e| == 4 && i < 20
    ensures (a + b + c + d + e)[i]
            == (if i < 4 then a else if i < 8 then b else if i < 12 then c else if i < 16 then d else e)[i % 4]
  {
  }

  lemma OctetAt(x: Word, k: nat)
    requires k < 4
    ensures OctetsOf(x)[k] == OctetOf(x, k)
  {
  }

  lemma OutputAt(h: Regs, i: nat)
    requires i < 20
    ensures Output(h)[i] == OctetOf(WordAt(h, i / 4), i % 4)
  {
    OctetAt(WordAt(h, i / 4), i % 4);
    FiveFours(OctetsOf(h.a), OctetsOf(h.b), OctetsOf(h.c), OctetsOf(h.d), OctetsOf(h.e), i);
  }

  /** Octet i of the digest, as the loop takes it out of the registers. */
  lemma OctetOfRegisters(hash: array<Word>, i: nat)
    requires hash.Length == 5 && i < 20
    ensures OctetOf(hash[i / 4], i % 4) == Output(Registers(hash))[i]
  {
    OutputAt(Registers(hash), i);
  }

  method WriteDigest(hash: array<Word>, digest: array<Octet>)
    requires hash.Length == 5 && digest.Length == 20
    modifies digest
    ensures digest[..] == Output(Registers(hash))
  {
    ghost var out := Output(Registers(hash));
    var i := 0;
    while i < 20
      invariant 0 <= i <= 20 && digest[..i] == out[..i]
    {
      OctetOfRegisters(hash, i);
      var x := OctetOf(hash[i / 4], i % 4);
      digest[i] := x;
      i := i + 1;
    }
  }

  lemma BufferGrows(m: seq<Octet>, b: Octet, buffer: seq<Octet>)
    requires buffer == m[Whole(m)..] + [b] && |buffer| < 64
    ensures var n := m + [b]; Whole(n) == Whole(m) && n[Whole(n)..] == buffer && n[..Whole(n)] == m[..Whole(m)]
  {
    assert |m| % 64 < 63 && (|m| + 1) % 64 == |m| % 64 + 1;
  }

  lemma BufferFull(m: seq<Octet>, b: Octet, buffer: seq<Octet>)
    requires buffer == m[Whole(m)..] + [b] && |buffer| == 64
    ensures var n := m + [b]; Whole(n) == |n| && n[Whole(n)..] == [] && n[..Whole(n)] == n == m[..Whole(m)] + buffer
  {
    assert |m| % 64 == 63 && (|m| + 1) % 64 == 0;
  }
}
