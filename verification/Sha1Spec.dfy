/** The message digest of RFC 3174, as a function of the whole message. */
module Sha1Spec {
  import opened Octets

  type Word = bv32
  type Block = b: seq<Octet> | |b| == 64 witness seq(64, _ => 0)

  const BASE := 0x1_0000_0000

  /* Section 3: operations on words. */

  function S1(x: Word): Word {
    (x << 1) | (x >> 31)
  }

  function S5(x: Word): Word {
    (x << 5) | (x >> 27)
  }

  function S30(x: Word): Word {
    (x << 30) | (x >> 2)
  }

  /** Addition modulo 2^32. */
  function Add(x: Word, y: Word): Word {
    x + y
  }

  function WordOf(b0: Octet, b1: Octet, b2: Octet, b3: Octet): Word {
    (((((b0 as Word) << 24) | ((b1 as Word) << 16)) | ((b2 as Word) << 8)) | (b3 as Word))
  }

  /** Octet i of a word, the first being the highest. */
  function OctetOf(x: Word, i: nat): Octet
    requires i < 4
  {
    var shifted := if i == 0 then x >> 24 else if i == 1 then x >> 16 else if i == 2 then x >> 8 else x;
    ((shifted & 0xFF) as bv8) as Octet
  }

  /* Section 4: padding. */

  function Zeros(n: nat): seq<Octet> {
    seq(n, _ => 0)
  }

  /** As few zeros as make the padded length a multiple of 64 octets. */
  function Fill(n: nat): (k: nat)
    ensures k < 64 && (n + 1 + k + 8) % 64 == 0
  {
    (119 - n % 64) % 64
  }

  function Pad(m: seq<Octet>): (p: seq<Octet>)
    ensures |p| % 64 == 0
  {
    m + [0x80] + Zeros(Fill(|m|)) + BigEndian(8 * |m|, 8)
  }

  /* Section 5: functions and constants. */

  function Choice(b: Word, c: Word, d: Word): Word {
    (b & c) | ((!b) & d)
  }

  function Parity(b: Word, c: Word, d: Word): Word {
    b ^ c ^ d
  }

  function Majority(b: Word, c: Word, d: Word): Word {
    (b & c) | (b & d) | (c & d)
  }

  function F(t: nat, b: Word, c: Word, d: Word): Word {
    if t < 20 then Choice(b, c, d) else if 40 <= t < 60 then Majority(b, c, d) else Parity(b, c, d)
  }

  function K(t: nat): Word {
    if t < 20 then 0x5A827999 else if t < 40 then 0x6ED9EBA1 else if t < 60 then 0x8F1BBCDC else 0xCA62C1D6
  }

  /* Section 6.1: computing the digest. */

  datatype Regs = Regs(a: Word, b: Word, c: Word, d: Word, e: Word)

  const INITIAL := Regs(0x67452301, 0xEFCDAB89, 0x98BADCFE, 0x10325476, 0xC3D2E1F0)

  function Mix(w3: Word, w8: Word, w14: Word, w16: Word): Word {
    S1(w3 ^ w8 ^ w14 ^ w16)
  }

  function W(block: Block, t: nat): Word {
    if t < 16 then WordOf(block[4 * t], block[4 * t + 1], block[4 * t + 2], block[4 * t + 3])
    else Mix(W(block, t - 3), W(block, t - 8), W(block, t - 14), W(block, t - 16))
  }

  function Temp(a: Word, f: Word, e: Word, w: Word, k: Word): Word {
    S5(a) + f + e + w + k
  }

  function Round(r: Regs, f: Word, w: Word, k: Word): Regs {
    Regs(Temp(r.a, f, r.e, w, k), r.a, S30(r.b), r.c, r.d)
  }

  /** The registers after t rounds. */
  function Rounds(block: Block, h: Regs, t: nat): Regs {
    if t == 0 then h
    else
      var r := Rounds(block, h, t - 1);
      Round(r, F(t - 1, r.b, r.c, r.d), W(block, t - 1), K(t - 1))
  }

  function Sum(h: Regs, r: Regs): Regs {
    Regs(Add(h.a, r.a), Add(h.b, r.b), Add(h.c, r.c), Add(h.d, r.d), Add(h.e, r.e))
  }

  function Compress(h: Regs, block: Block): Regs {
    Sum(h, Rounds(block, h, 80))
  }

  /** The hash of whole blocks. */
  function Hash(s: seq<Octet>): Regs
    requires |s| % 64 == 0
  {
    if s == [] then INITIAL else Compress(Hash(s[..|s| - 64]), s[|s| - 64..])
  }

  function OctetsOf(x: Word): seq<Octet> {
    [OctetOf(x, 0), OctetOf(x, 1), OctetOf(x, 2), OctetOf(x, 3)]
  }

  function Output(h: Regs): (d: seq<Octet>)
    ensures |d| == 20
  {
    OctetsOf(h.a) + OctetsOf(h.b) + OctetsOf(h.c) + OctetsOf(h.d) + OctetsOf(h.e)
  }

  function Digest(m: seq<Octet>): (d: seq<Octet>)
    ensures |d| == 20
  {
    Output(Hash(Pad(m)))
  }
}
