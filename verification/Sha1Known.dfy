/** Known answers: the digest of "abc" in section 7.3 of RFC 3174, word by word and
    round by round, and where the constants come from. */
module Sha1Known {
  import opened Octets
  import opened Sha1Spec

  /** The constants of the rounds are the first 32 bits of square roots: of 2, 3, 5 and
      10, times 2^30. */
  lemma RoundConstants(t: nat)
    requires t < 80
    ensures var k, n := K(t) as nat, if t < 20 then 2 else if t < 40 then 3 else if t < 60 then 5 else 10;
            k * k <= n * 0x1000_0000_0000_0000 < (k + 1) * (k + 1)
  {
  }

  /** The initial hash is the octets 01, 23 to EF, their mirror image, and F0, E1, D2,
      C3, the lowest octet of each word first. */
  lemma InitialHash()
    ensures var s := OctetsOf(INITIAL.a) + OctetsOf(INITIAL.b) + OctetsOf(INITIAL.c) + OctetsOf(INITIAL.d) + OctetsOf(INITIAL.e);
            s == [0x67, 0x45, 0x23, 0x01, 0xEF, 0xCD, 0xAB, 0x89, 0x98, 0xBA, 0xDC, 0xFE, 0x10, 0x32, 0x54, 0x76, 0xC3, 0xD2, 0xE1, 0xF0]
  {
  }

  /** "abc", padded. */
  const ABC: Block := [0x61, 0x62, 0x63, 0x80] + seq(59, _ => 0) + [24]

  lemma PaddedAbc()
    ensures Pad([0x61, 0x62, 0x63]) == ABC
  {
    assert Fill(3) == 52;
    assert BigEndian(24, 8) == seq(7, _ => 0) + [24] by {
      ZeroBytes(7);
      assert BigEndian(24, 8) == BigEndian(0, 7) + [24];
    }
  }

  lemma {:induction false} ZeroBytes(k: nat)
    ensures BigEndian(0, k) == seq(k, _ => 0)
  {
    if k > 0 {
      ZeroBytes(k - 1);
    }
  }

  /* The schedule. */

  lemma NextWord(t: nat)
    requires t >= 16
    ensures W(ABC, t) == Mix(W(ABC, t - 3), W(ABC, t - 8), W(ABC, t - 14), W(ABC, t - 16))
  {
  }

  lemma ZeroWord(t: nat)
    requires 1 <= t < 15
    ensures W(ABC, t) == 0
  {
    assert ABC[4 * t] == ABC[4 * t + 1] == ABC[4 * t + 2] == ABC[4 * t + 3] == 0;
    assert WordOf(0, 0, 0, 0) == 0;
  }

  lemma EndWords()
    ensures W(ABC, 0) == 0x61626380 && W(ABC, 15) == 0x00000018
  {
    assert WordOf(0x61, 0x62, 0x63, 0x80) == 0x61626380 && WordOf(0, 0, 0, 24) == 0x00000018;
    assert ABC[60] == ABC[61] == ABC[62] == 0 && ABC[63] == 24;
  }

  lemma Words0()
    ensures W(ABC, 0) == 0x61626380 && W(ABC, 1) == 0x00000000 && W(ABC, 2) == 0x00000000 && W(ABC, 3) == 0x00000000
    ensures W(ABC, 4) == 0x00000000 && W(ABC, 5) == 0x00000000 && W(ABC, 6) == 0x00000000 && W(ABC, 7) == 0x00000000
    ensures W(ABC, 8) == 0x00000000 && W(ABC, 9) == 0x00000000 && W(ABC, 10) == 0x00000000 && W(ABC, 11) == 0x00000000
    ensures W(ABC, 12) == 0x00000000 && W(ABC, 13) == 0x00000000 && W(ABC, 14) == 0x00000000 && W(ABC, 15) == 0x00000018
  {
    EndWords();
    forall t: nat | 1 <= t < 15 ensures W(ABC, t) == 0 {
      ZeroWord(t);
    }
  }

  lemma Words16()
    ensures W(ABC, 16) == 0xC2C4C700 && W(ABC, 17) == 0x00000000 && W(ABC, 18) == 0x00000030 && W(ABC, 19) == 0x85898E01
    ensures W(ABC, 20) == 0x00000000 && W(ABC, 21) == 0x00000060 && W(ABC, 22) == 0x0B131C03 && W(ABC, 23) == 0x00000030
    ensures W(ABC, 24) == 0x85898EC1 && W(ABC, 25) == 0x16263806 && W(ABC, 26) == 0x00000000 && W(ABC, 27) == 0x00000180
    ensures W(ABC, 28) == 0x2C4C700C && W(ABC, 29) == 0x000000F0 && W(ABC, 30) == 0x93AFB507 && W(ABC, 31) == 0x5898E048
  {
    Words0();
    NextWord(16); NextWord(17); NextWord(18); NextWord(19);
    NextWord(20); NextWord(21); NextWord(22); NextWord(23);
    NextWord(24); NextWord(25); NextWord(26); NextWord(27);
    NextWord(28); NextWord(29); NextWord(30); NextWord(31);
  }

  lemma Words32()
    ensures W(ABC, 32) == 0x8E9A9202 && W(ABC, 33) == 0x00000600 && W(ABC, 34) == 0xB131C0F0 && W(ABC, 35) == 0x16263BC6
    ensures W(ABC, 36) == 0x4EBED41E && W(ABC, 37) == 0x626380A1 && W(ABC, 38) == 0x16263806 && W(ABC, 39) == 0x000018C0
    ensures W(ABC, 40) == 0xD2E138C4 && W(ABC, 41) == 0x00000F00 && W(ABC, 42) == 0x3AFB5079 && W(ABC, 43) == 0x898E04E5
    ensures W(ABC, 44) == 0xE2BA3C2B && W(ABC, 45) == 0x000060C0 && W(ABC, 46) == 0x053A37CD && W(ABC, 47) == 0x74458547
  {
    Words16();
    NextWord(32); NextWord(33); NextWord(34); NextWord(35);
    NextWord(36); NextWord(37); NextWord(38); NextWord(39);
    NextWord(40); NextWord(41); NextWord(42); NextWord(43);
    NextWord(44); NextWord(45); NextWord(46); NextWord(47);
  }

  lemma Words48()
    ensures W(ABC, 48) == 0xDA9415ED && W(ABC, 49) == 0x26380A16 && W(ABC, 50) == 0x626383A1 && W(ABC, 51) == 0x4EBF54DE
    ensures W(ABC, 52) == 0x3835B44B && W(ABC, 53) == 0x0000F600 && W(ABC, 54) == 0x1E84C7A3 && W(ABC, 55) == 0x98E04D98
    ensures W(ABC, 56) == 0x651D16A0 && W(ABC, 57) == 0x62658CA1 && W(ABC, 58) == 0x458544D6 && W(ABC, 59) == 0x44584CB7
    ensures W(ABC, 60) == 0x7BA06619 && W(ABC, 61) == 0x6380AEA2 && W(ABC, 62) == 0x0AE55269 && W(ABC, 63) == 0x627B49A1
  {
    Words32();
    NextWord(48); NextWord(49); NextWord(50); NextWord(51);
    NextWord(52); NextWord(53); NextWord(54); NextWord(55);
    NextWord(56); NextWord(57); NextWord(58); NextWord(59);
    NextWord(60); NextWord(61); NextWord(62); NextWord(63);
  }

  lemma Words64()
    ensures W(ABC, 64) == 0x7CD45C9D && W(ABC, 65) == 0x000F0000 && W(ABC, 66) == 0xFB50753A && W(ABC, 67) == 0xEC6765E8
    ensures W(ABC, 68) == 0xBA3C2BE2 && W(ABC, 69) == 0x0060C000 && W(ABC, 70) == 0x3A37CD05 && W(ABC, 71) == 0x458546F4
    ensures W(ABC, 72) == 0xB8599DD6 && W(ABC, 73) == 0x380A1A26 && W(ABC, 74) == 0x01E02203 && W(ABC, 75) == 0xE7CC3456
    ensures W(ABC, 76) == 0xE6E60B69 && W(ABC, 77) == 0x00F60A00 && W(ABC, 78) == 0x5795EF4F && W(ABC, 79) == 0x822E0879
  {
    Words48();
    NextWord(64); NextWord(65); NextWord(66); NextWord(67);
    NextWord(68); NextWord(69); NextWord(70); NextWord(71);
    NextWord(72); NextWord(73); NextWord(74); NextWord(75);
    NextWord(76); NextWord(77); NextWord(78); NextWord(79);
  }

  /* The rounds. */

  /** One round: the registers move on, and the first becomes `a`. */
  lemma Turn(t: nat, r: Regs, w: Word, a: Word) returns (next: Regs)
    requires t < 80 && Rounds(ABC, INITIAL, t) == r && W(ABC, t) == w
    requires Temp(r.a, F(t, r.b, r.c, r.d), r.e, w, K(t)) == a
    ensures next == Regs(a, r.a, S30(r.b), r.c, r.d) && Rounds(ABC, INITIAL, t + 1) == next
  {
    next := Regs(a, r.a, S30(r.b), r.c, r.d);
  }

  lemma TurnsTo16()
    ensures Rounds(ABC, INITIAL, 16) == Regs(0x20BDD62F, 0x196BEE77, 0x644A3DA5, 0x1181ED99, 0x18C623F9)
  {
    Words0();
    var r := Regs(0x67452301, 0xEFCDAB89, 0x98BADCFE, 0x10325476, 0xC3D2E1F0);
    r := Turn(0, r, 0x61626380, 0x0116FC33);
    r := Turn(1, r, 0x00000000, 0x8990536D);
    r := Turn(2, r, 0x00000000, 0xA1390F08);
    r := Turn(3, r, 0x00000000, 0xCDD8E11B);
    r := Turn(4, r, 0x00000000, 0xCFD499DE);
    r := Turn(5, r, 0x00000000, 0x3FC7CA40);
    r := Turn(6, r, 0x00000000, 0x993E30C1);
    r := Turn(7, r, 0x00000000, 0x9E8C07D4);
    r := Turn(8, r, 0x00000000, 0x4B6AE328);
    r := Turn(9, r, 0x00000000, 0x8351F929);
    r := Turn(10, r, 0x00000000, 0xFBDA9E89);
    r := Turn(11, r, 0x00000000, 0x63188FE4);
    r := Turn(12, r, 0x00000000, 0x4607B664);
    r := Turn(13, r, 0x00000000, 0x9128F695);
    r := Turn(14, r, 0x00000000, 0x196BEE77);
    r := Turn(15, r, 0x00000018, 0x20BDD62F);
  }

  lemma TurnsTo32()
    ensures Rounds(ABC, INITIAL, 32) == Regs(0x3B845D33, 0x1267B407, 0x717EEBD7, 0xA0DC2D4B, 0xD2AA1365)
  {
    Words16();
    TurnsTo16();
    var r := Regs(0x20BDD62F, 0x196BEE77, 0x644A3DA5, 0x1181ED99, 0x18C623F9);
    r := Turn(16, r, 0xC2C4C700, 0x4E925823);
    r := Turn(17, r, 0x00000000, 0x82AA6728);
    r := Turn(18, r, 0x00000030, 0xDC64901D);
    r := Turn(19, r, 0x85898E01, 0xFD9E1D7D);
    r := Turn(20, r, 0x00000000, 0x1A37B0CA);
    r := Turn(21, r, 0x00000060, 0x33A23BFC);
    r := Turn(22, r, 0x0B131C03, 0x21283486);
    r := Turn(23, r, 0x00000030, 0xD541F12D);
    r := Turn(24, r, 0x85898EC1, 0xC7567DC6);
    r := Turn(25, r, 0x16263806, 0x48413BA4);
    r := Turn(26, r, 0x00000000, 0xBE35FBD5);
    r := Turn(27, r, 0x00000180, 0x4AA84D97);
    r := Turn(28, r, 0x2C4C700C, 0x8370B52E);
    r := Turn(29, r, 0x000000F0, 0xC5FBAF5D);
    r := Turn(30, r, 0x93AFB507, 0x1267B407);
    r := Turn(31, r, 0x5898E048, 0x3B845D33);
  }

  lemma TurnsTo48()
    ensures Rounds(ABC, INITIAL, 48) == Regs(0xBEAD02CA, 0xA01B846C, 0x8714787C, 0x503CA382, 0xFB86C6AB)
  {
    Words32();
    TurnsTo32();
    var r := Regs(0x3B845D33, 0x1267B407, 0x717EEBD7, 0xA0DC2D4B, 0xD2AA1365);
    r := Turn(32, r, 0x8E9A9202, 0x046FAA0A);
    r := Turn(33, r, 0x00000600, 0x2C0EBC11);
    r := Turn(34, r, 0xB131C0F0, 0x21796AD4);
    r := Turn(35, r, 0x16263BC6, 0xDCBBB0CB);
    r := Turn(36, r, 0x4EBED41E, 0x0F511FD8);
    r := Turn(37, r, 0x626380A1, 0xDC63973F);
    r := Turn(38, r, 0x16263806, 0x4C986405);
    r := Turn(39, r, 0x000018C0, 0x32DE1CBA);
    r := Turn(40, r, 0xD2E138C4, 0xFC87DEDF);
    r := Turn(41, r, 0x00000F00, 0x970A0D5C);
    r := Turn(42, r, 0x3AFB5079, 0x7F193DC5);
    r := Turn(43, r, 0x898E04E5, 0xEE1B1AAF);
    r := Turn(44, r, 0xE2BA3C2B, 0x40F28E09);
    r := Turn(45, r, 0x000060C0, 0x1C51E1F2);
    r := Turn(46, r, 0x053A37CD, 0xA01B846C);
    r := Turn(47, r, 0x74458547, 0xBEAD02CA);
  }

  lemma TurnsTo64()
    ensures Rounds(ABC, INITIAL, 64) == Regs(0x6B61C9E1, 0xB66C020B, 0x9523272C, 0xF5D5B051, 0x8FD4B796)
  {
    Words48();
    TurnsTo48();
    var r := Regs(0xBEAD02CA, 0xA01B846C, 0x8714787C, 0x503CA382, 0xFB86C6AB);
    r := Turn(48, r, 0xDA9415ED, 0xBAF39337);
    r := Turn(49, r, 0x26380A16, 0x120731C5);
    r := Turn(50, r, 0x626383A1, 0x641DB2CE);
    r := Turn(51, r, 0x4EBF54DE, 0x3847AD66);
    r := Turn(52, r, 0x3835B44B, 0xE490436D);
    r := Turn(53, r, 0x0000F600, 0x27E9F1D8);
    r := Turn(54, r, 0x1E84C7A3, 0x7B71F76D);
    r := Turn(55, r, 0x98E04D98, 0x5E6456AF);
    r := Turn(56, r, 0x651D16A0, 0xC846093F);
    r := Turn(57, r, 0x62658CA1, 0xD262FF50);
    r := Turn(58, r, 0x458544D6, 0x09D785FD);
    r := Turn(59, r, 0x44584CB7, 0x3F52DE5A);
    r := Turn(60, r, 0x7BA06619, 0xD756C147);
    r := Turn(61, r, 0x6380AEA2, 0x548C9CB2);
    r := Turn(62, r, 0x0AE55269, 0xB66C020B);
    r := Turn(63, r, 0x627B49A1, 0x6B61C9E1);
  }

  lemma TurnsTo80()
    ensures Rounds(ABC, INITIAL, 80) == Regs(0x42541B35, 0x5738D5E1, 0x21834873, 0x681E6DF6, 0xD8FDF6AD)
  {
    Words64();
    TurnsTo64();
    var r := Regs(0x6B61C9E1, 0xB66C020B, 0x9523272C, 0xF5D5B051, 0x8FD4B796);
    r := Turn(64, r, 0x7CD45C9D, 0x19DFA7AC);
    r := Turn(65, r, 0x000F0000, 0x101655F9);
    r := Turn(66, r, 0xFB50753A, 0x0C3DF2B4);
    r := Turn(67, r, 0xEC6765E8, 0x78DD4D2B);
    r := Turn(68, r, 0xBA3C2BE2, 0x497093C0);
    r := Turn(69, r, 0x0060C000, 0x3F2588C2);
    r := Turn(70, r, 0x3A37CD05, 0xC199F8C7);
    r := Turn(71, r, 0x458546F4, 0x39859DE7);
    r := Turn(72, r, 0xB8599DD6, 0xEDB42DE4);
    r := Turn(73, r, 0x380A1A26, 0x11793F6F);
    r := Turn(74, r, 0x01E02203, 0x5EE76897);
    r := Turn(75, r, 0xE7CC3456, 0x63F7DAB7);
    r := Turn(76, r, 0xE6E60B69, 0xA079B7D9);
    r := Turn(77, r, 0x00F60A00, 0x860D21CC);
    r := Turn(78, r, 0x5795EF4F, 0x5738D5E1);
    r := Turn(79, r, 0x822E0879, 0x42541B35);
  }

  lemma HashOfAbc()
    ensures Hash(ABC) == Regs(0xA9993E36, 0x4706816A, 0xBA3E2571, 0x7850C26C, 0x9CD0D89D)
  {
    TurnsTo80();
    OneBlock(ABC);
    SumOfAbc();
  }

  lemma OneBlock(b: Block)
    ensures Hash(b) == Compress(INITIAL, b)
  {
    assert b[..0] == [] && b[0..] == b;
  }

  lemma SumOfAbc()
    ensures Sum(INITIAL, Regs(0x42541B35, 0x5738D5E1, 0x21834873, 0x681E6DF6, 0xD8FDF6AD))
         == Regs(0xA9993E36, 0x4706816A, 0xBA3E2571, 0x7850C26C, 0x9CD0D89D)
  {
  }

  lemma OutputOfAbc()
    ensures Output(Regs(0xA9993E36, 0x4706816A, 0xBA3E2571, 0x7850C26C, 0x9CD0D89D))
         == [0xA9, 0x99, 0x3E, 0x36, 0x47, 0x06, 0x81, 0x6A, 0xBA, 0x3E,
             0x25, 0x71, 0x78, 0x50, 0xC2, 0x6C, 0x9C, 0xD0, 0xD8, 0x9D]
  {
  }

  /** The standard's digest of "abc". */
  lemma DigestOfAbc()
    ensures Digest([0x61, 0x62, 0x63])
         == [0xA9, 0x99, 0x3E, 0x36, 0x47, 0x06, 0x81, 0x6A, 0xBA, 0x3E,
             0x25, 0x71, 0x78, 0x50, 0xC2, 0x6C, 0x9C, 0xD0, 0xD8, 0x9D]
  {
    PaddedAbc();
    HashOfAbc();
    OutputOfAbc();
  }
}
