/** Octets, and numbers written in them. */
module Octets {

  newtype Octet = x: int | 0 <= x < 0x100

  function Digit(n: nat): Octet {
    (n % 0x100) as Octet
  }

  /** The last k octets of a number, the highest first. */
  function BigEndian(n: nat, k: nat): (r: seq<Octet>)
    ensures |r| == k
  {
    if k == 0 then [] else BigEndian(n / 0x100, k - 1) + [Digit(n)]
  }

  function Power(k: nat): (p: nat)
    ensures p > 0
  {
    if k == 0 then 1 else 0x100 * Power(k - 1)
  }

  lemma {:induction false} DigitsTellNumbers(a: nat, b: nat, k: nat)
    requires BigEndian(a, k) == BigEndian(b, k) && a < Power(k) && b < Power(k)
    ensures a == b
    decreases k
  {
    if k > 0 {
      var x, y := BigEndian(a / 0x100, k - 1), BigEndian(b / 0x100, k - 1);
      assert (x + [Digit(a)])[..k - 1] == x && (y + [Digit(b)])[..k - 1] == y;
      assert (x + [Digit(a)])[k - 1] == (y + [Digit(b)])[k - 1];
      DigitTells(a, b);
      DigitsTellNumbers(a / 0x100, b / 0x100, k - 1);
    }
  }

  lemma DigitTells(a: nat, b: nat)
    requires Digit(a) == Digit(b)
    ensures a % 0x100 == b % 0x100
  {
    assert Digit(a) as nat == Digit(b) as nat;
  }
}
