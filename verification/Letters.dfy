/** The digits and letters, written out, and where a character stands in them. */
module Letters {

  const DIGITS := "0123456789"
  const CAPITALS := "ABCDEFGHIJKLMNOPQRSTUVWXYZ"
  const SMALL := "abcdefghijklmnopqrstuvwxyz"

  lemma Place(run: string, c: char, low: int)
    requires forall k | 0 <= k < |run| :: run[k] as int == low + k
    ensures c in run <==> low <= c as int < low + |run|
    ensures forall k | 0 <= k < |run| :: c == run[k] <==> c as int == low + k
  {
    if low <= c as int < low + |run| {
      assert run[c as int - low] == c;
    }
  }

  lemma Digits(c: char)
    ensures |DIGITS| == 10 && (c in DIGITS <==> '0' <= c <= '9')
    ensures forall k | 0 <= k < 10 :: c == DIGITS[k] <==> c as int == 48 + k
  {
    Place(DIGITS, c, 48);
  }

  lemma Capitals(c: char)
    ensures |CAPITALS| == 26 && (c in CAPITALS <==> 'A' <= c <= 'Z')
    ensures forall k | 0 <= k < 26 :: c == CAPITALS[k] <==> c as int == 65 + k
  {
    Place(CAPITALS, c, 65);
  }

  lemma Small(c: char)
    ensures |SMALL| == 26 && (c in SMALL <==> 'a' <= c <= 'z')
    ensures forall k | 0 <= k < 26 :: c == SMALL[k] <==> c as int == 97 + k
  {
    Place(SMALL, c, 97);
  }
}
