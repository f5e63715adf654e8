/** Numbers written in a radix up to 62, filled in from the right. */
module Radix {

  /** Digits, lower-case letters, upper-case letters. */
  function Char(d: nat): (c: char)
    requires d < 62
    ensures c != '\0'
  {
    if d < 10 then (d + 48) as char else if d < 36 then (d + 87) as char else (d + 29) as char
  }

  /** Zero to nine, a to z, A to Z, each run in the order of the alphabet. */
  lemma CharIs(d: nat)
    requires d < 62
    ensures Char(0) == '0' && Char(9) == '9' && Char(10) == 'a' && Char(35) == 'z' && Char(36) == 'A' && Char(61) == 'Z'
    ensures d + 1 < 62 && d != 9 && d != 35 ==> Char(d + 1) as int == Char(d) as int + 1
  {
  }

  function Value(c: char): nat {
    if '0' <= c <= '9' then c as nat - 48
    else if 'a' <= c <= 'z' then c as nat - 87
    else if 'A' <= c <= 'Z' then c as nat - 29
    else 0
  }

  lemma DivShrinks(n: nat, d: nat)
    requires d >= 2
    ensures n % d < d && 0 <= n / d && n == n / d * d + n % d
    ensures n > 0 ==> n / d < n
  {
    var q := n / d;
    if q >= 1 {
      assert q * d >= q * 2;
    }
  }

  function Digits(val: nat, radix: nat): (s: string)
    requires 2 <= radix <= 62
    ensures s != "" && '\0' !in s
    decreases val
  {
    DivShrinks(val, radix);
    (if val < radix then "" else Digits(val / radix, radix)) + [Char(val % radix)]
  }

  /** Reading digits from the left, as strtol does. */
  function Parse(s: string, radix: nat): nat {
    if s == "" then 0 else Parse(s[..|s| - 1], radix) * radix + Value(s[|s| - 1])
  }

  /** The digits of a number, read back. */
  lemma {:induction false} ParseDigits(val: nat, radix: nat)
    requires 2 <= radix <= 62
    ensures Parse(Digits(val, radix), radix) == val
    decreases val
  {
    DivShrinks(val, radix);
    RestGrows(val, radix);
    ParseMore(Rest(val / radix, radix), val % radix, radix);
    if val / radix > 0 {
      ParseDigits(val / radix, radix);
    }
  }

  lemma ParseMore(s: string, d: nat, radix: nat)
    requires d < 62
    ensures Parse(s + [Char(d)], radix) == Parse(s, radix) * radix + d
  {
    assert (s + [Char(d)])[..|s|] == s;
    assert Value(Char(d)) == d;
  }

  /** No number but zero starts with a zero. */
  lemma {:induction false} NoLeadingZero(val: nat, radix: nat)
    requires 2 <= radix <= 62 && val > 0
    ensures Digits(val, radix)[0] != '0'
    decreases val
  {
    DivShrinks(val, radix);
    QuotientOfSmall(val, val / radix, radix);
    if val >= radix {
      NoLeadingZero(val / radix, radix);
    }
  }

  /** A C string in a buffer: up to the first NUL. */
  ghost predicate HoldsString(buf: seq<char>, s: string) {
    |s| < |buf| && buf[..|s|] == s && buf[|s|] == '\0' && '\0' !in s
  }

  /** Copies the string at `p` down to the start, as strcpy does. */
  method CopyDown(buf: array<char>, p: nat, ghost s: string)
    requires p <= buf.Length && HoldsString(buf[p..], s)
    modifies buf
    ensures HoldsString(buf[..], s)
  {
    var i := 0;
    assert forall k | 0 <= k < |s| :: buf[p + k] == buf[p..][k] == s[k];
    assert buf[p + |s|] == buf[p..][|s|];
    while buf[p + i] != '\0'
      invariant 0 <= i <= |s|
      invariant buf[..i] == s[..i]
      invariant forall k | i <= k < |s| :: buf[p + k] == s[k]
      invariant buf[p + |s|] == '\0'
      decreases |s| - i
    {
      buf[i] := buf[p + i];
      i := i + 1;
    }
    assert i == |s|;
    buf[i] := '\0';
    assert buf[..][..i] == buf[..i];
  }

  function Rest(val: nat, radix: nat): string
    requires 2 <= radix <= 62
  {
    if val == 0 then "" else Digits(val, radix)
  }

  lemma RestGrows(val: nat, radix: nat)
    requires 2 <= radix <= 62
    ensures DigitsTail(val, radix) == Digits(val, radix)
  {
    DivShrinks(val, radix);
    QuotientOfSmall(val, val / radix, radix);
  }

  lemma QuotientOfSmall(val: nat, q: nat, radix: nat)
    requires radix > 0 && q * radix <= val < q * radix + radix
    ensures val < radix <==> q == 0
  {
    if q >= 1 {
      assert q * radix >= radix;
    }
  }

  function DigitsTail(val: nat, radix: nat): string
    requires 2 <= radix <= 62
  {
    DivShrinks(val, radix);
    Rest(val / radix, radix) + [Char(val % radix)]
  }

  /** One more digit, to the left of those at p. */
  method PutDigit(buf: array<char>, p: nat, last: nat, c: char) returns (q: nat)
    requires 0 < p <= last < buf.Length
    modifies buf
    ensures q == p - 1 && buf[q..last] == [c] + old(buf[p..last]) && buf[last] == old(buf[last])
  {
    q := p - 1;
    buf[q] := c;
    assert buf[p..last] == old(buf[p..last]);
  }

  lemma RestPeels(val: nat, radix: nat, done: string)
    requires 2 <= radix <= 62
    ensures Digits(val, radix) + done == Rest(val / radix, radix) + ([Char(val % radix)] + done)
  {
    RestGrows(val, radix);
  }

  /** Leaves the number's digits in the buffer, when they and a NUL fit in it. */
  method FormatToRadix(radix: nat, buf: array<char>, val: nat)
    requires 2 <= radix <= 62 && |Digits(val, radix)| < buf.Length
    modifies buf
    ensures HoldsString(buf[..], Digits(val, radix))
  {
    ghost var s := Digits(val, radix);
    var last := buf.Length - 1;
    forall i | 0 <= i < buf.Length {
      buf[i] := '\0';
    }
    RestPeels(val, radix, "");
    DivShrinks(val, radix);
    var p := PutDigit(buf, last, last, Char(val % radix));
    var v := val / radix;
    while v > 0
      invariant 0 <= p < last && v >= 0
      invariant s == Rest(v, radix) + buf[p..last] && buf[last] == '\0'
      decreases v
    {
      RestPeels(v, radix, buf[p..last]);
      DivShrinks(v, radix);
      p := PutDigit(buf, p, last, Char(v % radix));
      v := v / radix;
    }
    FoundAt(buf, p, last, s);
    if p > 0 {
      CopyDown(buf, p, s);
    } else {
      assert buf[0..] == buf[..];
    }
  }

  lemma FoundAt(buf: array<char>, p: nat, last: nat, s: string)
    requires p <= last == buf.Length - 1 && buf[last] == '\0' && s == buf[p..last] && '\0' !in s
    ensures HoldsString(buf[p..], s)
  {
    assert buf[p..][..|s|] == buf[p..last];
  }
}
