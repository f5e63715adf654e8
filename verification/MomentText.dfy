/** Timestamps as text: both numbers in radix 36, with a dot between them. */
module MomentText {
  import Letters
  import opened Moments
  import opened Options
  import opened Radix
  import opened Wire

  const CSV_RADIX := 36
  const MOMENT_BUFMAX := 32

  /** Both fields are 64-bit numbers. */
  predicate Fits64(m: Moment) {
    -TWO_63 <= m.sec < TWO_63 && -TWO_63 <= m.nsec < TWO_63
  }

  /** The formatter takes unsigned numbers. */
  function FormatMoment(m: Moment): string {
    Digits(U64(m.sec), CSV_RADIX) + "." + Digits(U64(m.nsec), CSV_RADIX)
  }

  /* Reading numbers as strtoll does. */

  predicate IsDigit36(c: char) {
    '0' <= c <= '9' || 'a' <= c <= 'z' || 'A' <= c <= 'Z'
  }

  function DigitValue(c: char): nat
    requires IsDigit36(c)
  {
    if c <= '9' then c as nat - 48 else if c <= 'Z' then c as nat - 55 else c as nat - 87
  }

  predicate IsBlank(c: char) {
    c == ' ' || 9 <= c as int <= 13
  }

  /** The digits at the front of s, behind the number n. */
  function ReadDigits(s: string, n: nat): nat
    decreases |s|
  {
    if s == "" || !IsDigit36(s[0]) then n else ReadDigits(s[1..], CSV_RADIX * n + DigitValue(s[0]))
  }

  /** What does not fit becomes the nearest number that does. */
  function Clamp(x: int): int {
    if x >= TWO_63 then TWO_63 - 1 else if x < -TWO_63 then -TWO_63 else x
  }

  function StrToLL(s: string): int
    decreases |s|
  {
    if s == "" then 0
    else if IsBlank(s[0]) then StrToLL(s[1..])
    else if s[0] == '-' then Clamp(-(ReadDigits(s[1..], 0) as int))
    else if s[0] == '+' then Clamp(ReadDigits(s[1..], 0))
    else Clamp(ReadDigits(s, 0))
  }

  /** None where the text has no dot. */
  function ParseMoment(s: string): Option<Moment> {
    var k := Reach(s, ".");
    if k == |s| then None else Some(Moment(StrToLL(s[..k]), StrToLL(s[k + 1..])))
  }

  predicate AllDigits(s: string) {
    forall i {:trigger s[i]} | 0 <= i < |s| :: IsDigit36(s[i])
  }

  lemma {:induction false} ReadOneMore(s: string, c: char, n: nat)
    requires AllDigits(s) && IsDigit36(c)
    ensures ReadDigits(s + [c], n) == CSV_RADIX * ReadDigits(s, n) + DigitValue(c)
    decreases |s|
  {
    if s == "" {
      assert [c][1..] == "" && "" + [c] == [c];
    } else {
      assert (s + [c])[1..] == s[1..] + [c];
      ReadOneMore(s[1..], c, CSV_RADIX * n + DigitValue(s[0]));
    }
  }

  lemma CharIsDigit(d: nat)
    requires d < CSV_RADIX
    ensures IsDigit36(Char(d)) && DigitValue(Char(d)) == d
  {
  }

  /** A formatted number is read back, from the left. */
  lemma {:induction false} DigitsAreRead(v: nat)
    ensures AllDigits(Digits(v, CSV_RADIX)) && ReadDigits(Digits(v, CSV_RADIX), 0) == v
    decreases v
  {
    DivShrinks(v, CSV_RADIX);
    CharIsDigit(v % CSV_RADIX);
    var front := if v < CSV_RADIX then "" else Digits(v / CSV_RADIX, CSV_RADIX);
    if v >= CSV_RADIX {
      DigitsAreRead(v / CSV_RADIX);
    }
    ReadOneMore(front, Char(v % CSV_RADIX), 0);
    assert v < CSV_RADIX ==> v / CSV_RADIX == 0;
  }

  lemma NumberIsRead(v: nat)
    ensures StrToLL(Digits(v, CSV_RADIX)) == Clamp(v)
  {
    DigitsAreRead(v);
    var s := Digits(v, CSV_RADIX);
    assert IsDigit36(s[0]);
  }

  /** The character c is the digit for d in base 36. */
  predicate IsDigitFor(c: char, d: nat) {
    d < 36 && if d < 10 then c == Letters.DIGITS[d] else c == Letters.SMALL[d - 10] || c == Letters.CAPITALS[d - 10]
  }

  lemma DigitIs(c: char, d: nat)
    requires d < 36
    ensures IsDigitFor(c, d) <==> IsDigit36(c) && DigitValue(c) == d
  {
    Letters.Digits(c);
    Letters.Capitals(c);
    Letters.Small(c);
  }

  /** What a list of digits stands for. */
  function ValueOf(ds: seq<nat>): nat {
    if ds == [] then 0 else 36 * ValueOf(ds[..|ds| - 1]) + ds[|ds| - 1]
  }

  predicate Writes(s: string, ds: seq<nat>) {
    |s| == |ds| && forall i | 0 <= i < |s| :: IsDigitFor(s[i], ds[i])
  }

  lemma {:induction false} WrittenIsRead(s: string, ds: seq<nat>)
    requires Writes(s, ds)
    ensures AllDigits(s) && ReadDigits(s, 0) == ValueOf(ds)
    decreases |s|
  {
    if s != "" {
      var n := |s| - 1;
      WrittenIsRead(s[..n], ds[..n]);
      DigitIs(s[n], ds[n]);
      assert s == s[..n] + [s[n]];
      ReadOneMore(s[..n], s[n], 0);
    }
  }

  lemma {:induction false} StopsAtEnd(s: string, more: string, n: nat)
    requires AllDigits(s) && (more == "" || forall d | 0 <= d < 36 :: !IsDigitFor(more[0], d))
    ensures ReadDigits(s + more, n) == ReadDigits(s, n)
    decreases |s|
  {
    if s != "" {
      assert (s + more)[1..] == s[1..] + more;
      StopsAtEnd(s[1..], more, CSV_RADIX * n + DigitValue(s[0]));
    } else if more != "" && IsDigit36(more[0]) {
      DigitIs(more[0], DigitValue(more[0]));
    } else {
      assert s + more == more;
    }
  }

  const BLANKS := " \t\n\r\U{0B}\U{0C}"

  /** What is read of any text: behind blanks and a sign, the digits up to the first
      character that is none, as near as 64 bits come to their number. */
  lemma {:induction false} TextIsRead(blanks: string, sign: string, s: string, ds: seq<nat>, more: string)
    requires (forall c | c in blanks :: c in BLANKS) && (sign == "" || sign == "+" || sign == "-") && Writes(s, ds)
    requires more == "" || forall d | 0 <= d < 36 :: !IsDigitFor(more[0], d)
    requires sign == "" && s == "" && more != "" ==> more[0] !in BLANKS + "+-"
    ensures var v := if sign == "-" then -(ValueOf(ds) as int) else ValueOf(ds);
            StrToLL(blanks + (sign + (s + more))) ==
            if v > 0x7FFF_FFFF_FFFF_FFFF then 0x7FFF_FFFF_FFFF_FFFF
            else if v < -0x8000_0000_0000_0000 then -0x8000_0000_0000_0000
            else v
    decreases |blanks|
  {
    if blanks != "" {
      assert (blanks + (sign + (s + more)))[1..] == blanks[1..] + (sign + (s + more));
      BlanksAre(blanks[0]);
      TextIsRead(blanks[1..], sign, s, ds, more);
    } else {
      assert blanks + (sign + (s + more)) == sign + (s + more);
      WrittenIsRead(s, ds);
      StopsAtEnd(s, more, 0);
      if sign != "" {
        assert (sign + (s + more))[1..] == s + more;
      } else {
        assert sign + (s + more) == s + more;
        NoSignNoBlank(s, more);
      }
    }
  }

  lemma BlanksAre(c: char)
    ensures c in BLANKS <==> IsBlank(c)
  {
    assert BLANKS[0] as int == 32 && BLANKS[1] as int == 9 && BLANKS[2] as int == 10 && BLANKS[3] as int == 13;
    assert BLANKS[4] as int == 11 && BLANKS[5] as int == 12;
  }

  lemma NoSignNoBlank(s: string, more: string)
    requires AllDigits(s) && (s == "" && more != "" ==> more[0] !in BLANKS + "+-")
    ensures s + more != "" ==> !IsBlank((s + more)[0]) && (s + more)[0] != '-' && (s + more)[0] != '+'
  {
    if s + more != "" {
      BlanksAre((s + more)[0]);
      if s == "" {
        assert (BLANKS + "+-")[6] == '+' && (BLANKS + "+-")[7] == '-';
      }
    }
  }

  function Power36(k: nat): (p: nat)
    ensures p > 0
  {
    if k == 0 then 1 else 36 * Power36(k - 1)
  }

  lemma {:induction false} DigitsFit(n: nat, k: nat)
    requires 0 < k && n < Power36(k)
    ensures |Digits(n, CSV_RADIX)| <= k
    decreases k
  {
    if n >= CSV_RADIX {
      DigitsFit(n / CSV_RADIX, k - 1);
    }
  }

  lemma SixtyFourBits()
    ensures TWO_64 <= Power36(13)
  {
    assert Power36(2) == 1296;
    assert Power36(4) == 1679616;
    assert Power36(6) == 2176782336;
    assert Power36(8) == 2821109907456;
    assert Power36(10) == 3656158440062976;
    assert Power36(12) == 4738381338321616896;
  }

  lemma FormatFits(m: Moment)
    ensures |Digits(U64(m.sec), CSV_RADIX)| <= 13 && |Digits(U64(m.nsec), CSV_RADIX)| <= 13
    ensures |FormatMoment(m)| < MOMENT_BUFMAX && '\0' !in FormatMoment(m)
  {
    SixtyFourBits();
    DigitsFit(U64(m.sec), 13);
    DigitsFit(U64(m.nsec), 13);
  }

  lemma ReadsBoth(m: Moment)
    ensures ParseMoment(FormatMoment(m)) == Some(Moment(Clamp(U64(m.sec)), Clamp(U64(m.nsec))))
  {
    var a, b, s := Digits(U64(m.sec), CSV_RADIX), Digits(U64(m.nsec), CSV_RADIX), FormatMoment(m);
    DigitsAreRead(U64(m.sec));
    assert forall i | 0 <= i < |a| :: s[i] == a[i] && a[i] != '.';
    ReachIs(s, ".", |a|);
    assert s[..|a|] == a && s[|a| + 1..] == b;
    NumberIsRead(U64(m.sec));
    NumberIsRead(U64(m.nsec));
  }

  /** A formatted moment fits its buffer with its NUL, and is read back as it was if
      and only if neither number is negative: those are written as large ones. */
  lemma MomentRoundTrips(m: Moment)
    requires Fits64(m)
    ensures |FormatMoment(m)| < MOMENT_BUFMAX
    ensures ParseMoment(FormatMoment(m)) == Some(m) <==> m.sec >= 0 && m.nsec >= 0
  {
    FormatFits(m);
    ReadsBoth(m);
    assert m.sec < 0 ==> U64(m.sec) == m.sec + TWO_64;
    assert m.nsec < 0 ==> U64(m.nsec) == m.nsec + TWO_64;
  }

  /* The buffers. */

  /** What fits a buffer of size n with the NUL. */
  function Truncated(s: string, n: nat): string
    requires n > 0
  {
    if |s| < n then s else s[..n - 1]
  }

  /** Copies a string and its NUL, as much as fits. */
  method CopyText(buf: array<char>, text: string)
    requires buf.Length > 0 && '\0' !in text
    modifies buf
    ensures HoldsString(buf[..], Truncated(text, buf.Length))
  {
    var i := 0;
    while i < |text| && i < buf.Length - 1
      invariant 0 <= i <= |text| && i < buf.Length && buf[..i] == text[..i]
    {
      buf[i] := text[i];
      i := i + 1;
    }
    buf[i] := '\0';
    assert text[..i] == Truncated(text, buf.Length);
    assert buf[..][..i] == buf[..i];
  }

  /** One number, in a buffer of its own. */
  method FormatNumber(x: int) returns (text: string)
    requires |Digits(U64(x), CSV_RADIX)| < MOMENT_BUFMAX
    ensures text == Digits(U64(x), CSV_RADIX)
  {
    var buf := new char[MOMENT_BUFMAX];
    FormatToRadix(CSV_RADIX, buf, U64(x));
    assert buf[0..] == buf[..];
    text := ReadString(buf, 0, Digits(U64(x), CSV_RADIX));
  }

  /** moment_format. */
  method WriteMoment(m: Moment, buf: array<char>)
    requires buf.Length > 0
    modifies buf
    ensures HoldsString(buf[..], Truncated(FormatMoment(m), buf.Length))
  {
    FormatFits(m);
    buf[0] := '\0';
    var sec := FormatNumber(m.sec);
    var nsec := FormatNumber(m.nsec);
    CopyText(buf, sec + "." + nsec);
  }

  /** moment_parse: without a dot the moment is zero, and the result 1. */
  method ReadMoment(str: string) returns (m: Moment, rc: int)
    requires |str| < MOMENT_BUFMAX && '\0' !in str
    ensures match ParseMoment(str)
            case None => m == Moment(0, 0) && rc == 1
            case Some(v) => m == v && rc == 0
  {
    var mbuf := new char[MOMENT_BUFMAX];
    CopyText(mbuf, str);
    assert mbuf[0..] == mbuf[..];
    var nsec := Strsep(mbuf, 0, ".", str);
    ghost var k := Reach(str, ".");
    if nsec.Some? {
      var whole := ReadString(mbuf, 0, str[..k]);
      var rest := ReadString(mbuf, nsec.value, str[k + 1..]);
      m, rc := Moment(StrToLL(whole), StrToLL(rest)), 0;
    } else {
      m, rc := Moment(0, 0), 1;
    }
  }
}
