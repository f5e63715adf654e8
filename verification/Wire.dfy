/** Text that goes over the wire in comma-separated records: percent encoding, and
    splitting records into fields. */
module Wire {
  import Letters
  import opened Options
  import opened Radix
  import opened Sequences

  /* Percent encoding. */

  predicate Encoded(c: char) {
    c == '%' || c == ',' || c == '\n'
  }

  function Hex(d: nat): char
    requires d < 16
  {
    if d < 10 then (d + 48) as char else (d + 55) as char
  }

  function EncodeChar(c: char): string {
    if Encoded(c) then ['%', Hex(c as nat / 16), Hex(c as nat % 16)] else [c]
  }

  function Encode(s: string): string {
    if s == "" then "" else EncodeChar(s[0]) + Encode(s[1..])
  }

  predicate IsHex(c: char) {
    '0' <= c <= '9' || 'A' <= c <= 'F' || 'a' <= c <= 'f'
  }

  function HexValue(c: char): nat
    requires IsHex(c)
    ensures HexValue(c) < 16
  {
    if c <= '9' then c as nat - 48 else if c <= 'F' then c as nat - 55 else c as nat - 87
  }

  predicate Escape(s: string) {
    |s| > 2 && s[0] == '%' && IsHex(s[1]) && IsHex(s[2])
  }

  function Unescape(s: string): string {
    if s == "" then ""
    else if Escape(s) then [(16 * HexValue(s[1]) + HexValue(s[2])) as char] + Unescape(s[3..])
    else [s[0]] + Unescape(s[1..])
  }

  lemma EncodedForms()
    ensures EncodeChar('%') == "%25" && EncodeChar(',') == "%2C" && EncodeChar('\n') == "%0A"
    ensures Unescape("%25") == "%" && Unescape("%2C") == "," && Unescape("%0A") == "\n"
  {
    assert "%25"[3..] == "" && "%2C"[3..] == "" && "%0A"[3..] == "";
  }

  /** The character c is the hexadecimal digit for d. */
  predicate IsDigitFor(c: char, d: nat) {
    d < 16 && if d < 10 then c == Letters.DIGITS[d] else c == Letters.CAPITALS[d - 10] || c == Letters.SMALL[d - 10]
  }

  /** What an escape stands for, in letters of either case. */
  lemma EscapeMeans(hi: char, lo: char, i: nat, j: nat, s: string)
    requires IsDigitFor(hi, i) && IsDigitFor(lo, j)
    ensures Unescape(['%', hi, lo] + s) == [(16 * i + j) as char] + Unescape(s)
  {
    var all := ['%', hi, lo] + s;
    HexIs(hi, i);
    HexIs(lo, j);
    assert all[3..] == s;
  }

  lemma HexIs(c: char, d: nat)
    requires d < 16
    ensures IsDigitFor(c, d) <==> IsHex(c) && HexValue(c) == d
  {
    Letters.Digits(c);
    Letters.Capitals(c);
    Letters.Small(c);
  }

  predicate IsAnyDigit(c: char) {
    exists d: nat :: d < 16 && IsDigitFor(c, d)
  }

  lemma HexIsDigit(c: char)
    ensures IsHex(c) <==> IsAnyDigit(c)
  {
    if IsHex(c) {
      HexIs(c, HexValue(c));
    } else if d: nat :| d < 16 && IsDigitFor(c, d) {
      HexIs(c, d);
    }
  }

  /** A percent sign without two digits behind it stands for itself, as does every
      other character. */
  lemma PlainMeans(c: char, s: string)
    requires c == '%' && |s| >= 2 ==> !IsAnyDigit(s[0]) || !IsAnyDigit(s[1])
    ensures Unescape([c] + s) == [c] + Unescape(s)
  {
    var all := [c] + s;
    assert all[1..] == s;
    if |s| >= 2 {
      HexIsDigit(s[0]);
      HexIsDigit(s[1]);
    }
  }

  lemma UnescapeOne(c: char, s: string)
    ensures Unescape(EncodeChar(c) + s) == [c] + Unescape(s)
  {
    EncodedForms();
    var all := EncodeChar(c) + s;
    if Encoded(c) {
      assert all[3..] == s && all[0] == '%' && all[1] == EncodeChar(c)[1] && all[2] == EncodeChar(c)[2];
    } else {
      assert all[1..] == s && all[0] == c;
    }
  }

  /** Decoding gives back every string, and what was sent holds no comma and no
      newline. */
  lemma {:induction false} EncodingRoundTrips(s: string)
    ensures Unescape(Encode(s)) == s && ',' !in Encode(s) && '\n' !in Encode(s)
  {
    if s != "" {
      EncodingRoundTrips(s[1..]);
      UnescapeOne(s[0], Encode(s[1..]));
      EncodedForms();
    }
  }

  method EncodeMinimal(s: string) returns (out: string)
    ensures out == Encode(s)
  {
    out := "";
    var i := 0;
    assert s[0..] == s;
    while i < |s|
      invariant 0 <= i <= |s| && Encode(s) == out + Encode(s[i..])
    {
      assert s[i..][1..] == s[i + 1..];
      Assoc(out, EncodeChar(s[i]), Encode(s[i + 1..]));
      if s[i] == '%' || s[i] == ',' || s[i] == '\n' {
        out := out + ['%', Hex(s[i] as nat / 16), Hex(s[i] as nat % 16)];
      } else {
        out := out + [s[i]];
      }
      i := i + 1;
    }
    assert out + "" == out;
  }

  lemma UnescapeNext(rest: string, c: char)
    requires rest != "" && c == if Escape(rest) then (16 * HexValue(rest[1]) + HexValue(rest[2])) as char else rest[0]
    ensures Unescape(rest) == [c] + Unescape(rest[if Escape(rest) then 3 else 1..])
  {
  }

  method UnescapeText(s: string) returns (out: string)
    ensures out == Unescape(s)
  {
    out := "";
    var i := 0;
    assert s[0..] == s;
    while i < |s|
      invariant 0 <= i <= |s| && Unescape(s) == out + Unescape(s[i..])
    {
      ghost var rest := s[i..];
      var c := s[i];
      if c == '%' && i + 2 < |s| && IsHex(s[i + 1]) && IsHex(s[i + 2]) {
        c := (16 * HexValue(s[i + 1]) + HexValue(s[i + 2])) as char;
        i := i + 2;
      }
      UnescapeNext(rest, c);
      assert rest[if Escape(rest) then 3 else 1..] == s[i + 1..];
      Assoc(out, [c], Unescape(s[i + 1..]));
      out := out + [c];
      i := i + 1;
    }
    assert out + "" == out;
  }

  /* Splitting records into fields. */

  /** How far the first field reaches. */
  function Reach(s: string, delim: string): (k: nat)
    ensures k <= |s| && (k < |s| ==> s[k] in delim) && forall i | 0 <= i < k :: s[i] !in delim
  {
    if s == "" || s[0] in delim then 0 else 1 + Reach(s[1..], delim)
  }

  /** The fields of a record, empty or not. */
  function Fields(s: string, delim: string): (f: seq<string>)
    ensures f != []
    decreases |s|
  {
    var k := Reach(s, delim);
    if k == |s| then [s] else [s[..k]] + Fields(s[k + 1..], delim)
  }

  function Join(fields: seq<string>): string {
    if fields == [] then "" else if |fields| == 1 then fields[0] else fields[0] + "," + Join(fields[1..])
  }

  lemma ReachIs(s: string, delim: string, k: nat)
    requires k <= |s| && (k < |s| ==> s[k] in delim) && forall i | 0 <= i < k :: s[i] !in delim
    ensures Reach(s, delim) == k
  {
  }

  lemma {:induction false} FieldsOfJoin(fields: seq<string>)
    requires fields != [] && forall i | 0 <= i < |fields| :: ',' !in fields[i]
    ensures Fields(Join(fields), ",") == fields
    decreases |fields|
  {
    var first, s := fields[0], Join(fields);
    if |fields| == 1 {
      ReachIs(s, ",", |s|);
    } else {
      var rest := Join(fields[1..]);
      assert s == first + "," + rest;
      ReachIs(s, ",", |first|);
      assert s[..|first|] == first && s[|first| + 1..] == rest;
      FieldsOfJoin(fields[1..]);
    }
  }

  function EncodeAll(fields: seq<string>): seq<string> {
    seq(|fields|, i requires 0 <= i < |fields| => Encode(fields[i]))
  }

  function UnescapeAll(fields: seq<string>): seq<string> {
    seq(|fields|, i requires 0 <= i < |fields| => Unescape(fields[i]))
  }

  /** Whatever the fields hold, a record of encoded fields splits back into them. */
  lemma RecordRoundTrips(fields: seq<string>)
    requires fields != []
    ensures UnescapeAll(Fields(Join(EncodeAll(fields)), ",")) == fields
  {
    forall i | 0 <= i < |fields|
      ensures Unescape(EncodeAll(fields)[i]) == fields[i] && ',' !in EncodeAll(fields)[i]
    {
      EncodingRoundTrips(fields[i]);
    }
    FieldsOfJoin(EncodeAll(fields));
  }

  /** The next field of the string at `s`: a NUL is written behind it, and the
      rest starts after that NUL, unless the string ended. */
  method Strsep(buf: array<char>, s: nat, delim: string, ghost text: string) returns (next: Option<nat>)
    requires s <= buf.Length && HoldsString(buf[s..], text) && '\0' !in delim
    modifies buf
    ensures var k := Reach(text, delim);
            && HoldsString(buf[s..], text[..k])
            && (if k == |text| then next == None else next == Some(s + k + 1) && HoldsString(buf[s + k + 1..], text[k + 1..]))
  {
    var p := s;
    assert forall k | 0 <= k < |text| :: buf[s + k] == buf[s..][k] == text[k];
    assert buf[s + |text|] == buf[s..][|text|];
    while buf[p] != '\0' && buf[p] !in delim
      invariant s <= p <= s + |text|
      invariant forall i | 0 <= i < p - s :: text[i] !in delim
      decreases s + |text| - p
    {
      p := p + 1;
    }
    ReachIs(text, delim, p - s);
    assert buf[s..][..p - s] == text[..p - s];
    if buf[p] == '\0' {
      assert text[..p - s] == text;
      return None;
    }
    buf[p] := '\0';
    next := Some(p + 1);
    assert buf[s..][..p - s] == text[..p - s];
    assert buf[p + 1..][..|text| - (p - s) - 1] == text[p - s + 1..];
  }

  lemma FieldsStep(done: seq<string>, rest: string, delim: string)
    ensures var k := Reach(rest, delim);
            done + Fields(rest, delim)
            == if k == |rest| then done + [rest[..k]] else done + [rest[..k]] + Fields(rest[k + 1..], delim)
  {
    var k := Reach(rest, delim);
    if k < |rest| {
      assert done + ([rest[..k]] + Fields(rest[k + 1..], delim)) == done + [rest[..k]] + Fields(rest[k + 1..], delim);
    } else {
      assert rest[..k] == rest;
    }
  }

  /** Taking fields until there are no more. */
  method AllFields(buf: array<char>, delim: string, ghost text: string) returns (fields: seq<string>)
    requires HoldsString(buf[..], text) && '\0' !in delim
    modifies buf
    ensures fields == Fields(text, delim)
  {
    fields := [];
    var s: Option<nat> := Some(0);
    ghost var rest := text;
    assert buf[0..] == buf[..];
    while s.Some?
      invariant s.Some? ==> s.value <= buf.Length && HoldsString(buf[s.value..], rest)
      invariant Fields(text, delim) == if s.Some? then fields + Fields(rest, delim) else fields
      decreases if s.Some? then |rest| + 1 else 0
    {
      FieldsStep(fields, rest, delim);
      var start := s.value;
      s := Strsep(buf, start, delim, rest);
      ghost var k := Reach(rest, delim);
      var field := ReadString(buf, start, rest[..k]);
      fields := fields + [field];
      rest := if k == |rest| then "" else rest[k + 1..];
    }
  }

  method ReadString(buf: array<char>, s: nat, ghost text: string) returns (r: string)
    requires s <= buf.Length && HoldsString(buf[s..], text)
    ensures r == text
  {
    var p := s;
    assert forall k | 0 <= k < |text| :: buf[s + k] == buf[s..][k] == text[k];
    assert buf[s + |text|] == buf[s..][|text|];
    while buf[p] != '\0'
      invariant s <= p <= s + |text|
      decreases s + |text| - p
    {
      p := p + 1;
    }
    assert buf[s..p] == buf[s..][..p - s];
    r := buf[s..p];
  }
}
