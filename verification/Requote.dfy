/** Quoting an argument vector into one buffer whose size is fixed beforehand. */
module Requote {
  import opened RequoteSpec
  import opened Sequences

  /** The space set aside: every character escaped, two quotes, and a separator. */
  function Space(argv: seq<string>): nat {
    if argv == [] then 0 else 2 * |argv[0]| + 3 + Space(argv[1..])
  }

  lemma {:induction false} EscapedFits(w: string)
    ensures |Escaped(w)| <= 2 * |w|
    decreases |w|
  {
    if w != "" {
      EscapedFits(w[1..]);
    }
  }

  lemma QuotedFits(w: string)
    ensures |Quoted(w)| <= 2 * |w| + 2
  {
    EscapedFits(w);
  }

  /** The quoted line and its NUL fit in the space set aside. */
  lemma {:induction false} LineFits(argv: seq<string>)
    requires argv != []
    ensures |Line(argv)| < Space(argv)
    decreases |argv|
  {
    QuotedFits(argv[0]);
    if |argv| > 1 {
      LineFits(argv[1..]);
    }
  }

  /** The scan for the kind of quotes. */
  method FindStyle(w: string) returns (style: Style)
    ensures style == StyleOf(w)
  {
    if |w| == 0 {
      return Double;
    }
    style := Bare;
    var p := 0;
    while p < |w|
      invariant 0 <= p <= |w| && '\'' !in w[..p]
      invariant style == if exists i :: 0 <= i < p && !Safe(w[i]) then Single else Bare
    {
      if !Safe(w[p]) {
        if w[p] == '\'' {
          return Double;
        }
        style := Single;
      }
      p := p + 1;
    }
  }

  /** Writes a character, as `*ptr++ = c` does. */
  method Put(buf: array<char>, ptr: nat, c: char) returns (next: nat)
    requires ptr < buf.Length
    modifies buf
    ensures next == ptr + 1 && buf[..next] == old(buf[..ptr]) + [c]
  {
    buf[ptr] := c;
    next := ptr + 1;
  }

  /** What is written for character i of a word. */
  function Emitted(w: string, i: nat, style: Style): string
    requires i < |w|
  {
    if style != Double then [w[i]]
    else if w[i] == '\\' && i + 1 < |w| && w[i + 1] == '\n' then ""
    else if w[i] == '\\' || w[i] in "$\"\n`" then ['\\', w[i]]
    else [w[i]]
  }

  function Rest(w: string, i: nat, style: Style): string
    requires i <= |w|
  {
    if style == Double then Escaped(w[i..]) else w[i..]
  }

  lemma RestStep(w: string, i: nat, style: Style)
    requires i < |w|
    ensures Rest(w, i, style) == Emitted(w, i, style) + Rest(w, i + 1, style)
  {
    var here := w[i..];
    assert here[1..] == w[i + 1..] && here[0] == w[i] && (|here| > 1 ==> here[1] == w[i + 1]);
    assert style != Double ==> here == [w[i]] + w[i + 1..];
    assert "" + Escaped(here[1..]) == Escaped(here[1..]);
  }

  /** One character, with an escape before it or dropped, if in double quotes. */
  method CopyChar(buf: array<char>, start: nat, w: string, i: nat, style: Style) returns (ptr: nat)
    requires i < |w| && start + 2 <= buf.Length
    modifies buf
    ensures start <= ptr <= start + 2 && buf[..ptr] == old(buf[..start]) + Emitted(w, i, style)
  {
    ptr := start;
    var c := w[i];
    if style == Double {
      if c == '\\' {
        if i + 1 < |w| && w[i + 1] == '\n' {
          return;
        }
        ptr := Put(buf, ptr, '\\');
      } else if c in "$\"\n`" {
        ptr := Put(buf, ptr, '\\');
      }
    }
    ptr := Put(buf, ptr, c);
  }

  /** The characters of a word inside its quotes. */
  method CopyWord(buf: array<char>, start: nat, w: string, style: Style) returns (ptr: nat)
    requires start + 2 * |w| <= buf.Length
    modifies buf
    ensures start <= ptr <= start + 2 * |w| && buf[..ptr] == old(buf[..start]) + Rest(w, 0, style)
  {
    ptr := start;
    var i := 0;
    while i < |w|
      invariant 0 <= i <= |w| && start <= ptr <= start + 2 * i
      invariant old(buf[..start]) + Rest(w, 0, style) == buf[..ptr] + Rest(w, i, style)
    {
      RestStep(w, i, style);
      Assoc(buf[..ptr], Emitted(w, i, style), Rest(w, i + 1, style));
      ptr := CopyChar(buf, ptr, w, i, style);
      i := i + 1;
    }
    assert buf[..ptr] + "" == buf[..ptr];
  }

  lemma Regroup(a: string, q: string, x: string)
    ensures a + q + x + q == a + (q + x + q)
  {
  }

  method QuoteWord(buf: array<char>, start: nat, w: string) returns (ptr: nat)
    requires start + 2 * |w| + 2 <= buf.Length
    modifies buf
    ensures start <= ptr <= start + 2 * |w| + 2 && buf[..ptr] == old(buf[..start]) + Quoted(w)
  {
    var style := FindStyle(w);
    ptr := start;
    var quote := if style == Single then '\'' else '"';
    assert w[0..] == w;
    if style != Bare {
      Regroup(buf[..start], [quote], Rest(w, 0, style));
      ptr := Put(buf, ptr, quote);
    }
    ptr := CopyWord(buf, ptr, w, style);
    if style != Bare {
      ptr := Put(buf, ptr, quote);
    }
  }

  lemma Joined4(a: string, b: string, c: string, d: string)
    ensures a + (b + c + d) == a + b + c + d
  {
  }

  lemma LineStep(argv: seq<string>, i: nat, done: string)
    requires i < |argv|
    ensures done + Line(argv[i..]) ==
      if i + 1 == |argv| then done + Quoted(argv[i]) else done + Quoted(argv[i]) + [' '] + Line(argv[i + 1..])
    ensures Space(argv[i..]) == 2 * |argv[i]| + 3 + Space(argv[i + 1..])
  {
    var rest := argv[i..];
    assert rest[1..] == argv[i + 1..] && rest[0] == argv[i];
    if i + 1 < |argv| {
      assert Line(rest) == Quoted(argv[i]) + " " + Line(argv[i + 1..]);
      Joined4(done, Quoted(argv[i]), [' '], Line(argv[i + 1..]));
    }
  }

  method MeasureSpace(argv: seq<string>) returns (n: nat)
    ensures n == Space(argv)
  {
    n := 0;
    var i := 0;
    assert argv[0..] == argv;
    while i < |argv|
      invariant 0 <= i <= |argv| && Space(argv) == n + Space(argv[i..])
    {
      LineStep(argv, i, "");
      n := n + 2 * |argv[i]| + 3;
      i := i + 1;
    }
  }

  method RequoteArgv(argv: seq<string>) returns (cmdline: string)
    requires argv != []
    ensures cmdline == Line(argv)
  {
    var n := MeasureSpace(argv);
    var buf := new char[n];
    var ptr, i := 0, 0;
    assert argv[0..] == argv;
    while i < |argv|
      invariant 0 <= i <= |argv| && 0 <= ptr && ptr + Space(argv[i..]) <= buf.Length
      invariant i < |argv| ==> Line(argv) == buf[..ptr] + Line(argv[i..])
      invariant i == |argv| ==> Line(argv) == buf[..ptr] && ptr < buf.Length
    {
      LineStep(argv, i, buf[..ptr]);
      ptr := QuoteWord(buf, ptr, argv[i]);
      if i + 1 < |argv| {
        ptr := Put(buf, ptr, ' ');
      } else {
        buf[ptr] := '\0';
      }
      i := i + 1;
    }
    return buf[..ptr];
  }
}
