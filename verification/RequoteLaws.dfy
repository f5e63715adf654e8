/** Splitting what was quoted. */
module RequoteLaws {
  import opened Options
  import opened RequoteSpec

  /** What double quotes cannot carry: newlines, and backslashes before them. */
  function Carried(w: string): string {
    if w == "" then ""
    else if w[0] == '\n' || (w[0] == '\\' && |w| > 1 && w[1] == '\n') then Carried(w[1..])
    else [w[0]] + Carried(w[1..])
  }

  function Kept(w: string): string {
    if StyleOf(w) == Double then Carried(w) else w
  }

  lemma {:induction false} CarriedWhole(w: string)
    ensures |Carried(w)| <= |w|
    ensures '\n' in w ==> |Carried(w)| < |w|
    ensures '\n' !in w ==> Carried(w) == w
    decreases |w|
  {
    if w != "" {
      CarriedWhole(w[1..]);
      assert w == [w[0]] + w[1..];
    }
  }

  lemma Front(w: string, tail: string)
    requires w != ""
    ensures (w + tail)[1..] == w[1..] + tail && (w + tail)[0] == w[0]
  {
  }

  lemma Split3(a: string, w: string)
    requires w != ""
    ensures a + [w[0]] + w[1..] == a + w
  {
  }

  lemma ReadSafe(c: char, s: string, word: Option<string>, done: seq<string>)
    requires s != "" && s[0] == c && Safe(c)
    ensures Read(s, Plain, word, done) == Read(s[1..], Plain, Add(word, c), done)
  {
  }

  lemma {:induction false} ReadBare(w: string, tail: string, word: Option<string>, done: seq<string>)
    requires forall i | 0 <= i < |w| :: Safe(w[i])
    requires w != "" || word.Some?
    ensures Read(w + tail, Plain, word, done) == Read(tail, Plain, Some(Text(word) + w), done)
    decreases |w|
  {
    if w == "" {
      assert w + tail == tail && Text(word) + w == word.value;
    } else {
      var c, rest := w[0], w[1..];
      Front(w, tail);
      ReadSafe(c, w + tail, word, done);
      ReadBare(rest, tail, Add(word, c), done);
      Split3(Text(word), w);
    }
  }

  lemma {:induction false} ReadSingle(w: string, tail: string, word: string, done: seq<string>)
    requires '\'' !in w
    ensures Read(w + "'" + tail, InSingle, Some(word), done) == Read(tail, Plain, Some(word + w), done)
    decreases |w|
  {
    var s := w + "'" + tail;
    if w == "" {
      assert s[0] == '\'' && s[1..] == tail && word + w == word;
    } else {
      assert s[1..] == w[1..] + "'" + tail && s[0] == w[0];
      ReadSingle(w[1..], tail, word + [w[0]], done);
      assert word + [w[0]] + w[1..] == word + w;
    }
  }

  lemma {:induction false} ReadDouble(w: string, tail: string, word: string, done: seq<string>)
    ensures Read(Escaped(w) + "\"" + tail, InDouble, Some(word), done) == Read(tail, Plain, Some(word + Carried(w)), done)
    decreases |w|
  {
    var s := Escaped(w) + "\"" + tail;
    if w == "" {
      assert s[0] == '"' && s[1..] == tail && word + "" == word;
    } else {
      var c, rest := w[0], Escaped(w[1..]) + "\"" + tail;
      if c == '\\' && |w| > 1 && w[1] == '\n' {
        ReadDouble(w[1..], tail, word, done);
      } else if c == '\\' || c in "$\"\n`" {
        assert s[0] == '\\' && s[1..][0] == c && s[1..][1..] == rest;
        var more := if c == '\n' then word else word + [c];
        ReadDouble(w[1..], tail, more, done);
        assert c != '\n' ==> word + [c] + Carried(w[1..]) == word + Carried(w);
      } else {
        assert s[0] == c && s[1..] == rest;
        ReadDouble(w[1..], tail, word + [c], done);
        assert word + [c] + Carried(w[1..]) == word + Carried(w);
      }
    }
  }

  lemma ReadInSingle(w: string, tail: string, done: seq<string>)
    requires '\'' !in w
    ensures Read("'" + w + "'" + tail, Plain, None, done) == Read(tail, Plain, Some(w), done)
  {
    var inside := w + "'" + tail;
    assert "'" + w + "'" + tail == ['\''] + inside && (['\''] + inside)[1..] == inside;
    ReadSingle(w, tail, "", done);
    assert "" + w == w;
  }

  lemma ReadInDouble(w: string, tail: string, done: seq<string>)
    ensures Read("\"" + Escaped(w) + "\"" + tail, Plain, None, done) == Read(tail, Plain, Some(Carried(w)), done)
  {
    var inside := Escaped(w) + "\"" + tail;
    assert "\"" + Escaped(w) + "\"" + tail == ['"'] + inside && (['"'] + inside)[1..] == inside;
    ReadDouble(w, tail, "", done);
    assert "" + Carried(w) == Carried(w);
  }

  lemma ReadQuoted(w: string, tail: string, done: seq<string>)
    ensures Read(Quoted(w) + tail, Plain, None, done) == Read(tail, Plain, Some(Kept(w)), done)
  {
    match StyleOf(w) {
      case Bare =>
        ReadBare(w, tail, None, done);
        assert "" + w == w;
      case Single =>
        ReadInSingle(w, tail, done);
      case Double =>
        ReadInDouble(w, tail, done);
    }
  }

  function KeptAll(argv: seq<string>): seq<string> {
    seq(|argv|, i requires 0 <= i < |argv| => Kept(argv[i]))
  }

  /** A word, the space behind it, and the rest. */
  lemma ReadWord(w: string, rest: string, done: seq<string>)
    ensures Read(Quoted(w) + " " + rest, Plain, None, done) == Read(rest, Plain, None, done + [Kept(w)])
  {
    var tail := " " + rest;
    ReadQuoted(w, tail, done);
    assert Quoted(w) + " " + rest == Quoted(w) + tail;
    assert tail[1..] == rest && tail[0] == ' ';
  }

  lemma ReadLast(w: string, done: seq<string>)
    ensures Read(Quoted(w), Plain, None, done) == Some(done + [Kept(w)])
  {
    ReadQuoted(w, "", done);
    assert Quoted(w) + "" == Quoted(w);
  }

  lemma KeptSplits(argv: seq<string>, done: seq<string>)
    requires argv != []
    ensures done + [Kept(argv[0])] + KeptAll(argv[1..]) == done + KeptAll(argv)
  {
  }

  lemma {:induction false} ReadLine(argv: seq<string>, done: seq<string>)
    requires argv != []
    ensures Read(Line(argv), Plain, None, done) == Some(done + KeptAll(argv))
    decreases |argv|
  {
    KeptSplits(argv, done);
    if |argv| == 1 {
      ReadLast(argv[0], done);
      assert done + [Kept(argv[0])] + KeptAll(argv[1..]) == done + [Kept(argv[0])];
    } else {
      ReadWord(argv[0], Line(argv[1..]), done);
      ReadLine(argv[1..], done + [Kept(argv[0])]);
    }
  }

  /** The shell splits the quoted line into the argument vector, if and only if no
      word holds both a single quote and a newline. */
  lemma QuotingRoundTrips(argv: seq<string>)
    requires argv != []
    ensures Split(Line(argv)) == Some(argv) <==> forall i | 0 <= i < |argv| :: !('\'' in argv[i] && '\n' in argv[i])
  {
    ReadLine(argv, []);
    assert [] + KeptAll(argv) == KeptAll(argv);
    forall i | 0 <= i < |argv|
      ensures Kept(argv[i]) == argv[i] <==> !('\'' in argv[i] && '\n' in argv[i])
    {
      CarriedWhole(argv[i]);
    }
    if forall i | 0 <= i < |argv| :: Kept(argv[i]) == argv[i] {
      assert KeptAll(argv) == argv;
    } else {
      var i :| 0 <= i < |argv| && Kept(argv[i]) != argv[i];
      assert KeptAll(argv)[i] != argv[i];
    }
  }
}
