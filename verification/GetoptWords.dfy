/** What single words mean, told from the characters of the option string, of the
    table's names and of the words. */
module GetoptWords {
  import opened GetoptSpec
  import opened Options
  import opened Strings

  /* The option string. */

  /** The option string has a sign for the ordering, or none, and then the letter `c`
      for the first time between `pre` and `post`. */
  predicate Declares(options: string, sign: string, pre: string, c: char, post: string) {
    && options == sign + pre + [c] + post && c !in pre && c != ':' && c != '-'
    && (sign == "+" || sign == "-" || (sign == "" && options[0] != '-' && options[0] != '+'))
  }

  /** The letter is not in the option string behind the sign, or it is a colon. */
  predicate Undeclared(options: string, sign: string, letters: string, c: char) {
    && options == sign + letters && (c !in letters || c == ':') && c != '-'
    && (sign == "+" || sign == "-" || (sign == "" && (options == "" || (options[0] != '-' && options[0] != '+'))))
  }

  predicate Starts(s: string, start: string) {
    |start| <= |s| && s[..|start|] == start
  }

  lemma {:induction false} FindFirst(s: string, c: char, i: nat)
    requires i < |s| && s[i] == c && c !in s[..i]
    ensures Find(s, c) == Some(i)
  {
    if i > 0 {
      assert s[..i][0] == s[0] && s[..i][1..] == s[1..][..i - 1];
      FindFirst(s[1..], c, i - 1);
    }
  }

  lemma LettersAre(cfg: Config, sign: string, letters: string)
    requires cfg.options == sign + letters && (sign == "+" || sign == "-" || (sign == "" && !IgnoreFirst(cfg.options)))
    ensures Letters(cfg) == letters
  {
    assert sign != "" ==> cfg.options[1..] == letters;
    assert sign == "" ==> cfg.options == letters;
  }

  /** What stands behind the letter. */
  lemma Behind(pre: string, c: char, post: string)
    ensures var s := pre + [c] + post;
            && (CharAt(s, |pre| + 1, ';') <==> Starts(post, ";"))
            && (CharAt(s, |pre| + 1, ':') <==> Starts(post, ":"))
            && (CharAt(s, |pre| + 1, ':') && CharAt(s, |pre| + 2, ':') <==> Starts(post, "::"))
  {
    var s := pre + [c] + post;
    assert |post| > 0 ==> s[|pre| + 1] == post[0] && post[..1] == [post[0]];
    assert |post| > 1 ==> s[|pre| + 2] == post[1] && post[..2] == [post[0], post[1]];
  }

  lemma KindIs(cfg: Config, sign: string, pre: string, c: char, post: string)
    requires Declares(cfg.options, sign, pre, c, post)
    ensures KindOf(cfg, c)
         == if c == 'W' && Starts(post, ";") then ViaLong
            else if !Starts(post, ":") then Plain
            else if Starts(post, "::") then May else Needs
  {
    var s := pre + [c] + post;
    assert cfg.options == sign + s;
    LettersAre(cfg, sign, s);
    assert s[..|pre|] == pre;
    FindFirst(s, c, |pre|);
    Behind(pre, c, post);
  }

  lemma KindUnknown(cfg: Config, sign: string, letters: string, c: char)
    requires Undeclared(cfg.options, sign, letters, c)
    ensures KindOf(cfg, c) == Unknown
  {
    assert sign != "" ==> cfg.options[1..] == letters;
    assert sign == "" ==> cfg.options == letters;
  }

  /* Letters. */

  /** The word takes nothing but itself and reports `r` first. */
  ghost predicate ReadsAlone(cfg: Config, w: string, r: Report, rest: seq<string>) {
    Scan(cfg, [w] + rest) == Report1(r, WithOpts([w], Scan(cfg, rest)))
  }

  lemma OpensLetters(cfg: Config, c: char, arg: string, rest: seq<string>)
    requires c != '-'
    ensures var w := ['-', c] + arg; Scan(cfg, [w] + rest) == ScanLetters(cfg, [c] + arg, w, rest)
  {
    var w := ['-', c] + arg;
    assert w[0] == '-' && w[1] == c && w[1..] == [c] + arg && w != "--";
    assert ([w] + rest)[1..] == rest;
  }

  /** A letter in a word of its own: without a colon behind it in the option string it
      takes nothing, with one it takes the next word, with two it takes nothing. */
  lemma LetterByItself(cfg: Config, sign: string, pre: string, c: char, post: string, rest: seq<string>)
    requires Declares(cfg.options, sign, pre, c, post) && !(c == 'W' && Starts(post, ";"))
    ensures !Starts(post, ":") || Starts(post, "::") ==> ReadsAlone(cfg, ['-', c], Letter(c, None), rest)
    ensures Starts(post, ":") && !Starts(post, "::") && rest == [] ==> ReadsAlone(cfg, ['-', c], LetterLacksArgument(c), rest)
    ensures Starts(post, ":") && !Starts(post, "::") && rest != [] ==>
              Scan(cfg, [['-', c]] + rest) == Report1(Letter(c, Some(rest[0])), WithOpts([['-', c], rest[0]], Scan(cfg, rest[1..])))
  {
    KindIs(cfg, sign, pre, c, post);
    OpensLetters(cfg, c, "", rest);
    assert ['-', c] + "" == ['-', c] && [c] + "" == [c] && [c][1..] == "";
  }

  /** The same with `arg` behind it in its word: with a colon that is its argument,
      without one the next letters follow. */
  lemma LetterWithMore(cfg: Config, sign: string, pre: string, c: char, post: string, arg: string, rest: seq<string>)
    requires Declares(cfg.options, sign, pre, c, post) && !(c == 'W' && Starts(post, ";")) && arg != ""
    ensures var w := ['-', c] + arg; Starts(post, ":") ==> ReadsAlone(cfg, w, Letter(c, Some(arg)), rest)
    ensures !Starts(post, ":") && arg[0] != '-' ==>
              Scan(cfg, [['-', c] + arg] + rest).reports == [Letter(c, None)] + Scan(cfg, [['-'] + arg] + rest).reports
  {
    KindIs(cfg, sign, pre, c, post);
    OpensLetters(cfg, c, arg, rest);
    assert ([c] + arg)[1..] == arg;
    if !Starts(post, ":") && arg[0] != '-' {
      MoreLetters(cfg, arg, ['-', c] + arg, rest);
    }
  }

  lemma MoreLetters(cfg: Config, letters: string, w: string, rest: seq<string>)
    requires letters != "" && letters[0] != '-'
    ensures ScanLetters(cfg, letters, w, rest).reports == Scan(cfg, [['-'] + letters] + rest).reports
  {
    var v := ['-'] + letters;
    assert v == ['-', letters[0]] + letters[1..] && letters == [letters[0]] + letters[1..];
    OpensLetters(cfg, letters[0], letters[1..], rest);
    SameReports(cfg, letters, w, v, rest);
  }

  /** Which word the letters stand in does not change what is reported. */
  lemma {:induction false} SameReports(cfg: Config, letters: string, w: string, v: string, rest: seq<string>)
    ensures ScanLetters(cfg, letters, w, rest).reports == ScanLetters(cfg, letters, v, rest).reports
    decreases |letters|
  {
    if letters != "" {
      SameReports(cfg, letters[1..], w, v, rest);
    }
  }

  /** A letter the option string does not have. */
  lemma UnknownByItself(cfg: Config, sign: string, letters: string, c: char, rest: seq<string>)
    requires Undeclared(cfg.options, sign, letters, c)
    ensures ReadsAlone(cfg, ['-', c], UnknownLetter(c), rest)
  {
    KindUnknown(cfg, sign, letters, c);
    OpensLetters(cfg, c, "", rest);
    assert ['-', c] + "" == ['-', c] && [c] + "" == [c] && [c][1..] == "";
  }

  /* Operands and the marker. */

  /** A word that is no option: a sign in front of the option string says whether it is
      reported or stops the parse, and without one it is kept for the end; the
      environment variable makes it stop in any case. */
  lemma OperandMeans(cfg: Config, w: string, rest: seq<string>)
    requires w == "" || w == "-" || w[0] != '-'
    ensures cfg.posix || Starts(cfg.options, "+") ==> Scan(cfg, [w] + rest) == Parse([], [], [w] + rest, false)
    ensures !cfg.posix && Starts(cfg.options, "-") ==> ReadsAlone(cfg, w, Operand(w), rest)
    ensures !cfg.posix && !Starts(cfg.options, "+") && !Starts(cfg.options, "-") ==>
              Scan(cfg, [w] + rest) == Scan(cfg, rest).(operands := [w] + Scan(cfg, rest).operands)
  {
    assert ([w] + rest)[1..] == rest;
    assert cfg.options != "" ==> cfg.options[..1] == [cfg.options[0]];
  }

  /** Behind two dashes everything is an operand. */
  lemma MarkerMeans(cfg: Config, rest: seq<string>)
    ensures Scan(cfg, ["--"] + rest) == Parse([], ["--"], rest, true)
  {
    assert (["--"] + rest)[1..] == rest;
  }

  /* Long options. */

  /** Entry `i` of the table has this name, and no other name starts with it. */
  predicate OnlyEntry(longs: seq<LongOption>, i: nat, name: string) {
    && i < |longs| && longs[i].name == name && name != "" && '=' !in name
    && forall j | 0 <= j < |longs| && j != i :: !(|name| <= |longs[j].name| && longs[j].name[..|name|] == name)
  }

  lemma OnlyEntryMatches(longs: seq<LongOption>, i: nat, name: string)
    requires OnlyEntry(longs, i, name)
    ensures MatchLong(longs, name) == Found(i)
  {
    MatchMeans(longs, name);
    NoneAbbreviated(longs, name, i, |longs|);
    var n := FirstExact(longs, name, 0);
    assert n == i;
    NoneAbbreviated(longs, name, i, n);
  }

  lemma {:induction false} NoneAbbreviated(longs: seq<LongOption>, name: string, i: nat, n: nat)
    requires OnlyEntry(longs, i, name) && n <= |longs|
    ensures Abbreviated(longs, name, n) == 0
    decreases n
  {
    if n > 0 {
      NoneAbbreviated(longs, name, i, n - 1);
    }
  }

  lemma OpensLong(cfg: Config, text: string, rest: seq<string>)
    requires text != ""
    ensures Scan(cfg, ["--" + text] + rest) == ScanLong(cfg, text, ["--" + text], rest)
  {
    var w := "--" + text;
    assert w[0] == '-' && w[1] == '-' && w[2..] == text && |w| > 2;
    assert ([w] + rest)[1..] == rest;
  }

  lemma TextWithout(name: string)
    requires '=' !in name
    ensures KeyOf(name) == name && ValueOf(name) == None
  {
  }

  lemma TextWith(name: string, value: string)
    requires '=' !in name
    ensures KeyOf(name + "=" + value) == name && ValueOf(name + "=" + value) == Some(value)
  {
    var text := name + "=" + value;
    assert text[..|name|] == name && text[|name| + 1..] == value;
    FindFirst(text, '=', |name|);
  }

  /** A long option by its name: one that requires an argument takes the next word. */
  lemma LongByName(cfg: Config, i: nat, name: string, rest: seq<string>)
    requires OnlyEntry(cfg.longs, i, name)
    ensures cfg.longs[i].hasArg != RequiredArgument ==> ReadsAlone(cfg, "--" + name, Long(i, None), rest)
    ensures cfg.longs[i].hasArg == RequiredArgument && rest == [] ==> ReadsAlone(cfg, "--" + name, LongLacksArgument(i), rest)
    ensures cfg.longs[i].hasArg == RequiredArgument && rest != [] ==>
              Scan(cfg, ["--" + name] + rest)
              == Report1(Long(i, Some(rest[0])), WithOpts(["--" + name, rest[0]], Scan(cfg, rest[1..])))
  {
    OnlyEntryMatches(cfg.longs, i, name);
    TextWithout(name);
    OpensLong(cfg, name, rest);
    if rest != [] {
      assert ["--" + name] + [rest[0]] == ["--" + name, rest[0]];
    }
  }

  /** A long option with a value behind an equals sign. */
  lemma LongWithValue(cfg: Config, i: nat, name: string, value: string, rest: seq<string>)
    requires OnlyEntry(cfg.longs, i, name)
    ensures ReadsAlone(cfg, "--" + (name + "=" + value),
              if cfg.longs[i].hasArg == NoArgument then LongTakesNoArgument(i) else Long(i, Some(value)), rest)
  {
    OnlyEntryMatches(cfg.longs, i, name);
    TextWith(name, value);
    OpensLong(cfg, name + "=" + value, rest);
  }

  lemma LongInWord(cfg: Config, text: string, rest: seq<string>)
    requires KindOf(cfg, 'W') == ViaLong && text != ""
    ensures Scan(cfg, ["-W" + text] + rest).reports == Scan(cfg, ["--" + text] + rest).reports
  {
    OpensLong(cfg, text, rest);
    OpensLetters(cfg, 'W', text, rest);
    assert ['-', 'W'] + text == "-W" + text && (['W'] + text)[1..] == text;
  }

  lemma LongNext(cfg: Config, text: string, rest: seq<string>)
    requires KindOf(cfg, 'W') == ViaLong
    ensures Scan(cfg, ["-W", text] + rest) ==
            if text == "" then Parse([], ["-W", ""], rest, true) else ScanLong(cfg, text, ["-W", text], rest)
  {
    OpensLetters(cfg, 'W', "", [text] + rest);
    assert ['-', 'W'] + "" == "-W" && ['W'] + "" == ['W'] && ['W'][1..] == "";
    assert ["-W"] + ([text] + rest) == ["-W", text] + rest && ([text] + rest)[1..] == rest;
  }

  lemma LetterAlone(cfg: Config)
    requires KindOf(cfg, 'W') == ViaLong
    ensures ReadsAlone(cfg, "-W", LetterLacksArgument('W'), [])
  {
    OpensLetters(cfg, 'W', "", []);
    assert ['-', 'W'] + "" == "-W" && ['W'] + "" == ['W'] && ['W'][1..] == "";
  }

  /** A letter W with a semicolon behind it in the option string: what follows it, in
      its word or as the next one, is reported as it would be behind two dashes. */
  lemma LongBehindLetter(cfg: Config, sign: string, pre: string, post: string, text: string, rest: seq<string>)
    requires Declares(cfg.options, sign, pre, 'W', post) && Starts(post, ";") && text != ""
    ensures Scan(cfg, ["-W" + text] + rest).reports == Scan(cfg, ["--" + text] + rest).reports
    ensures Scan(cfg, ["-W", text] + rest).reports == Scan(cfg, ["--" + text] + rest).reports
    ensures Scan(cfg, ["-W", ""] + rest) == Parse([], ["-W", ""], rest, true)
    ensures ReadsAlone(cfg, "-W", LetterLacksArgument('W'), [])
  {
    KindIs(cfg, sign, pre, 'W', post);
    LongInWord(cfg, text, rest);
    LongNext(cfg, text, rest);
    OpensLong(cfg, text, rest);
    LongNext(cfg, "", rest);
    LetterAlone(cfg);
  }
}
