/** Quoting an argument vector for the shell, and how the shell splits a command
    line into words (section 2.2 of the POSIX Shell Command Language). */
module RequoteSpec {
  import Letters
  import opened Options

  /* Quoting. */

  predicate Alnum(c: char) {
    '0' <= c <= '9' || 'A' <= c <= 'Z' || 'a' <= c <= 'z'
  }

  /** Characters that never need quotes. */
  predicate Safe(c: char) {
    Alnum(c) || c in "!%+,-./=:@_"
  }

  datatype Style = Bare | Single | Double

  /** Single quotes if any character needs quotes, double quotes if one of them
      is a single quote, or there is no character at all. */
  function StyleOf(w: string): Style {
    if w == "" || '\'' in w then Double
    else if exists i :: 0 <= i < |w| && !Safe(w[i]) then Single
    else Bare
  }

  /** The words that go without quotes, and those that get double ones. */
  lemma StyleMeans(w: string)
    ensures StyleOf(w) == Bare <==>
              w != "" && forall i | 0 <= i < |w| ::
                w[i] in Letters.DIGITS || w[i] in Letters.CAPITALS || w[i] in Letters.SMALL || w[i] in "!%+,-./=:@_"
    ensures StyleOf(w) == Double <==> w == "" || '\'' in w
  {
    forall i | 0 <= i < |w|
      ensures Alnum(w[i]) <==> w[i] in Letters.DIGITS || w[i] in Letters.CAPITALS || w[i] in Letters.SMALL
    {
      Letters.Digits(w[i]);
      Letters.Capitals(w[i]);
      Letters.Small(w[i]);
    }
  }

  /** A word inside double quotes. */
  function Escaped(w: string): string {
    if w == "" then ""
    else
      var rest := Escaped(w[1..]);
      if w[0] == '\\' then (if |w| > 1 && w[1] == '\n' then rest else "\\\\" + rest)
      else if w[0] in "$\"\n`" then ['\\', w[0]] + rest
      else [w[0]] + rest
  }

  function Quoted(w: string): string {
    match StyleOf(w)
    case Bare => w
    case Single => "'" + w + "'"
    case Double => "\"" + Escaped(w) + "\""
  }

  function Line(argv: seq<string>): string {
    if argv == [] then "" else if |argv| == 1 then Quoted(argv[0]) else Quoted(argv[0]) + " " + Line(argv[1..])
  }

  /* The shell. */

  datatype Mode = Plain | InSingle | InDouble

  /** What stands for something else outside quotes: operators, expansions,
      patterns, comments, home directories, the end of the command. */
  predicate Special(c: char) {
    c in "|&;<>()$`*?[#~\n"
  }

  function Add(word: Option<string>, c: char): Option<string> {
    Some(Text(word) + [c])
  }

  function Text(word: Option<string>): string {
    if word.Some? then word.value else ""
  }

  function Close(done: seq<string>, word: Option<string>): seq<string> {
    if word.Some? then done + [word.value] else done
  }

  /** The words of a command line; none if it means anything but plain words. */
  function Read(s: string, mode: Mode, word: Option<string>, done: seq<string>): Option<seq<string>>
    decreases |s|
  {
    if s == "" then (if mode == Plain then Some(Close(done, word)) else None)
    else
      var c, rest := s[0], s[1..];
      match mode
      case Plain =>
        if c == ' ' || c == '\t' then Read(rest, Plain, None, Close(done, word))
        else if c == '\'' then Read(rest, InSingle, Some(Text(word)), done)
        else if c == '"' then Read(rest, InDouble, Some(Text(word)), done)
        else if c == '\\' then
          if rest == "" then None
          else if rest[0] == '\n' then Read(rest[1..], Plain, word, done)
          else Read(rest[1..], Plain, Add(word, rest[0]), done)
        else if Special(c) then None
        else Read(rest, Plain, Add(word, c), done)
      case InSingle =>
        if c == '\'' then Read(rest, Plain, word, done) else Read(rest, InSingle, Add(word, c), done)
      case InDouble =>
        if c == '"' then Read(rest, Plain, word, done)
        else if c == '$' || c == '`' then None
        else if c == '\\' && rest != "" && rest[0] == '\n' then Read(rest[1..], InDouble, word, done)
        else if c == '\\' && rest != "" && rest[0] in "$`\"\\" then Read(rest[1..], InDouble, Add(word, rest[0]), done)
        else Read(rest, InDouble, Add(word, c), done)
  }

  function Split(s: string): Option<seq<string>> {
    Read(s, Plain, None, [])
  }

  /* What the shell makes of a word that holds nothing special up to some place. */

  const SPECIALS := "|&;<>()$`*?[#~\n"

  predicate Ordinary(w: string) {
    forall c | c in w :: c !in SPECIALS && c !in " \t'\"\\"
  }

  lemma {:induction false} ReadsOrdinary(w: string, mode: Mode, word: Option<string>, rest: string)
    requires Ordinary(w) && mode != InSingle
    ensures Read(w + rest, mode, word, []) == Read(rest, mode, if w == "" then word else Some(Text(word) + w), [])
    decreases |w|
  {
    if w == "" {
      assert w + rest == rest;
    } else {
      assert (w + rest)[0] == w[0] && (w + rest)[1..] == w[1..] + rest;
      NothingSpecial(w[0]);
      ReadsOrdinary(w[1..], mode, Add(word, w[0]), rest);
      assert Text(word) + w == Text(word) + [w[0]] + w[1..];
      assert w[1..] == "" ==> w == [w[0]];
    }
  }

  lemma NothingSpecial(c: char)
    requires c !in SPECIALS && c !in " \t'\"\\"
    ensures !Special(c) && c != ' ' && c != '\t' && c != '\'' && c != '"' && c != '\\' && c != '$' && c != '`'
  {
    var others := " \t'\"\\";
    assert others[0] == ' ' && others[1] == '\t' && others[2] == '\'' && others[3] == '"' && others[4] == '\\';
    assert SPECIALS[7] == '$' && SPECIALS[8] == '`';
  }

  /** A special character outside quotes means more than itself, as do a dollar sign
      and a backquote inside double quotes. */
  lemma ShellMeans(w: string, c: char, rest: string)
    requires Ordinary(w)
    ensures c in SPECIALS ==> Split(w + ([c] + rest)) == None
    ensures c == '$' || c == '`' ==> Split("\"" + (w + ([c] + rest))) == None
  {
    ReadsOrdinary(w, Plain, None, [c] + rest);
    ReadsOrdinary(w, InDouble, Some(""), [c] + rest);
    assert ("\"" + (w + ([c] + rest)))[1..] == w + ([c] + rest);
    if c in SPECIALS {
      NotQuote(c);
    }
  }

  lemma NotQuote(c: char)
    requires c in SPECIALS
    ensures Special(c) && c != ' ' && c != '\t' && c != '\'' && c != '"' && c != '\\'
  {
  }

  /** A newline behind a backslash is left out. */
  lemma LinesContinue(w: string, rest: string)
    requires Ordinary(w) && Ordinary(rest) && w + rest != ""
    ensures Split(w + ("\\\n" + rest)) == Some([w + rest])
  {
    var word, more := if w == "" then None else Some(w), "\\\n" + rest;
    assert "" + w == w;
    ReadsOrdinary(w, Plain, None, more);
    assert more[0] == '\\' && more[1..][0] == '\n' && more[1..][1..] == rest;
    assert Read(more, Plain, word, []) == Read(rest, Plain, word, []);
    assert rest + "" == rest;
    ReadsOrdinary(rest, Plain, word, "");
    assert Text(word) + rest == w + rest;
    assert Close([], Some(w + rest)) == [w + rest];
    assert rest == "" ==> w + rest == w;
  }
}
