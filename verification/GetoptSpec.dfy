/** What an argument vector means: which words are options, which words they
    take as arguments, which words are operands, and what is reported. */
module GetoptSpec {
  import opened Options
  import opened Strings

  datatype HasArg = NoArgument | RequiredArgument | OptionalArgument

  datatype LongOption = LongOption(name: string, hasArg: HasArg)

  /** The short-option string, whether POSIXLY_CORRECT is set, and the table of
      long options. */
  datatype Config = Config(options: string, posix: bool, longs: seq<LongOption>)

  /** What is done about operands: move them behind the options, report them, or
      stop at the first. */
  datatype Ordering = Permute | ReturnInOrder | StopAtFirst

  predicate IgnoreFirst(options: string) {
    options != "" && (options[0] == '-' || options[0] == '+')
  }

  function OrderingOf(cfg: Config): Ordering {
    if !cfg.posix && !IgnoreFirst(cfg.options) then Permute
    else if !cfg.posix && cfg.options[0] == '-' then ReturnInOrder
    else StopAtFirst
  }

  /** The option string without the sign that chooses the ordering. */
  function Letters(cfg: Config): string {
    if IgnoreFirst(cfg.options) then cfg.options[1..] else cfg.options
  }

  /** One thing reported to the caller, with its argument. */
  datatype Report =
    | Letter(c: char, arg: Option<string>)
    | UnknownLetter(c: char)
    | LetterLacksArgument(c: char)
    | Operand(word: string)
    | Long(index: nat, longArg: Option<string>)
    | UnknownLong(name: string)
    | AmbiguousLong(name: string)
    | LongTakesNoArgument(index: nat)
    | LongLacksArgument(index: nat)

  /** The reports in order, the option words (with the words they consume and a
      final "--"), the operands, and whether a marker ended the options. */
  datatype Parse = Parse(reports: seq<Report>, opts: seq<string>, operands: seq<string>, dashed: bool)

  /* Short options. */

  /** strchr: where a character first occurs. */
  function Find(s: string, c: char): (i: Option<nat>)
    ensures i.Some? ==> i.value < |s| && s[i.value] == c && c !in s[..i.value]
    ensures i.None? ==> c !in s
  {
    if s == "" then None
    else if s[0] == c then Some(0)
    else
      var r := Find(s[1..], c);
      if r.Some? then assert s[..r.value + 1] == [s[0]] + s[1..][..r.value]; Some(r.value + 1) else None
  }

  /** A letter that is unknown, takes nothing, needs or may take an argument, or
      has a long option for its argument. */
  datatype Kind = Unknown | Plain | Needs | May | ViaLong

  predicate CharAt(s: string, i: nat, c: char) {
    i < |s| && s[i] == c
  }

  function KindOf(cfg: Config, c: char): Kind {
    var letters := Letters(cfg);
    var i := Find(letters, c);
    if c == ':' || i.None? then Unknown
    else if c == 'W' && CharAt(letters, i.value + 1, ';') then ViaLong
    else if !CharAt(letters, i.value + 1, ':') then Plain
    else if CharAt(letters, i.value + 2, ':') then May else Needs
  }

  /* Long options. */

  datatype Match = NoMatch | Ambiguous | Found(index: nat)

  /** The table scan: the first exact name wins unless two longer names that
      start with the key come before it. */
  function MatchFrom(longs: seq<LongOption>, key: string, i: nat, sofar: Match): (m: Match)
    requires i <= |longs| && !sofar.Ambiguous? && (sofar.Found? ==> sofar.index < i)
    ensures m.Found? ==> m.index < |longs|
    decreases |longs| - i
  {
    if i == |longs| then sofar
    else if !StartsWith(longs[i].name, key) then MatchFrom(longs, key, i + 1, sofar)
    else if |longs[i].name| == |key| then Found(i)
    else if sofar == NoMatch then MatchFrom(longs, key, i + 1, Found(i))
    else Ambiguous
  }

  function MatchLong(longs: seq<LongOption>, key: string): (m: Match)
    ensures m.Found? ==> m.index < |longs|
  {
    MatchFrom(longs, key, 0, NoMatch)
  }

  function KeyOf(text: string): string {
    var eq := Find(text, '=');
    if eq.Some? then text[..eq.value] else text
  }

  function ValueOf(text: string): Option<string> {
    var eq := Find(text, '=');
    if eq.Some? then Some(text[eq.value + 1..]) else None
  }

  /** What "--text" reports when `rest` follows, and whether it takes a word. */
  function ReadLong(cfg: Config, text: string, rest: seq<string>): (r: (Report, bool))
    ensures r.1 ==> rest != []
  {
    var value := ValueOf(text);
    match MatchLong(cfg.longs, KeyOf(text))
    case NoMatch => (UnknownLong(text), false)
    case Ambiguous => (AmbiguousLong(text), false)
    case Found(i) =>
      match cfg.longs[i].hasArg
      case NoArgument => (if value.Some? then LongTakesNoArgument(i) else Long(i, None), false)
      case OptionalArgument => (Long(i, value), false)
      case RequiredArgument =>
        if value.Some? then (Long(i, value), false)
        else if rest != [] then (Long(i, Some(rest[0])), true)
        else (LongLacksArgument(i), false)
  }

  /** How many of the first n names are longer than the key and start with it. */
  function Abbreviated(longs: seq<LongOption>, key: string, n: nat): nat
    requires n <= |longs|
  {
    if n == 0 then 0
    else
      var here := if StartsWith(longs[n - 1].name, key) && longs[n - 1].name != key then 1 else 0;
      Abbreviated(longs, key, n - 1) + here
  }

  /** The end of the scan: the first exact name, or the whole table. */
  function FirstExact(longs: seq<LongOption>, key: string, i: nat): (n: nat)
    requires i <= |longs|
    ensures i <= n <= |longs| && (n < |longs| ==> longs[n].name == key)
    ensures forall j | i <= j < n :: longs[j].name != key
    decreases |longs| - i
  {
    if i == |longs| || longs[i].name == key then i else FirstExact(longs, key, i + 1)
  }

  /** What the scan finds: an exact name, if at most one longer name that starts
      with the key precedes it; without an exact name, the only abbreviated one;
      and it is ambiguous exactly when two are seen first. */
  lemma MatchMeans(longs: seq<LongOption>, key: string)
    ensures var n, m := FirstExact(longs, key, 0), MatchLong(longs, key);
            && (m.Ambiguous? <==> Abbreviated(longs, key, n) >= 2)
            && (m == NoMatch <==> n == |longs| && Abbreviated(longs, key, n) == 0)
            && (m.Found? ==> if n < |longs| then m.index == n else StartsWith(longs[m.index].name, key))
  {
    MatchFromMeans(longs, key, 0, NoMatch);
  }

  /** `m` is what a scan ought to find that stops at place `n`. */
  predicate Means(longs: seq<LongOption>, key: string, n: nat, m: Match)
    requires n <= |longs|
  {
    && (m.Ambiguous? <==> Abbreviated(longs, key, n) >= 2)
    && (m == NoMatch <==> n == |longs| && Abbreviated(longs, key, n) == 0)
    && (m.Found? ==> m.index < |longs| && if n < |longs| then m.index == n else StartsWith(longs[m.index].name, key))
  }

  lemma {:induction false} MatchFromMeans(longs: seq<LongOption>, key: string, i: nat, sofar: Match)
    requires i <= |longs| && (forall j | 0 <= j < i :: longs[j].name != key)
    requires !sofar.Ambiguous? && Abbreviated(longs, key, i) == (if sofar.Found? then 1 else 0)
    requires sofar.Found? ==> sofar.index < i && StartsWith(longs[sofar.index].name, key)
    ensures FirstExact(longs, key, 0) == FirstExact(longs, key, i)
    ensures Means(longs, key, FirstExact(longs, key, i), MatchFrom(longs, key, i, sofar))
    decreases |longs| - i
  {
    SkipToExact(longs, key, i);
    if i < |longs| && longs[i].name != key {
      if !StartsWith(longs[i].name, key) {
        MatchFromMeans(longs, key, i + 1, sofar);
      } else if sofar == NoMatch {
        MatchFromMeans(longs, key, i + 1, Found(i));
      } else {
        AbbreviatedGrows(longs, key, i + 1, FirstExact(longs, key, i));
      }
    }
  }

  lemma {:induction false} SkipToExact(longs: seq<LongOption>, key: string, i: nat)
    requires i <= |longs| && forall j | 0 <= j < i :: longs[j].name != key
    ensures FirstExact(longs, key, 0) == FirstExact(longs, key, i)
  {
    var n, m := FirstExact(longs, key, 0), FirstExact(longs, key, i);
    assert n <= m && m <= n;
  }

  lemma {:induction false} AbbreviatedGrows(longs: seq<LongOption>, key: string, n: nat, m: nat)
    requires n <= m <= |longs|
    ensures Abbreviated(longs, key, n) <= Abbreviated(longs, key, m)
    decreases m
  {
    if n < m {
      AbbreviatedGrows(longs, key, n, m - 1);
    }
  }

  /* Whole vectors. */

  predicate IsOperand(w: string) {
    |w| < 2 || w[0] != '-'
  }

  function Report1(r: Report, p: Parse): Parse {
    p.(reports := [r] + p.reports)
  }

  function WithOpts(ws: seq<string>, p: Parse): Parse {
    p.(opts := ws + p.opts)
  }

  /** A parse that goes on after the options `os` and operands `ps`. */
  function After(os: seq<string>, ps: seq<string>, p: Parse): Parse {
    p.(opts := os + p.opts, operands := ps + p.operands)
  }

  /** Reading the words `ws` from the start of a word. */
  function Scan(cfg: Config, ws: seq<string>): Parse
    decreases |ws|, 0
  {
    if ws == [] then Parse([], [], [], false)
    else
      var w, rest := ws[0], ws[1..];
      if IsOperand(w) then
        match OrderingOf(cfg)
        case Permute => var p := Scan(cfg, rest); p.(operands := [w] + p.operands)
        case ReturnInOrder => Report1(Operand(w), WithOpts([w], Scan(cfg, rest)))
        case StopAtFirst => Parse([], [], ws, false)
      else if w == "--" then Parse([], [w], rest, true)
      else if w[1] == '-' then ScanLong(cfg, w[2..], [w], rest)
      else ScanLetters(cfg, w[1..], w, rest)
  }

  /** Reading the long option `text`, given by the words `os`, and what follows. */
  function ScanLong(cfg: Config, text: string, os: seq<string>, rest: seq<string>): Parse
    decreases |rest|, 1
  {
    var (r, takes) := ReadLong(cfg, text, rest);
    Report1(r, if takes then WithOpts(os + [rest[0]], Scan(cfg, rest[1..])) else WithOpts(os, Scan(cfg, rest)))
  }

  /** Reading on inside the word `w`, of which `letters` are left. */
  function ScanLetters(cfg: Config, letters: string, w: string, rest: seq<string>): Parse
    decreases |rest| + 1, 0, |letters|
  {
    if letters == "" then WithOpts([w], Scan(cfg, rest))
    else
      var c, more := letters[0], letters[1..];
      match KindOf(cfg, c)
      case Unknown => Report1(UnknownLetter(c), ScanLetters(cfg, more, w, rest))
      case Plain => Report1(Letter(c, None), ScanLetters(cfg, more, w, rest))
      case May => Report1(Letter(c, if more != "" then Some(more) else None), WithOpts([w], Scan(cfg, rest)))
      case Needs =>
        if more != "" then Report1(Letter(c, Some(more)), WithOpts([w], Scan(cfg, rest)))
        else if rest == [] then Report1(LetterLacksArgument(c), WithOpts([w], Scan(cfg, rest)))
        else Report1(Letter(c, Some(rest[0])), WithOpts([w, rest[0]], Scan(cfg, rest[1..])))
      case ViaLong =>
        if more != "" then ScanLong(cfg, more, [w], rest)
        else if rest == [] then Report1(LetterLacksArgument(c), WithOpts([w], Scan(cfg, rest)))
        else if rest[0] == "" then Parse([], [w, ""], rest[1..], true)
        else ScanLong(cfg, rest[0], [w, rest[0]], rest[1..])
  }
}
