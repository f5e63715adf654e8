/** The option parser as a machine over a vector that it may permute in place:
    options then move to the front while they are being read. */
module Getopt {
  import opened GetoptSpec
  import opened Options
  import opened Permute
  import opened Sequences
  import opened Strings

  /** What one call of the parser hands back. */
  datatype Result = Reported(report: Report) | Done

  class Parser {
    const cfg: Config
    const argv: array<string>
    var place: string
    var nonoptStart: int
    var nonoptEnd: int
    var optind: int
    ghost const words: seq<string>
    ghost var opts: seq<string>
    ghost var operands: seq<string>

    /** The static variables as they are before the first call. */
    constructor (cfg: Config, argv: array<string>)
      requires argv.Length > 0
      ensures this.cfg == cfg && this.argv == argv && words == argv[..]
      ensures Layout() && Total() == Scan(cfg, argv[1..])
    {
      this.cfg, this.argv, words := cfg, argv, argv[..];
      place, nonoptStart, nonoptEnd, optind := "", -1, -1, 1;
      opts, operands := [], [];
      new;
      assert words[1..] == argv[1..];
      WithNothing(Scan(cfg, words[1..]));
    }

    /** The vector so far: option words first, then the operands skipped since,
        then the option words read after those; the rest is untouched. */
    ghost predicate Blocks()
      reads this, argv
    {
      && |words| == argv.Length && 1 <= optind <= argv.Length
      && argv[0] == words[0] && argv[optind..] == words[optind..]
      && (nonoptStart != -1 ==> OrderingOf(cfg) == Permute)
      && if nonoptStart == -1 then
           nonoptEnd == -1 && operands == [] && argv[1..optind] == opts
         else if nonoptEnd == -1 then
           1 <= nonoptStart < optind && argv[1..nonoptStart] == opts && argv[nonoptStart..optind] == operands
         else
           && 1 <= nonoptStart < nonoptEnd <= optind
           && argv[1..nonoptStart] + argv[nonoptEnd..optind] == opts && argv[nonoptStart..nonoptEnd] == operands
    }

    ghost predicate Layout()
      reads this, argv
    {
      && Blocks()
      && (place == "" ==> nonoptEnd < optind)
      && (place != "" ==> optind < argv.Length && (nonoptStart != -1 ==> nonoptEnd != -1))
    }

    /** What the unread part will report and sort. */
    ghost function Left(): Parse
      requires optind <= |words| && (place != "" ==> optind < |words|) && 0 <= optind
      reads this
    {
      if place == "" then Scan(cfg, words[optind..])
      else ScanLetters(cfg, place, words[optind], words[optind + 1..])
    }

    /** The outcome of the whole vector, apart from what is already reported. */
    ghost function Total(): Parse
      requires Layout()
      reads this, argv
    {
      var p := Left();
      After(opts, operands, p)
    }

    static lemma WithNothing(p: Parse)
      ensures After([], [], p) == p
    {
      assert [] + p.opts == p.opts && [] + p.operands == p.operands;
    }

    /** The exchange the parser does when an option follows skipped operands. */
    method MoveOptionsForward()
      requires Blocks() && nonoptEnd != -1 && nonoptEnd < optind
      modifies this`nonoptStart, this`nonoptEnd, argv
      ensures Blocks() && nonoptEnd == -1 && nonoptStart == 1 + |opts|
      ensures nonoptStart == optind - (old(nonoptEnd) - old(nonoptStart))
    {
      ghost var was := argv[..];
      var count := nonoptEnd - nonoptStart;
      PermuteArgs(nonoptStart, nonoptEnd, optind, argv);
      ExchangeKeeps(was, nonoptStart, nonoptEnd, optind);
      nonoptStart := optind - count;
      nonoptEnd := -1;
    }

    static lemma ExchangeKeeps(a: seq<string>, s: int, m: int, e: int)
      requires 1 <= s < m < e <= |a|
      ensures var b, k := Exchanged(a, s, m, e), s + (e - m);
              && |b| == |a| && b[0] == a[0] && b[e..] == a[e..]
              && b[1..k] == a[1..s] + a[m..e] && b[k..e] == a[s..m]
    {
      var b, k := Exchanged(a, s, m, e), s + (e - m);
      assert b[..s] == a[..s] && b[s..k] == a[m..e];
      assert b[1..k] == b[1..s] + b[s..k] && b[1..s] == b[..s][1..] && a[1..s] == a[..s][1..];
    }

    /** ++optind past an option word or the argument it consumes. */
    method TakeWord()
      requires Blocks() && optind < argv.Length && (nonoptStart != -1 ==> nonoptEnd != -1)
      modifies this`optind, this`opts
      ensures Blocks() && optind == old(optind) + 1 && opts == old(opts) + [words[old(optind)]]
    {
      opts := opts + [argv[optind]];
      optind := optind + 1;
      assert argv[optind - 1] == argv[optind - 1..][0] == words[optind - 1..][0] == words[optind - 1];
      assert argv[optind..] == argv[optind - 1..][1..] && words[optind..] == words[optind - 1..][1..];
      if nonoptStart == -1 {
        assert argv[1..optind] == argv[1..optind - 1] + [argv[optind - 1]];
      } else {
        assert argv[nonoptEnd..optind] == argv[nonoptEnd..optind - 1] + [argv[optind - 1]];
      }
    }

    /** An operand is left where it is; option words read since the last
        operands go before them. */
    method SkipOne()
      requires Layout() && place == "" && optind < argv.Length && IsOperand(argv[optind]) && OrderingOf(cfg) == Permute
      modifies this`nonoptStart, this`nonoptEnd, this`optind, this`operands, argv
      ensures Layout() && place == "" && Total() == old(Total()) && optind == old(optind) + 1
    {
      ghost var w, rest := words[optind], words[optind + 1..];
      assert words[optind..] == [w] + rest;
      assert argv[optind] == argv[optind..][0] == words[optind..][0] == w;
      if nonoptStart == -1 {
        nonoptStart := optind;
      } else if nonoptEnd != -1 {
        MoveOptionsForward();
      }
      operands := operands + [argv[optind]];
      optind := optind + 1;
      assert argv[optind - 1] == argv[optind - 1..][0] == words[optind - 1..][0] == words[optind - 1];
      assert argv[optind..] == argv[optind - 1..][1..] && words[optind..] == words[optind - 1..][1..];
      assert argv[nonoptStart..optind] == argv[nonoptStart..optind - 1] + [argv[optind - 1]];
      Assoc(old(operands), [w], Scan(cfg, rest).operands);
    }

    /** The `start:` loop: on to the next option word, or the end. */
    method SkipOperands()
      requires Layout() && place == "" && OrderingOf(cfg) == Permute
      modifies this`nonoptStart, this`nonoptEnd, this`optind, this`operands, argv
      ensures Layout() && place == "" && Total() == old(Total())
      ensures optind < argv.Length ==> !IsOperand(argv[optind])
    {
      while optind < argv.Length && IsOperand(argv[optind])
        invariant Layout() && place == "" && Total() == old(Total())
        decreases argv.Length - optind
      {
        SkipOne();
      }
    }

    /** The vector is sorted: options, then operands, with optind between them. */
    ghost predicate Sorted(os: seq<string>, ps: seq<string>)
      reads this, argv
    {
      && argv.Length == |words| && argv.Length > 0
      && argv[..] == [words[0]] + os + ps && optind == 1 + |os|
      && place == "" && nonoptStart == nonoptEnd == -1
    }

    /** What is done when the parser stops: the last exchange, and optind back
        to the first operand. */
    method Stop(ghost tail: seq<string>)
      requires Blocks() && place == "" && nonoptEnd < optind && tail == words[optind..]
      requires nonoptStart != -1 && nonoptEnd == -1 ==> tail == []
      modifies this`nonoptStart, this`nonoptEnd, this`optind, argv
      ensures Sorted(opts, operands + tail)
    {
      if nonoptEnd != -1 {
        MoveOptionsForward();
        optind := nonoptStart;
      } else if nonoptStart != -1 {
        optind := nonoptStart;
      }
      StopLayout(argv[..], words, opts, operands, tail, optind);
      nonoptStart, nonoptEnd := -1, -1;
    }

    static lemma StopLayout(a: seq<string>, ws: seq<string>, os: seq<string>, ps: seq<string>, tail: seq<string>, k: int)
      requires |a| == |ws| && 1 <= k <= |a| && a[0] == ws[0] && a[1..k] == os
      requires k + |ps| + |tail| == |a| && a[k..k + |ps|] == ps && a[k + |ps|..] == tail
      ensures a == [ws[0]] + os + (ps + tail) && k == 1 + |os|
    {
      assert a == a[..1] + a[1..k] + a[k..];
      assert a[k..] == a[k..k + |ps|] + a[k + |ps|..];
    }

    /** A step that reports and takes some words accounts for both. */
    static lemma Accounts(report: Report, was: seq<string>, taken: seq<string>, ps: seq<string>, now: Parse, before: Parse)
      requires before == Report1(report, WithOpts(taken, now))
      ensures Report1(report, After(was + taken, ps, now))
           == After(was, ps, before)
    {
      assert was + taken + now.opts == was + (taken + now.opts);
    }

    /** A letter without an argument, and past the word if it was the last in it. */
    method ReadPlain(optchar: char, kind: Kind, ghost letters: string) returns (report: Report, ghost taken: seq<string>)
      requires Blocks() && optind < argv.Length && (nonoptStart != -1 ==> nonoptEnd != -1)
      requires letters != "" && letters[0] == optchar && letters[1..] == place
      requires kind == KindOf(cfg, optchar) && (kind == Unknown || kind == Plain)
      modifies this`optind, this`opts
      ensures Layout() && opts == old(opts) + taken
      ensures ScanLetters(cfg, letters, words[old(optind)], words[old(optind) + 1..]) == Report1(report, WithOpts(taken, Left()))
    {
      taken := [];
      report := if kind == Unknown then UnknownLetter(optchar) else Letter(optchar, None);
      if place == "" {
        taken := [words[optind]];
        TakeWord();
      } else {
        assert [] + Left().opts == Left().opts && opts + [] == opts;
      }
    }

    /** One letter of a word of short options, with its argument. */
    method ReadLetter() returns (report: Report)
      requires Layout() && place != "" && KindOf(cfg, place[0]) != ViaLong
      modifies this`place, this`optind, this`opts
      ensures Layout() && Report1(report, Total()) == old(Total())
    {
      ghost var taken, before := [], Left();
      assert before == ScanLetters(cfg, place, words[optind], words[optind + 1..]);
      var optchar := place[0];
      place := place[1..];
      var kind := KindOf(cfg, optchar);
      if kind == Unknown || kind == Plain {
        report, taken := ReadPlain(optchar, kind, old(place));
      } else {
        report, taken := ReadArgument(optchar, kind, old(place));
      }
      Accounts(report, old(opts), taken, operands, Left(), before);
    }

    /** A letter that takes an argument: the rest of the word, or the next word. */
    method ReadArgument(optchar: char, kind: Kind, ghost letters: string) returns (report: Report, ghost taken: seq<string>)
      requires Blocks() && optind < argv.Length && (nonoptStart != -1 ==> nonoptEnd != -1)
      requires letters != "" && letters[0] == optchar && letters[1..] == place
      requires kind == KindOf(cfg, optchar) && (kind == Needs || kind == May)
      modifies this`place, this`optind, this`opts
      ensures Layout() && place == "" && opts == old(opts) + taken
      ensures ScanLetters(cfg, letters, words[old(optind)], words[old(optind) + 1..]) == Report1(report, WithOpts(taken, Left()))
    {
      ghost var i := optind;
      var optarg := None;
      taken := [words[i]];
      if place != "" {
        optarg := Some(place);
        report := Letter(optchar, optarg);
        TakeWord();
      } else if kind != May {
        report, taken := ReadNextWord(optchar);
      } else {
        report := Letter(optchar, optarg);
        TakeWord();
      }
      place := "";
    }

    /** The argument of `optchar` is the next word, if there is one. */
    method ReadNextWord(optchar: char) returns (report: Report, ghost taken: seq<string>)
      requires Blocks() && optind < argv.Length && (nonoptStart != -1 ==> nonoptEnd != -1)
      modifies this`optind, this`opts
      ensures Blocks() && nonoptEnd < optind && opts == old(opts) + taken
      ensures var w, rest := words[old(optind)], words[old(optind) + 1..];
              if rest == [] then
                report == LetterLacksArgument(optchar) && taken == [w] && words[optind..] == []
              else
                report == Letter(optchar, Some(rest[0])) && taken == [w, rest[0]] && words[optind..] == rest[1..]
    {
      taken := [words[optind]];
      TakeWord();
      if optind >= argv.Length {
        report := LetterLacksArgument(optchar);
      } else {
        assert argv[optind] == argv[optind..][0] == words[optind..][0];
        report := Letter(optchar, Some(argv[optind]));
        taken := taken + [words[optind]];
        TakeWord();
      }
    }

    /** The scan of the long-option table. */
    method FindLong(key: string) returns (m: Match)
      ensures m == MatchLong(cfg.longs, key)
    {
      m := NoMatch;
      var i := 0;
      while i < |cfg.longs|
        invariant 0 <= i <= |cfg.longs| && !m.Ambiguous? && (m.Found? ==> m.index < i)
        invariant MatchFrom(cfg.longs, key, i, m) == MatchLong(cfg.longs, key)
      {
        if StartsWith(cfg.longs[i].name, key) {
          if |cfg.longs[i].name| == |key| {
            return Found(i);
          }
          if m != NoMatch {
            return Ambiguous;
          }
          m := Found(i);
        }
        i := i + 1;
      }
    }

    /** A long option found in the table: its argument may be the next word. */
    method ReadLongArgument(i: nat, value: Option<string>) returns (report: Report, ghost taken: seq<string>)
      requires Blocks() && (nonoptStart != -1 ==> nonoptEnd != -1) && nonoptEnd < optind && i < |cfg.longs|
      modifies this`optind, this`opts
      ensures Blocks() && nonoptEnd < optind && opts == old(opts) + taken
      ensures var rest := words[old(optind)..];
              if cfg.longs[i].hasArg == RequiredArgument && value.None? && rest != [] then
                report == Long(i, Some(rest[0])) && taken == [rest[0]] && words[optind..] == rest[1..]
              else
                && taken == [] && optind == old(optind)
                && report == if cfg.longs[i].hasArg == RequiredArgument && value.None? then LongLacksArgument(i)
                             else if cfg.longs[i].hasArg == NoArgument && value.Some? then LongTakesNoArgument(i)
                             else Long(i, value)
    {
      taken := [];
      if cfg.longs[i].hasArg == NoArgument && value.Some? {
        report := LongTakesNoArgument(i);
      } else if cfg.longs[i].hasArg == RequiredArgument && value.None? {
        if optind < argv.Length {
          assert argv[optind] == argv[optind..][0] == words[optind..][0];
          report := Long(i, Some(argv[optind]));
          taken := [words[optind]];
          TakeWord();
        } else {
          report := LongLacksArgument(i);
        }
      } else {
        report := Long(i, value);
      }
    }

    /** A word "--text", after it has been stepped over. */
    method ReadLongOption(text: string) returns (report: Report, ghost taken: seq<string>)
      requires Blocks() && (nonoptStart != -1 ==> nonoptEnd != -1) && nonoptEnd < optind
      modifies this`optind, this`opts
      ensures Blocks() && nonoptEnd < optind && opts == old(opts) + taken
      ensures var rest := words[old(optind)..];
              var (r, takes) := ReadLong(cfg, text, rest);
              report == r && if takes then taken == [rest[0]] && words[optind..] == rest[1..] else taken == [] && optind == old(optind)
    {
      var m := FindLong(KeyOf(text));
      match m
      case NoMatch => report, taken := UnknownLong(text), [];
      case Ambiguous => report, taken := AmbiguousLong(text), [];
      case Found(i) => report, taken := ReadLongArgument(i, ValueOf(text));
    }

    /** A long option's word and argument, accounted for. */
    static lemma LongAccounts(cfg: Config, w: string, text: string, rest: seq<string>, report: Report,
                              taken: seq<string>, after: seq<string>, was: seq<string>, ps: seq<string>)
      requires report == ReadLong(cfg, text, rest).0
      requires if ReadLong(cfg, text, rest).1 then taken == [rest[0]] && after == rest[1..] else taken == [] && after == rest
      ensures var before, now := ScanLong(cfg, text, [w], rest), Scan(cfg, after);
              Report1(report, After((was + [w]) + taken, ps, now)) == After(was, ps, before)
    {
      assert [w] + taken == if taken == [] then [w] else [w] + [rest[0]];
      Accounts(report, was, [w] + taken, ps, Scan(cfg, after), ScanLong(cfg, text, [w], rest));
      assert (was + [w]) + taken == was + ([w] + taken);
    }

    /** A word taken before a long option's own words. */
    static lemma LongAfter(cfg: Config, text: string, w: string, x: string, rest: seq<string>, was: seq<string>, ps: seq<string>)
      ensures After(was + [w], ps, ScanLong(cfg, text, [x], rest)) == After(was, ps, ScanLong(cfg, text, [w, x], rest))
    {
      var p, q := ScanLong(cfg, text, [x], rest), ScanLong(cfg, text, [w, x], rest);
      assert q.opts == [w] + p.opts;
      assert (was + [w]) + p.opts == was + ([w] + p.opts);
    }

    /** The word that ends the options: everything after it is an operand. */
    method StopAtMarker()
      requires Blocks() && place == "" && optind < argv.Length && (nonoptStart != -1 ==> nonoptEnd != -1)
      modifies this`optind, this`opts, this`nonoptStart, this`nonoptEnd, argv
      ensures Sorted(old(opts) + [words[old(optind)]], operands + words[old(optind) + 1..])
    {
      TakeWord();
      Stop(words[optind..]);
    }

    /** A whole long option: its word, and the word it takes if it takes one. */
    method ReadLongWord(text: string) returns (report: Report)
      requires Blocks() && place == "" && optind < argv.Length && (nonoptStart != -1 ==> nonoptEnd != -1)
      modifies this`optind, this`opts
      ensures Layout() && place == ""
      ensures var p := ScanLong(cfg, text, [words[old(optind)]], words[old(optind) + 1..]);
              Report1(report, Total()) == After(old(opts), operands, p)
    {
      ghost var w, rest := words[optind], words[optind + 1..];
      TakeWord();
      ghost var taken;
      report, taken := ReadLongOption(text);
      LongAccounts(cfg, w, text, rest, report, taken, words[optind..], old(opts), operands);
    }

    /** The outer parser on a word that starts with "--". */
    method ReadDoubleDash(text: string) returns (result: Result)
      requires Blocks() && place == "" && optind < argv.Length && (nonoptStart != -1 ==> nonoptEnd != -1)
      requires words[optind] == "--" + text
      modifies this`optind, this`opts, this`nonoptStart, this`nonoptEnd, argv
      ensures Answers(result, After(old(opts), operands, Scan(cfg, words[old(optind)..])))
    {
      assert words[optind..] == [words[optind]] + words[optind + 1..];
      assert words[optind][2..] == text && words[optind..][1..] == words[optind + 1..];
      if text == "" {
        StopAtMarker();
        result := Done;
      } else {
        var report := ReadLongWord(text);
        result := Reported(report);
      }
    }

    /** The letter W with a long option for its argument: the rest of the word, or
        the next word, which ends the options if it is empty. */
    method ReadViaLong() returns (result: Result)
      requires Layout() && place != "" && KindOf(cfg, place[0]) == ViaLong
      modifies this`place, this`optind, this`opts, this`nonoptStart, this`nonoptEnd, argv
      ensures Answers(result, old(Total()))
    {
      var optchar, text := place[0], place[1..];
      assert text == "" ==> place == [optchar];
      assert text != "" ==> Left() == ScanLong(cfg, text, [words[optind]], words[optind + 1..]);
      place := "";
      if text != "" {
        var report := ReadLongWord(text);
        result := Reported(report);
      } else {
        result := ReadNextLong(optchar);
      }
    }

    /** What the letter means when the next word is its long option. */
    static lemma ViaNextWord(cfg: Config, c: char, w: string, rest: seq<string>, was: seq<string>, ps: seq<string>)
      requires KindOf(cfg, c) == ViaLong
      ensures var p := After(was, ps, ScanLetters(cfg, [c], w, rest));
              if rest == [] then p == Report1(LetterLacksArgument(c), After(was + [w], ps, Scan(cfg, rest)))
              else if rest[0] == "" then p == After(was + [w], ps, Parse([], [""], rest[1..], true))
              else p == After(was + [w], ps, ScanLong(cfg, rest[0], [rest[0]], rest[1..]))
    {
      assert [c][1..] == "";
      if rest == [] {
        Accounts(LetterLacksArgument(c), was, [w], ps, Scan(cfg, rest), ScanLetters(cfg, [c], w, rest));
      } else if rest[0] == "" {
        assert (was + [w]) + [""] == was + [w, ""];
      } else {
        LongAfter(cfg, rest[0], w, rest[0], rest[1..], was, ps);
      }
    }

    /** The next word is a long option, unless it is empty. */
    method ReadWordAsLong() returns (result: Result)
      requires Blocks() && place == "" && optind < argv.Length && (nonoptStart != -1 ==> nonoptEnd != -1)
      modifies this`optind, this`opts, this`nonoptStart, this`nonoptEnd, argv
      ensures var x, rest := words[old(optind)], words[old(optind) + 1..];
              Answers(result, After(old(opts), operands, if x == "" then Parse([], [""], rest, true) else ScanLong(cfg, x, [x], rest)))
    {
      assert argv[optind] == argv[optind..][0] == words[optind..][0] == words[optind];
      if argv[optind] == "" {
        StopAtMarker();
        result := Done;
      } else {
        var report := ReadLongWord(argv[optind]);
        result := Reported(report);
      }
    }

    method ReadNextLong(optchar: char) returns (result: Result)
      requires Blocks() && place == "" && optind < argv.Length && (nonoptStart != -1 ==> nonoptEnd != -1)
      requires KindOf(cfg, optchar) == ViaLong
      modifies this`optind, this`opts, this`nonoptStart, this`nonoptEnd, argv
      ensures Answers(result, After(old(opts), operands, ScanLetters(cfg, [optchar], words[old(optind)], words[old(optind) + 1..])))
    {
      ghost var rest := words[optind + 1..];
      ViaNextWord(cfg, optchar, words[optind], rest, opts, operands);
      TakeWord();
      if optind >= argv.Length {
        result := Reported(LetterLacksArgument(optchar));
      } else {
        assert rest[0] == words[optind] && rest[1..] == words[optind + 1..];
        result := ReadWordAsLong();
      }
    }

    /** Starting on an option word: its letters, or the text after "--". */
    method OpenWord() returns (text: Option<string>)
      requires Layout() && place == "" && optind < argv.Length && !IsOperand(argv[optind])
      modifies this`place, this`nonoptEnd
      ensures Blocks() && (nonoptStart != -1 ==> nonoptEnd != -1)
      ensures text.Some? ==> words[optind] == "--" + text.value && place == ""
      ensures text.None? ==> place != "" && ScanLetters(cfg, place, words[optind], words[optind + 1..]) == Scan(cfg, words[optind..])
    {
      ghost var w := words[optind];
      assert argv[optind] == argv[optind..][0] == words[optind..][0] == w;
      assert words[optind..][1..] == words[optind + 1..];
      if nonoptStart != -1 && nonoptEnd == -1 {
        nonoptEnd := optind;
        assert argv[nonoptEnd..optind] == [];
      }
      place := argv[optind][1..];
      text := None;
      if place[0] == '-' {
        text := Some(place[1..]);
        place := "";
        assert w == "--" + text.value;
      }
    }

    /** One call's outcome, if `before` was still to come. */
    ghost predicate Answers(result: Result, before: Parse)
      reads this, argv
    {
      match result
      case Done => before.reports == [] && Sorted(before.opts, before.operands)
      case Reported(r) => Layout() && Report1(r, Total()) == before
    }

    /** An operand where operands are not moved: it is reported, or ends the run. */
    method MeetOperand() returns (result: Result)
      requires Layout() && place == "" && optind < argv.Length && IsOperand(argv[optind]) && OrderingOf(cfg) != Permute
      modifies this`optind, this`opts
      ensures Answers(result, old(Total()))
    {
      ghost var w, rest, before := words[optind], words[optind + 1..], Left();
      assert words[optind..] == [w] + rest;
      assert argv[optind] == argv[optind..][0] == words[optind..][0] == w;
      if OrderingOf(cfg) == ReturnInOrder {
        result := Reported(Operand(argv[optind]));
        TakeWord();
        Accounts(Operand(w), old(opts), [w], operands, Scan(cfg, rest), before);
      } else {
        StopLayout(argv[..], words, opts, operands, words[optind..], optind);
        assert opts + [] == opts;
        result := Done;
      }
    }

    /** The end of the vector. */
    method ReachEnd() returns (result: Result)
      requires Layout() && place == "" && optind >= argv.Length
      modifies this`nonoptStart, this`nonoptEnd, this`optind, argv
      ensures Answers(result, old(Total()))
    {
      assert words[optind..] == [];
      Stop([]);
      assert operands + [] == operands && opts + [] == opts;
      result := Done;
    }

    /** bsd_getopt: reports the next option, or sorts the vector and stops. */
    method Next() returns (result: Result)
      requires Layout()
      modifies this`place, this`optind, this`opts, this`operands, this`nonoptStart, this`nonoptEnd, argv
      ensures Answers(result, old(Total()))
    {
      if place == "" {
        if OrderingOf(cfg) == Permute {
          SkipOperands();
        }
        if optind >= argv.Length {
          result := ReachEnd();
          return;
        }
        if IsOperand(argv[optind]) {
          result := MeetOperand();
          return;
        }
        var text := OpenWord();
        if text.Some? {
          result := ReadDoubleDash(text.value);
          return;
        }
      }
      if KindOf(cfg, place[0]) == ViaLong {
        result := ReadViaLong();
      } else {
        var report := ReadLetter();
        result := Reported(report);
      }
    }

    /** The caller's loop: all the reports, up to the stop. */
    method ReadAll() returns (reports: seq<Report>)
      requires Layout()
      modifies this`place, this`optind, this`opts, this`operands, this`nonoptStart, this`nonoptEnd, argv
      ensures reports == old(Total()).reports && Sorted(old(Total()).opts, old(Total()).operands)
    {
      ghost var whole := Total();
      reports := [];
      while true
        invariant Layout() && Total() == whole.(reports := Total().reports) && whole.reports == reports + Total().reports
        decreases |Total().reports|
      {
        ghost var before := Total();
        var result := Next();
        if result == Done {
          assert reports + [] == reports;
          return;
        }
        assert reports + before.reports == reports + [result.report] + Total().reports;
        reports := reports + [result.report];
      }
    }
  }

  /** A whole parse, in any of the three orderings: what is reported is what the
      original vector says, however the vector is rearranged meanwhile; and it ends
      with the program's name, the options and then the operands, each in their
      original order, with optind at the first operand. */
  method ParseArguments(cfg: Config, argv: array<string>) returns (reports: seq<Report>, optind: int)
    requires argv.Length > 0
    modifies argv
    ensures var p := Scan(cfg, old(argv[1..]));
            && reports == p.reports
            && argv[..] == [old(argv[0])] + p.opts + p.operands
            && optind == 1 + |p.opts|
  {
    var parser := new Parser(cfg, argv);
    reports := parser.ReadAll();
    optind := parser.optind;
  }
}
