/** What sorting an argument vector means to its readers: it is a stable
    partition, and parsing the sorted vector again changes nothing - unless an
    option was missing its argument. */
module GetoptLaws {
  import opened GetoptSpec
  import opened Options

  /* A stable partition. */

  /** `ws` is `a` and `b` merged, both in their order. */
  predicate Merges(ws: seq<string>, a: seq<string>, b: seq<string>)
    decreases |ws|
  {
    if ws == [] then a == [] && b == []
    else
      || (a != [] && a[0] == ws[0] && Merges(ws[1..], a[1..], b))
      || (b != [] && b[0] == ws[0] && Merges(ws[1..], a, b[1..]))
  }

  lemma MergesLeft(w: string, ws: seq<string>, a: seq<string>, b: seq<string>)
    requires Merges(ws, a, b)
    ensures Merges([w] + ws, [w] + a, b)
  {
    assert ([w] + ws)[1..] == ws && ([w] + a)[1..] == a;
  }

  lemma MergesRight(w: string, ws: seq<string>, a: seq<string>, b: seq<string>)
    requires Merges(ws, a, b)
    ensures Merges([w] + ws, a, [w] + b)
  {
    assert ([w] + ws)[1..] == ws && ([w] + b)[1..] == b;
  }

  lemma {:induction false} AllRight(ws: seq<string>)
    ensures Merges(ws, [], ws)
    decreases |ws|
  {
    if ws != [] {
      AllRight(ws[1..]);
      MergesRight(ws[0], ws[1..], [], ws[1..]);
      assert [ws[0]] + ws[1..] == ws;
    }
  }

  lemma MergesTwo(w: string, x: string, rest: seq<string>, a: seq<string>, b: seq<string>)
    requires Merges(rest, a, b)
    ensures Merges([w] + ([x] + rest), [w, x] + a, b)
  {
    MergesLeft(x, rest, a, b);
    MergesLeft(w, [x] + rest, [x] + a, b);
    assert [w] + ([x] + a) == [w, x] + a;
  }

  /** The options and the operands of a vector are its words, all of them and
      no others, each list in the order of the vector. */
  lemma {:induction false} ScanIsStablePartition(cfg: Config, ws: seq<string>)
    ensures Merges(ws, Scan(cfg, ws).opts, Scan(cfg, ws).operands)
    decreases |ws|, 0
  {
    if ws != [] {
      var w, rest := ws[0], ws[1..];
      assert ws == [w] + rest;
      if IsOperand(w) {
        OperandMerges(cfg, w, rest);
      } else if w == "--" {
        AllRight(rest);
        MergesLeft(w, rest, [], rest);
        assert [w] + [] == [w];
      } else if w[1] == '-' {
        LongMerges(cfg, w[2..], w, rest);
      } else {
        LettersMerge(cfg, w[1..], w, rest);
      }
    }
  }

  lemma {:induction false} OperandMerges(cfg: Config, w: string, rest: seq<string>)
    requires IsOperand(w)
    ensures var p := Scan(cfg, [w] + rest); Merges([w] + rest, p.opts, p.operands)
    decreases |rest|, 2
  {
    assert ([w] + rest)[1..] == rest;
    match OrderingOf(cfg)
    case Permute =>
      ScanIsStablePartition(cfg, rest);
      MergesRight(w, rest, Scan(cfg, rest).opts, Scan(cfg, rest).operands);
    case ReturnInOrder => TakeMerges(cfg, w, rest, false);
    case StopAtFirst => AllRight([w] + rest);
  }

  lemma {:induction false} LongMerges(cfg: Config, text: string, w: string, rest: seq<string>)
    ensures var p := ScanLong(cfg, text, [w], rest); Merges([w] + rest, p.opts, p.operands)
    decreases |rest|, 2
  {
    var takes := ReadLong(cfg, text, rest).1;
    TakeMerges(cfg, w, rest, takes);
    if takes {
      assert [w, rest[0]] == [w] + [rest[0]];
    }
  }

  /** A letter W whose long option is the next word. */
  lemma {:induction false} NextLongMerges(cfg: Config, w: string, x: string, rest: seq<string>)
    ensures var p := ScanLong(cfg, x, [w, x], rest); Merges([w] + ([x] + rest), p.opts, p.operands)
    decreases |rest|, 3
  {
    var p := ScanLong(cfg, x, [x], rest);
    LongMerges(cfg, x, x, rest);
    MergesLeft(w, [x] + rest, p.opts, p.operands);
    assert ScanLong(cfg, x, [w, x], rest).opts == [w] + p.opts;
  }

  lemma {:induction false} TakeMerges(cfg: Config, w: string, rest: seq<string>, takes: bool)
    requires takes ==> rest != []
    ensures var p := if takes then WithOpts([w, rest[0]], Scan(cfg, rest[1..])) else WithOpts([w], Scan(cfg, rest));
            Merges([w] + rest, p.opts, p.operands)
    decreases |rest|, 1
  {
    if takes {
      ScanIsStablePartition(cfg, rest[1..]);
      assert rest == [rest[0]] + rest[1..];
      MergesTwo(w, rest[0], rest[1..], Scan(cfg, rest[1..]).opts, Scan(cfg, rest[1..]).operands);
    } else {
      ScanIsStablePartition(cfg, rest);
      MergesLeft(w, rest, Scan(cfg, rest).opts, Scan(cfg, rest).operands);
    }
  }

  lemma {:induction false} LettersMerge(cfg: Config, letters: string, w: string, rest: seq<string>)
    ensures var p := ScanLetters(cfg, letters, w, rest); Merges([w] + rest, p.opts, p.operands)
    decreases |rest|, 4, |letters|
  {
    if letters == "" {
      TakeMerges(cfg, w, rest, false);
    } else {
      var kind := KindOf(cfg, letters[0]);
      if kind == Unknown || kind == Plain {
        LettersMerge(cfg, letters[1..], w, rest);
      } else if kind == ViaLong {
        ViaLongMerges(cfg, letters[1..], letters[0], w, rest);
      } else {
        TakeMerges(cfg, w, rest, kind == Needs && letters[1..] == "" && rest != []);
      }
    }
  }

  lemma {:induction false} ViaLongMerges(cfg: Config, more: string, c: char, w: string, rest: seq<string>)
    requires KindOf(cfg, c) == ViaLong
    ensures var p := ScanLetters(cfg, [c] + more, w, rest); Merges([w] + rest, p.opts, p.operands)
    decreases |rest|, 3
  {
    assert ([c] + more)[1..] == more;
    if more != "" {
      LongMerges(cfg, more, w, rest);
    } else if rest == [] {
      TakeMerges(cfg, w, rest, false);
    } else {
      assert rest == [rest[0]] + rest[1..];
      if rest[0] == "" {
        AllRight(rest[1..]);
        MergesTwo(w, "", rest[1..], [], rest[1..]);
        assert [w, ""] + [] == [w, ""];
      } else {
        NextLongMerges(cfg, w, rest[0], rest[1..]);
      }
    }
  }

  /** Where operands are not moved, nothing is: the vector is its options followed
      by its operands already. */
  lemma {:induction false} NothingMoves(cfg: Config, ws: seq<string>)
    requires OrderingOf(cfg) != Permute
    ensures ws == Scan(cfg, ws).opts + Scan(cfg, ws).operands
    decreases |ws|, 0
  {
    if ws != [] {
      var w, rest := ws[0], ws[1..];
      assert ws == [w] + rest;
      if IsOperand(w) {
        NothingMoves(cfg, rest);
      } else if w != "--" {
        if w[1] == '-' {
          LongMovesNothing(cfg, w[2..], [w], rest);
        } else {
          LettersMoveNothing(cfg, w[1..], w, rest);
        }
      }
    }
  }

  lemma {:induction false} LongMovesNothing(cfg: Config, text: string, os: seq<string>, rest: seq<string>)
    requires OrderingOf(cfg) != Permute
    ensures var p := ScanLong(cfg, text, os, rest); os + rest == p.opts + p.operands
    decreases |rest|, 2
  {
    if ReadLong(cfg, text, rest).1 {
      assert os + rest == (os + [rest[0]]) + rest[1..];
      TakeMovesNothing(cfg, os + [rest[0]], rest[1..]);
    } else {
      TakeMovesNothing(cfg, os, rest);
    }
  }

  lemma {:induction false} TakeMovesNothing(cfg: Config, os: seq<string>, rest: seq<string>)
    requires OrderingOf(cfg) != Permute
    ensures os + rest == (os + Scan(cfg, rest).opts) + Scan(cfg, rest).operands
    decreases |rest|, 1
  {
    NothingMoves(cfg, rest);
  }

  lemma {:induction false} LettersMoveNothing(cfg: Config, letters: string, w: string, rest: seq<string>)
    requires OrderingOf(cfg) != Permute
    ensures var p := ScanLetters(cfg, letters, w, rest); [w] + rest == p.opts + p.operands
    decreases |rest|, 3, |letters|
  {
    if letters == "" {
      TakeMovesNothing(cfg, [w], rest);
    } else {
      var kind, more := KindOf(cfg, letters[0]), letters[1..];
      if kind == Unknown || kind == Plain {
        LettersMoveNothing(cfg, more, w, rest);
      } else if kind == ViaLong && more != "" {
        LongMovesNothing(cfg, more, [w], rest);
      } else if kind == May || more != "" || rest == [] {
        TakeMovesNothing(cfg, [w], rest);
      } else {
        assert [w] + rest == [w, rest[0]] + rest[1..];
        if kind == Needs {
          TakeMovesNothing(cfg, [w, rest[0]], rest[1..]);
        } else if rest[0] != "" {
          LongMovesNothing(cfg, rest[0], [w, rest[0]], rest[1..]);
        }
      }
    }
  }

  /** A merge has the words of both lists, with multiplicity. */
  lemma {:induction false} MergesAll(ws: seq<string>, a: seq<string>, b: seq<string>)
    requires Merges(ws, a, b)
    ensures multiset(ws) == multiset(a) + multiset(b)
    decreases |ws|
  {
    if ws != [] {
      assert ws == [ws[0]] + ws[1..];
      if a != [] && a[0] == ws[0] && Merges(ws[1..], a[1..], b) {
        assert a == [a[0]] + a[1..];
        MergesAll(ws[1..], a[1..], b);
      } else {
        assert b == [b[0]] + b[1..];
        MergesAll(ws[1..], a, b[1..]);
      }
    }
  }

  /* Parsing the sorted vector again. */

  predicate LacksArgument(r: Report) {
    r.LetterLacksArgument? || r.LongLacksArgument?
  }

  /** Some option came last and was missing its argument. */
  predicate Lacks(p: Parse) {
    exists i :: 0 <= i < |p.reports| && LacksArgument(p.reports[i])
  }

  lemma LacksReport1(r: Report, p: Parse)
    ensures Lacks(Report1(r, p)) <==> LacksArgument(r) || Lacks(p)
  {
    var q := Report1(r, p);
    if Lacks(p) {
      var i :| 0 <= i < |p.reports| && LacksArgument(p.reports[i]);
      assert q.reports[i + 1] == p.reports[i];
    }
    if Lacks(q) {
      var i :| 0 <= i < |q.reports| && LacksArgument(q.reports[i]);
      assert i > 0 ==> p.reports[i - 1] == q.reports[i];
    }
    assert q.reports[0] == r;
  }

  predicate AllOperands(ws: seq<string>) {
    forall i | 0 <= i < |ws| :: IsOperand(ws[i])
  }

  /** Words in which no option is read and nothing is reported. */
  predicate Silent(cfg: Config, ws: seq<string>) {
    match OrderingOf(cfg)
    case Permute => AllOperands(ws)
    case ReturnInOrder => ws == []
    case StopAtFirst => ws != [] ==> IsOperand(ws[0])
  }

  lemma {:induction false} ScanSilent(cfg: Config, ws: seq<string>)
    requires Silent(cfg, ws)
    ensures Scan(cfg, ws) == Parse([], [], ws, false)
    decreases |ws|
  {
    if ws != [] && OrderingOf(cfg) == Permute {
      ScanSilent(cfg, ws[1..]);
      assert ws == [ws[0]] + ws[1..];
    }
  }

  /** `tail` may follow the options of `p`: operands, or anything after a marker. */
  predicate MayFollow(cfg: Config, p: Parse, tail: seq<string>) {
    (p.dashed || Silent(cfg, tail)) && (Lacks(p) ==> tail == [])
  }

  /** The options of a parse, read again in front of other operands. */
  lemma {:induction false} Rescan(cfg: Config, ws: seq<string>, tail: seq<string>)
    requires MayFollow(cfg, Scan(cfg, ws), tail)
    ensures Scan(cfg, Scan(cfg, ws).opts + tail) == Scan(cfg, ws).(operands := tail)
    decreases |ws|, 0
  {
    if ws == [] {
      assert [] + tail == tail;
      ScanSilent(cfg, tail);
    } else {
      var w, rest := ws[0], ws[1..];
      assert ws == [w] + rest;
      if IsOperand(w) {
        RescanOperand(cfg, w, rest, tail);
      } else if w == "--" {
        assert ([w] + tail)[1..] == tail;
      } else if w[1] == '-' {
        RescanLongWord(cfg, w, rest, tail);
      } else {
        RescanLetters(cfg, w[1..], w, rest, tail);
        OptsStart(cfg, w[1..], w, rest);
        var opts := ScanLetters(cfg, w[1..], w, rest).opts;
        assert (opts + tail)[0] == w && (opts + tail)[1..] == opts[1..] + tail;
      }
    }
  }

  lemma {:induction false} RescanOperand(cfg: Config, w: string, rest: seq<string>, tail: seq<string>)
    requires IsOperand(w) && MayFollow(cfg, Scan(cfg, [w] + rest), tail)
    ensures var p := Scan(cfg, [w] + rest); Scan(cfg, p.opts + tail) == p.(operands := tail)
    decreases |rest|, 2
  {
    assert ([w] + rest)[1..] == rest;
    match OrderingOf(cfg)
    case Permute => Rescan(cfg, rest, tail);
    case ReturnInOrder =>
      LacksReport1(Operand(w), WithOpts([w], Scan(cfg, rest)));
      Rescan(cfg, rest, tail);
      var again := Scan(cfg, rest).opts + tail;
      assert ([w] + Scan(cfg, rest).opts) + tail == [w] + again && ([w] + again)[1..] == again;
    case StopAtFirst =>
      assert [] + tail == tail;
      ScanSilent(cfg, tail);
  }

  /** The option words of a long option's parse behind its own: its argument, if
      that is the next word, and all further options. */
  function LongRest(cfg: Config, text: string, rest: seq<string>): (os: seq<string>)
    ensures forall own :: ScanLong(cfg, text, own, rest).opts == own + os
  {
    if ReadLong(cfg, text, rest).1 then
      var os := [rest[0]] + Scan(cfg, rest[1..]).opts;
      assert forall own: seq<string> :: (own + [rest[0]]) + Scan(cfg, rest[1..]).opts == own + os;
      os
    else Scan(cfg, rest).opts
  }

  /** What a long option is followed by matters only if it takes the next word. */
  lemma LongSame(cfg: Config, text: string, rest: seq<string>, again: seq<string>)
    requires var (r, takes) := ReadLong(cfg, text, rest);
             if takes then again != [] && again[0] == rest[0] else LacksArgument(r) ==> again == []
    ensures ReadLong(cfg, text, again) == ReadLong(cfg, text, rest)
  {
  }

  /** The same for the rest of the parse, after the words `os`. */
  lemma FollowsRest(cfg: Config, r: Report, os: seq<string>, q: Parse, tail: seq<string>)
    requires MayFollow(cfg, Report1(r, WithOpts(os, q)), tail)
    ensures MayFollow(cfg, q, tail) && (LacksArgument(r) ==> tail == [])
  {
    LacksReport1(r, WithOpts(os, q));
  }

  lemma {:induction false} RescanLong(cfg: Config, text: string, own: seq<string>, rest: seq<string>, tail: seq<string>)
    requires MayFollow(cfg, ScanLong(cfg, text, own, rest), tail)
    ensures ScanLong(cfg, text, own, LongRest(cfg, text, rest) + tail) == ScanLong(cfg, text, own, rest).(operands := tail)
    decreases |rest|, 1
  {
    var (r, takes) := ReadLong(cfg, text, rest);
    var again := LongRest(cfg, text, rest) + tail;
    if takes {
      var q := Scan(cfg, rest[1..]);
      FollowsRest(cfg, r, own + [rest[0]], q, tail);
      Rescan(cfg, rest[1..], tail);
      assert again == [rest[0]] + (q.opts + tail) && again[1..] == q.opts + tail;
    } else {
      FollowsRest(cfg, r, own, Scan(cfg, rest), tail);
      Rescan(cfg, rest, tail);
    }
    LongSame(cfg, text, rest, again);
  }

  lemma {:induction false} RescanLongWord(cfg: Config, w: string, rest: seq<string>, tail: seq<string>)
    requires |w| > 2 && w[0] == '-' && w[1] == '-' && MayFollow(cfg, Scan(cfg, [w] + rest), tail)
    ensures Scan(cfg, Scan(cfg, [w] + rest).opts + tail) == Scan(cfg, [w] + rest).(operands := tail)
    decreases |rest|, 2
  {
    assert ([w] + rest)[1..] == rest;
    RescanLong(cfg, w[2..], [w], rest, tail);
    var again := LongRest(cfg, w[2..], rest) + tail;
    assert Scan(cfg, [w] + rest).opts + tail == [w] + again && ([w] + again)[1..] == again;
  }

  lemma {:induction false} RescanOne(cfg: Config, w: string, rest: seq<string>, tail: seq<string>)
    requires MayFollow(cfg, Scan(cfg, rest), tail)
    ensures var q := Scan(cfg, rest);
            && Scan(cfg, q.opts + tail) == q.(operands := tail)
            && ([w] + q.opts)[1..] + tail == q.opts + tail
    decreases |rest|, 1
  {
    Rescan(cfg, rest, tail);
    assert ([w] + Scan(cfg, rest).opts)[1..] == Scan(cfg, rest).opts;
  }

  lemma Behind(w: string, x: string, os: seq<string>, tail: seq<string>)
    ensures ([w, x] + os)[1..] + tail == [x] + (os + tail) && ([x] + (os + tail))[1..] == os + tail
  {
  }

  lemma {:induction false} RescanTwo(cfg: Config, w: string, x: string, rest: seq<string>, tail: seq<string>)
    requires MayFollow(cfg, Scan(cfg, rest), tail)
    ensures var q := Scan(cfg, rest);
            && Scan(cfg, q.opts + tail) == q.(operands := tail)
            && ([w, x] + q.opts)[1..] + tail == [x] + (q.opts + tail)
            && ([x] + (q.opts + tail))[1..] == q.opts + tail
    decreases |rest|, 1
  {
    Rescan(cfg, rest, tail);
    Behind(w, x, Scan(cfg, rest).opts, tail);
  }

  lemma {:induction false} OptsStart(cfg: Config, letters: string, w: string, rest: seq<string>)
    ensures var p := ScanLetters(cfg, letters, w, rest); p.opts != [] && p.opts[0] == w
    decreases |letters|
  {
    if letters != "" {
      OptsStart(cfg, letters[1..], w, rest);
    }
  }

  /** Behind a letter W the next word is read as the long option it was. */
  lemma ViaNextSame(cfg: Config, c: char, w: string, rest: seq<string>, tail: seq<string>)
    requires KindOf(cfg, c) == ViaLong && rest != [] && rest[0] != ""
    ensures var p := ScanLetters(cfg, [c], w, rest);
            && p == ScanLong(cfg, rest[0], [w, rest[0]], rest[1..]) && p.opts != []
            && ScanLetters(cfg, [c], w, p.opts[1..] + tail)
               == ScanLong(cfg, rest[0], [w, rest[0]], LongRest(cfg, rest[0], rest[1..]) + tail)
  {
    assert [c][1..] == "";
    Behind(w, rest[0], LongRest(cfg, rest[0], rest[1..]), tail);
  }

  /** The letter W, whose argument is a long option. */
  lemma {:induction false} RescanViaLong(cfg: Config, more: string, c: char, w: string, rest: seq<string>, tail: seq<string>)
    requires KindOf(cfg, c) == ViaLong && MayFollow(cfg, ScanLetters(cfg, [c] + more, w, rest), tail)
    ensures var p := ScanLetters(cfg, [c] + more, w, rest);
            p.opts != [] && ScanLetters(cfg, [c] + more, w, p.opts[1..] + tail) == p.(operands := tail)
    decreases |rest|, 3
  {
    assert ([c] + more)[1..] == more;
    var p := ScanLetters(cfg, [c] + more, w, rest);
    if more != "" {
      RescanLong(cfg, more, [w], rest, tail);
      assert p.opts[1..] == LongRest(cfg, more, rest);
    } else if rest == [] {
      LacksReport1(LetterLacksArgument(c), WithOpts([w], Scan(cfg, rest)));
      RescanOne(cfg, w, rest, tail);
    } else if rest[0] == "" {
      assert [w, ""][1..] + tail == [""] + tail && ([""] + tail)[1..] == tail;
    } else {
      RescanLong(cfg, rest[0], [w, rest[0]], rest[1..], tail);
      ViaNextSame(cfg, c, w, rest, tail);
      assert [c] + more == [c];
    }
  }

  lemma {:induction false} RescanLetters(cfg: Config, letters: string, w: string, rest: seq<string>, tail: seq<string>)
    requires MayFollow(cfg, ScanLetters(cfg, letters, w, rest), tail)
    ensures var p := ScanLetters(cfg, letters, w, rest);
            p.opts != [] && ScanLetters(cfg, letters, w, p.opts[1..] + tail) == p.(operands := tail)
    decreases |rest|, 4, |letters|
  {
    if letters == "" {
      RescanOne(cfg, w, rest, tail);
    } else {
      var c, more := letters[0], letters[1..];
      var kind := KindOf(cfg, c);
      if kind == Unknown || kind == Plain {
        LacksReport1(if kind == Unknown then UnknownLetter(c) else Letter(c, None), ScanLetters(cfg, more, w, rest));
        RescanLetters(cfg, more, w, rest, tail);
      } else if kind == ViaLong {
        assert letters == [c] + more;
        RescanViaLong(cfg, more, c, w, rest, tail);
      } else if kind == Needs && more == "" && rest != [] {
        LacksReport1(Letter(c, Some(rest[0])), WithOpts([w, rest[0]], Scan(cfg, rest[1..])));
        RescanTwo(cfg, w, rest[0], rest[1..], tail);
      } else {
        var r := if kind == Needs && more == "" then LetterLacksArgument(c) else Letter(c, if more != "" then Some(more) else None);
        LacksReport1(r, WithOpts([w], Scan(cfg, rest)));
        RescanOne(cfg, w, rest, tail);
      }
    }
  }

  /** An operand after a missing argument becomes that argument. */
  lemma {:induction false} RescanTakesOperand(cfg: Config, ws: seq<string>, tail: seq<string>)
    requires Lacks(Scan(cfg, ws)) && tail != []
    ensures Scan(cfg, Scan(cfg, ws).opts + tail).reports != Scan(cfg, ws).reports
    decreases |ws|, 0
  {
    var w, rest := ws[0], ws[1..];
    assert ws == [w] + rest;
    if IsOperand(w) {
      OperandTakesOperand(cfg, w, rest, tail);
    } else if w != "--" {
      if w[1] == '-' {
        LongTakesOperand(cfg, w[2..], [w], rest, tail);
        var again := LongRest(cfg, w[2..], rest) + tail;
        assert Scan(cfg, ws).opts + tail == [w] + again && ([w] + again)[1..] == again;
      } else {
        LettersTakeOperand(cfg, w[1..], w, rest, tail);
        OptsStart(cfg, w[1..], w, rest);
        var opts := ScanLetters(cfg, w[1..], w, rest).opts;
        assert (opts + tail)[0] == w && (opts + tail)[1..] == opts[1..] + tail;
      }
    }
  }

  lemma {:induction false} OperandTakesOperand(cfg: Config, w: string, rest: seq<string>, tail: seq<string>)
    requires IsOperand(w) && Lacks(Scan(cfg, [w] + rest)) && tail != []
    ensures Scan(cfg, Scan(cfg, [w] + rest).opts + tail).reports != Scan(cfg, [w] + rest).reports
    decreases |rest|, 2
  {
    assert ([w] + rest)[1..] == rest;
    if OrderingOf(cfg) == ReturnInOrder {
      LacksReport1(Operand(w), WithOpts([w], Scan(cfg, rest)));
      RescanTakesOperand(cfg, rest, tail);
      var again := Scan(cfg, rest).opts + tail;
      assert Scan(cfg, [w] + rest).opts + tail == [w] + again && ([w] + again)[1..] == again;
      LaterDiffers(Operand(w), Scan(cfg, again), Scan(cfg, rest));
    } else {
      RescanTakesOperand(cfg, rest, tail);
    }
  }

  lemma {:induction false} LongTakesOperand(cfg: Config, text: string, own: seq<string>, rest: seq<string>, tail: seq<string>)
    requires Lacks(ScanLong(cfg, text, own, rest)) && tail != []
    ensures ScanLong(cfg, text, own, LongRest(cfg, text, rest) + tail).reports != ScanLong(cfg, text, own, rest).reports
    decreases |rest|, 1
  {
    var (r, takes) := ReadLong(cfg, text, rest);
    if takes {
      LacksReport1(r, WithOpts(own + [rest[0]], Scan(cfg, rest[1..])));
      RescanTakesOperand(cfg, rest[1..], tail);
      LongTwoDiffers(cfg, text, own, rest, tail);
    } else if !LacksArgument(r) {
      LacksReport1(r, WithOpts(own, Scan(cfg, rest)));
      RescanTakesOperand(cfg, rest, tail);
      LongSame(cfg, text, rest, Scan(cfg, rest).opts + tail);
      LaterDiffers(r, Scan(cfg, Scan(cfg, rest).opts + tail), Scan(cfg, rest));
    } else {
      assert LongRest(cfg, text, rest) + tail == tail;
      assert ScanLong(cfg, text, own, tail).reports[0] != r;
    }
  }

  lemma LongTwoDiffers(cfg: Config, text: string, own: seq<string>, rest: seq<string>, tail: seq<string>)
    requires ReadLong(cfg, text, rest).1
    requires Scan(cfg, Scan(cfg, rest[1..]).opts + tail).reports != Scan(cfg, rest[1..]).reports
    ensures ScanLong(cfg, text, own, LongRest(cfg, text, rest) + tail).reports != ScanLong(cfg, text, own, rest).reports
  {
    var r, q, again := ReadLong(cfg, text, rest).0, Scan(cfg, rest[1..]), LongRest(cfg, text, rest) + tail;
    assert again == [rest[0]] + (q.opts + tail) && again[1..] == q.opts + tail;
    LongSame(cfg, text, rest, again);
    LaterDiffers(r, Scan(cfg, q.opts + tail), q);
  }

  /** A last letter W lacks its argument, and takes whatever comes behind. */
  lemma LastViaLong(cfg: Config, c: char, w: string, tail: seq<string>)
    requires KindOf(cfg, c) == ViaLong && tail != []
    ensures ScanLetters(cfg, [c], w, []).opts == [w]
    ensures ScanLetters(cfg, [c], w, [w][1..] + tail).reports != ScanLetters(cfg, [c], w, []).reports
  {
    assert [c][1..] == "" && [w][1..] + tail == tail;
    assert ScanLetters(cfg, [c], w, []).reports[0] == LetterLacksArgument(c);
    if tail[0] != "" {
      assert ScanLetters(cfg, [c], w, tail) == ScanLong(cfg, tail[0], [w, tail[0]], tail[1..]);
      assert ScanLong(cfg, tail[0], [w, tail[0]], tail[1..]).reports[0] == ReadLong(cfg, tail[0], tail[1..]).0;
    }
  }

  lemma EmptyLacksNothing(cfg: Config, c: char, w: string, rest: seq<string>)
    requires KindOf(cfg, c) == ViaLong && rest != [] && Lacks(ScanLetters(cfg, [c], w, rest))
    ensures rest[0] != ""
  {
    assert [c][1..] == "";
  }

  lemma {:induction false} ViaLongTakesOperand(cfg: Config, more: string, c: char, w: string, rest: seq<string>, tail: seq<string>)
    requires KindOf(cfg, c) == ViaLong && Lacks(ScanLetters(cfg, [c] + more, w, rest)) && tail != []
    ensures var p := ScanLetters(cfg, [c] + more, w, rest);
            p.opts != [] && ScanLetters(cfg, [c] + more, w, p.opts[1..] + tail).reports != p.reports
    decreases |rest|, 3
  {
    assert ([c] + more)[1..] == more;
    if more != "" {
      assert ScanLetters(cfg, [c] + more, w, rest) == ScanLong(cfg, more, [w], rest);
      LongTakesOperand(cfg, more, [w], rest, tail);
      assert ([w] + LongRest(cfg, more, rest))[1..] == LongRest(cfg, more, rest);
    } else {
      assert [c] + more == [c];
      if rest == [] {
        LastViaLong(cfg, c, w, tail);
      } else {
        EmptyLacksNothing(cfg, c, w, rest);
        ViaNextSame(cfg, c, w, rest, tail);
        LongTakesOperand(cfg, rest[0], [w, rest[0]], rest[1..], tail);
      }
    }
  }

  lemma {:induction false} LettersTakeOperand(cfg: Config, letters: string, w: string, rest: seq<string>, tail: seq<string>)
    requires Lacks(ScanLetters(cfg, letters, w, rest)) && tail != []
    ensures var p := ScanLetters(cfg, letters, w, rest);
            p.opts != [] && ScanLetters(cfg, letters, w, p.opts[1..] + tail).reports != p.reports
    decreases |rest|, 4, |letters|
  {
    if letters == "" {
      WordTakesOperand(cfg, w, rest, tail);
    } else {
      var c, more := letters[0], letters[1..];
      var kind, p := KindOf(cfg, c), ScanLetters(cfg, letters, w, rest);
      if kind == Unknown || kind == Plain {
        var r, q := if kind == Unknown then UnknownLetter(c) else Letter(c, None), ScanLetters(cfg, more, w, rest);
        LacksReport1(r, q);
        LettersTakeOperand(cfg, more, w, rest, tail);
        LaterDiffers(r, ScanLetters(cfg, more, w, q.opts[1..] + tail), q);
      } else if kind == ViaLong {
        assert letters == [c] + more;
        ViaLongTakesOperand(cfg, more, c, w, rest, tail);
      } else if kind == Needs && more == "" {
        assert letters == [c];
        NeedsTakesOperand(cfg, c, w, rest, tail);
      } else {
        var r, q := Letter(c, if more != "" then Some(more) else None), WithOpts([w], Scan(cfg, rest));
        LacksReport1(r, q);
        WordTakesOperand(cfg, w, rest, tail);
        LaterDiffers(r, WithOpts([w], Scan(cfg, q.opts[1..] + tail)), q);
      }
    }
  }

  /** An option word with nothing more to read in it. */
  lemma {:induction false} WordTakesOperand(cfg: Config, w: string, rest: seq<string>, tail: seq<string>)
    requires Lacks(Scan(cfg, rest)) && tail != []
    ensures var q := WithOpts([w], Scan(cfg, rest)); Scan(cfg, q.opts[1..] + tail).reports != q.reports
    decreases |rest|, 3
  {
    RescanTakesOperand(cfg, rest, tail);
    assert WithOpts([w], Scan(cfg, rest)).opts[1..] == Scan(cfg, rest).opts;
  }

  lemma {:induction false} NeedsTakesOperand(cfg: Config, c: char, w: string, rest: seq<string>, tail: seq<string>)
    requires KindOf(cfg, c) == Needs && Lacks(ScanLetters(cfg, [c], w, rest)) && tail != []
    ensures var p := ScanLetters(cfg, [c], w, rest);
            p.opts != [] && ScanLetters(cfg, [c], w, p.opts[1..] + tail).reports != p.reports
    decreases |rest|, 3
  {
    assert [c][1..] == "";
    if rest == [] {
      LastNeeds(cfg, c, w, tail);
    } else {
      LacksReport1(Letter(c, Some(rest[0])), WithOpts([w, rest[0]], Scan(cfg, rest[1..])));
      RescanTakesOperand(cfg, rest[1..], tail);
      NeedsTwoDiffers(cfg, c, w, rest, tail);
    }
  }

  lemma LastNeeds(cfg: Config, c: char, w: string, tail: seq<string>)
    requires KindOf(cfg, c) == Needs && tail != []
    ensures ScanLetters(cfg, [c], w, []).opts == [w]
    ensures ScanLetters(cfg, [c], w, [w][1..] + tail).reports != ScanLetters(cfg, [c], w, []).reports
  {
    assert [c][1..] == "" && [w][1..] + tail == tail;
    assert ScanLetters(cfg, [c], w, []).reports[0] == LetterLacksArgument(c);
    assert ScanLetters(cfg, [c], w, tail).reports[0] == Letter(c, Some(tail[0]));
  }

  lemma NeedsTwoDiffers(cfg: Config, c: char, w: string, rest: seq<string>, tail: seq<string>)
    requires KindOf(cfg, c) == Needs && rest != []
    requires Scan(cfg, Scan(cfg, rest[1..]).opts + tail).reports != Scan(cfg, rest[1..]).reports
    ensures var p := ScanLetters(cfg, [c], w, rest);
            p.opts != [] && ScanLetters(cfg, [c], w, p.opts[1..] + tail).reports != p.reports
  {
    assert [c][1..] == "";
    var q, p := Scan(cfg, rest[1..]), ScanLetters(cfg, [c], w, rest);
    var again := [rest[0]] + (q.opts + tail);
    assert p.opts[1..] + tail == again && again[1..] == q.opts + tail;
    LaterDiffers(Letter(c, Some(rest[0])), Scan(cfg, q.opts + tail), q);
  }

  /** Reports that differ still do behind a common first one. */
  lemma LaterDiffers(r: Report, p: Parse, q: Parse)
    requires p.reports != q.reports
    ensures Report1(r, p).reports != Report1(r, q).reports
  {
    assert ([r] + p.reports)[1..] == p.reports && ([r] + q.reports)[1..] == q.reports;
  }

  lemma {:induction false} OperandsAreSilent(cfg: Config, ws: seq<string>)
    ensures var p := Scan(cfg, ws); !p.dashed ==> Silent(cfg, p.operands)
    decreases |ws|, 0
  {
    if ws != [] {
      var w, rest := ws[0], ws[1..];
      if IsOperand(w) {
        OperandsAreSilent(cfg, rest);
      } else if w[1] == '-' && w != "--" {
        OperandsAreSilent(cfg, if ReadLong(cfg, w[2..], rest).1 then rest[1..] else rest);
      } else if w != "--" {
        LettersSilent(cfg, w[1..], w, rest);
      }
    }
  }

  lemma {:induction false} LongSilent(cfg: Config, text: string, own: seq<string>, rest: seq<string>)
    ensures var p := ScanLong(cfg, text, own, rest); !p.dashed ==> Silent(cfg, p.operands)
    decreases |rest|, 1
  {
    OperandsAreSilent(cfg, if ReadLong(cfg, text, rest).1 then rest[1..] else rest);
  }

  lemma {:induction false} LettersSilent(cfg: Config, letters: string, w: string, rest: seq<string>)
    ensures var p := ScanLetters(cfg, letters, w, rest); !p.dashed ==> Silent(cfg, p.operands)
    decreases |rest|, 2, |letters|
  {
    OperandsAreSilent(cfg, rest);
    if letters != "" {
      var kind, more := KindOf(cfg, letters[0]), letters[1..];
      if kind == ViaLong && more != "" {
        LongSilent(cfg, more, [w], rest);
      } else if kind == ViaLong && rest != [] {
        LongSilent(cfg, rest[0], [w, rest[0]], rest[1..]);
      } else if kind == Needs && rest != [] {
        OperandsAreSilent(cfg, rest[1..]);
      } else {
        LettersSilent(cfg, more, w, rest);
      }
    }
  }

  /** Parsing the sorted vector gives the same reports and leaves it as it is,
      if and only if no option was left without its argument ahead of operands. */
  lemma SortedReparses(cfg: Config, ws: seq<string>)
    ensures var p := Scan(cfg, ws); Scan(cfg, p.opts + p.operands) == p <==> !(Lacks(p) && p.operands != [])
  {
    var p := Scan(cfg, ws);
    if Lacks(p) && p.operands != [] {
      RescanTakesOperand(cfg, ws, p.operands);
    } else {
      OperandsAreSilent(cfg, ws);
      Rescan(cfg, ws, p.operands);
    }
  }
}
