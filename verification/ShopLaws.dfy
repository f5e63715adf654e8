/** The elimination, candidate by candidate: who is left, and who wins. */
module ShopLaws {
  import Letters
  import opened Options
  import Radix
  import opened ShopSpec

  /* Marks do not touch identity. */

  lemma MarkFolds(n: Node)
    ensures Fold(Mark(n).key) == Fold(n.key)
    ensures Mark(Mark(n)) == Mark(n)
    ensures Unseen(n) ==> Seen(Mark(n)) && Unmark(Mark(n)) == n
  {
    if Unseen(n) {
      assert Lower(Lower(n.key[0])) == Lower(n.key[0]);
    }
  }

  /** A mark is a small first letter in place of a capital one. */
  lemma MarkMeans(n: Node, c: char, rest: string)
    requires n.key == [c] + rest
    ensures forall k | 0 <= k < 26 :: c == Letters.CAPITALS[k] ==>
              Unseen(n) && !Seen(n) && Mark(n) == n.(key := [Letters.SMALL[k]] + rest)
    ensures forall k | 0 <= k < 26 :: c == Letters.SMALL[k] ==>
              Seen(n) && !Unseen(n) && Unmark(n) == n.(key := [Letters.CAPITALS[k]] + rest)
    ensures c !in Letters.CAPITALS ==> !Unseen(n) && Mark(n) == n
    ensures c !in Letters.SMALL ==> !Seen(n) && Unmark(n) == n
  {
    assert n.key[1..] == rest;
    Letters.Capitals(c);
    Letters.Small(c);
    Letters.Capitals(Raise(c));
    Letters.Small(Lower(c));
  }

  lemma SameFold(n: Node, m: Node, ptxes: seq<string>)
    requires Fold(n.key) == Fold(m.key)
    ensures Listed(n, ptxes) <==> Listed(m, ptxes)
  {
    if Listed(n, ptxes) {
      var i :| 0 <= i < |ptxes| && Same(ptxes[i], n);
      assert Same(ptxes[i], m);
    }
    if Listed(m, ptxes) {
      var i :| 0 <= i < |ptxes| && Same(ptxes[i], m);
      assert Same(ptxes[i], n);
    }
  }

  /* The naive filter. */

  predicate AllLines(lines: seq<Line>) {
    forall i {:trigger lines[i]} | 0 <= i < |lines| :: lines[i].Line?
  }

  /** The key of a path state in the roadmap: letters and a number in radix 36. */
  function StateKey(prefix: string, n: nat): string {
    prefix + Radix.Digits(n, 36)
  }

  /** A path state does not match, or one of a range, both ends included. */
  predicate Mismatches(judge: Judge, s: States) {
    match s
    case One(key) => judge(key) == Mismatch
    case Range(prefix, first, last) =>
      exists n: nat :: first <= n <= last && judge(StateKey(prefix, n)) == Mismatch
  }

  /** A candidate whose path states all match, on every line that lists it. */
  predicate Survives(judge: Judge, n: Node, lines: seq<Line>)
    requires AllLines(lines)
  {
    forall i {:trigger lines[i]} | 0 <= i < |lines| ::
      Listed(n, lines[i].ptxes) ==> forall j | 0 <= j < |lines[i].states| :: !Mismatches(judge, lines[i].states[j])
  }

  /** The key of a state with a number from the first to the last. */
  predicate Numbered(prefix: string, first: nat, last: nat, key: string) {
    exists n: nat :: first <= n <= last && key == StateKey(prefix, n)
  }

  lemma {:induction false} RangeHas(prefix: string, first: nat, last: nat, key: string)
    ensures key in RangeKeys(prefix, first, last) <==> Numbered(prefix, first, last, key)
    decreases last - first
  {
    if first <= last {
      var here, more := StateKey(prefix, first), RangeKeys(prefix, first + 1, last);
      RangeHas(prefix, first + 1, last, key);
      assert key in [here] + more <==> key == here || key in more;
      if Numbered(prefix, first, last, key) {
        var n: nat :| first <= n <= last && key == StateKey(prefix, n);
        assert n != first ==> Numbered(prefix, first + 1, last, key);
      }
      if Numbered(prefix, first + 1, last, key) {
        var n: nat :| first + 1 <= n <= last && key == StateKey(prefix, n);
        assert first <= n <= last && key == StateKey(prefix, n);
      }
    }
  }

  /** A path state or range is spoiled exactly if a state it stands for does not match. */
  lemma SpoilsMeans(judge: Judge, s: States)
    ensures Spoils(judge, s) <==> Mismatches(judge, s)
  {
    if s.Range? {
      RangeMeans(judge, s.prefix, s.first, s.last);
      assert s == Range(s.prefix, s.first, s.last);
    } else {
      assert Keys(s)[0] == s.key;
    }
  }

  lemma RangeMeans(judge: Judge, prefix: string, first: nat, last: nat)
    ensures Spoils(judge, Range(prefix, first, last))
       <==> exists n: nat :: first <= n <= last && judge(StateKey(prefix, n)) == Mismatch
  {
    var keys := RangeKeys(prefix, first, last);
    assert Keys(Range(prefix, first, last)) == keys;
    assert Spoils(judge, Range(prefix, first, last)) <==> AnyMismatch(judge, keys);
    if AnyMismatch(judge, keys) {
      var i :| 0 <= i < |keys| && judge(keys[i]) == Mismatch;
      RangeHas(prefix, first, last, keys[i]);
      var n: nat :| first <= n <= last && keys[i] == StateKey(prefix, n);
      assert judge(StateKey(prefix, n)) == Mismatch;
    }
    if n: nat :| first <= n <= last && judge(StateKey(prefix, n)) == Mismatch {
      var key := StateKey(prefix, n);
      RangeHas(prefix, first, last, key);
      assert Numbered(prefix, first, last, key);
      var i :| 0 <= i < |keys| && keys[i] == key;
      assert judge(keys[i]) == Mismatch;
    }
  }

  lemma FailsMeans(judge: Judge, line: Line)
    requires line.Line?
    ensures Fails(judge, line) <==> exists j :: 0 <= j < |line.states| && Mismatches(judge, line.states[j])
  {
    forall j | 0 <= j < |line.states| ensures Spoils(judge, line.states[j]) <==> Mismatches(judge, line.states[j]) {
      SpoilsMeans(judge, line.states[j]);
    }
  }

  /** A candidate some line lists. */
  predicate Named(n: Node, lines: seq<Line>)
    requires AllLines(lines)
  {
    exists i {:trigger lines[i]} :: 0 <= i < |lines| && Listed(n, lines[i].ptxes)
  }

  function Kept(judge: Judge, n: Node, lines: seq<Line>): seq<Node>
    requires AllLines(lines)
  {
    if !Survives(judge, n, lines) then [] else if Named(n, lines) then [Mark(n)] else [n]
  }

  function Naive(judge: Judge, nodes: seq<Node>, lines: seq<Line>): seq<Node>
    requires AllLines(lines)
  {
    if nodes == [] then [] else Kept(judge, nodes[0], lines) + Naive(judge, nodes[1..], lines)
  }

  function JudgeNode(judge: Judge, n: Node, line: Line): seq<Node>
    requires line.Line?
  {
    if !Listed(n, line.ptxes) then [n] else if Fails(judge, line) then [] else [Mark(n)]
  }

  lemma {:induction false} JudgeLineEach(judge: Judge, nodes: seq<Node>, line: Line)
    requires line.Line? && nodes != []
    ensures JudgeLine(judge, nodes, line) == JudgeNode(judge, nodes[0], line) + JudgeLine(judge, nodes[1..], line)
  {
    var n := nodes[0];
    var marked := MarkListed(n, line.ptxes);
    assert MarkAll(nodes, line.ptxes) == [marked] + MarkAll(nodes[1..], line.ptxes);
    MarkFolds(n);
    SameFold(n, marked, line.ptxes);
    assert ([marked] + MarkAll(nodes[1..], line.ptxes))[1..] == MarkAll(nodes[1..], line.ptxes);
  }

  lemma NaiveJoin(judge: Judge, a: seq<Node>, b: seq<Node>, lines: seq<Line>)
    requires |a| <= 1 && AllLines(lines)
    ensures Naive(judge, a + b, lines) == Naive(judge, a, lines) + Naive(judge, b, lines)
  {
    if a == [] {
      assert a + b == b;
    } else {
      assert (a + b)[1..] == b && (a + b)[0] == a[0] && a[1..] == [];
    }
  }

  lemma SurvivesOneMore(judge: Judge, n: Node, line: Line, lines: seq<Line>)
    requires line.Line? && AllLines(lines)
    ensures Survives(judge, n, [line] + lines) <==> (Listed(n, line.ptxes) ==> !Fails(judge, line)) && Survives(judge, n, lines)
  {
    var all := [line] + lines;
    FailsMeans(judge, line);
    assert all[0] == line;
    assert forall i | 0 <= i < |lines| :: all[i + 1] == lines[i];
    assert forall i | 0 < i < |all| :: all[i] == lines[i - 1];
  }

  lemma NamedOneMore(n: Node, line: Line, lines: seq<Line>)
    requires line.Line? && AllLines(lines)
    ensures Named(n, [line] + lines) <==> Listed(n, line.ptxes) || Named(n, lines)
  {
    var all := [line] + lines;
    assert all[0] == line;
    assert forall i | 0 <= i < |lines| :: all[i + 1] == lines[i];
    assert forall i | 0 < i < |all| :: all[i] == lines[i - 1];
  }

  lemma SameFate(judge: Judge, n: Node, m: Node, lines: seq<Line>)
    requires AllLines(lines) && Fold(n.key) == Fold(m.key)
    ensures Survives(judge, n, lines) <==> Survives(judge, m, lines)
    ensures Named(n, lines) <==> Named(m, lines)
  {
    forall i {:trigger lines[i]} | 0 <= i < |lines|
      ensures Listed(m, lines[i].ptxes) <==> Listed(n, lines[i].ptxes)
    {
      SameFold(n, m, lines[i].ptxes);
    }
  }

  /** One line more, for one candidate. */
  lemma KeptStep(judge: Judge, n: Node, line: Line, lines: seq<Line>)
    requires line.Line? && AllLines(lines)
    ensures Naive(judge, JudgeNode(judge, n, line), lines) == Kept(judge, n, [line] + lines)
  {
    var m := MarkListed(n, line.ptxes);
    MarkFolds(n);
    SameFate(judge, n, m, lines);
    SurvivesOneMore(judge, n, line, lines);
    NamedOneMore(n, line, lines);
    assert [m][1..] == [];
  }

  lemma {:induction false} NaiveStep(judge: Judge, nodes: seq<Node>, line: Line, lines: seq<Line>)
    requires line.Line? && AllLines(lines)
    ensures Naive(judge, JudgeLine(judge, nodes, line), lines) == Naive(judge, nodes, [line] + lines)
    decreases |nodes|
  {
    if nodes != [] {
      JudgeLineEach(judge, nodes, line);
      var here := JudgeNode(judge, nodes[0], line);
      NaiveJoin(judge, here, JudgeLine(judge, nodes[1..], line), lines);
      KeptStep(judge, nodes[0], line, lines);
      NaiveStep(judge, nodes[1..], line, lines);
    }
  }

  lemma {:induction false} NaiveNothing(judge: Judge, nodes: seq<Node>)
    ensures Naive(judge, nodes, []) == nodes
    decreases |nodes|
  {
    if nodes != [] {
      NaiveNothing(judge, nodes[1..]);
    }
  }

  /** Line by line, the elimination is the naive filter. */
  lemma {:induction false} EliminationIsNaive(judge: Judge, nodes: seq<Node>, lines: seq<Line>)
    ensures JudgeLines(judge, nodes, lines) == Naive(judge, nodes, Readable(lines))
    decreases |lines|
  {
    if lines == [] || lines[0].Malformed? {
      NaiveNothing(judge, nodes);
    } else {
      EliminationIsNaive(judge, JudgeLine(judge, nodes, lines[0]), lines[1..]);
      NaiveStep(judge, nodes, lines[0], Readable(lines[1..]));
    }
  }

  /* Who is left, and who wins. */

  predicate AllUnseen(nodes: seq<Node>) {
    forall i {:trigger nodes[i]} | 0 <= i < |nodes| :: Unseen(nodes[i])
  }

  /** A candidate that may win: it survives, and some line lists it. */
  predicate Contends(judge: Judge, n: Node, lines: seq<Line>)
    requires AllLines(lines)
  {
    Survives(judge, n, lines) && Named(n, lines)
  }

  /** The first evaluated survivor is the first contender. */
  lemma {:induction false} FirstContender(judge: Judge, nodes: seq<Node>, lines: seq<Line>)
    requires AllUnseen(nodes) && Sorted(nodes) && AllLines(lines)
    ensures match FirstSeen(Naive(judge, nodes, lines))
            case None => forall n | n in nodes :: !Contends(judge, n, lines)
            case Some(w) =>
              w in nodes && Contends(judge, w, lines)
              && forall n | n in nodes && Contends(judge, n, lines) :: n == w || Before(w, n)
    decreases |nodes|
  {
    if nodes != [] {
      var n, rest := nodes[0], nodes[1..];
      assert Unseen(n) && !Seen(n);
      MarkFolds(n);
      FirstContender(judge, rest, lines);
      assert nodes == [n] + rest;
      FirstOfJoin(Kept(judge, n, lines), Naive(judge, rest, lines));
    }
  }

  lemma FirstOfJoin(a: seq<Node>, b: seq<Node>)
    requires |a| <= 1
    ensures FirstSeen(a + b) == if a != [] && Seen(a[0]) then Some(Unmark(a[0])) else FirstSeen(b)
  {
    if a == [] {
      assert a + b == b;
    } else {
      assert (a + b)[1..] == b;
    }
  }

  /** Without a contender, the survivors are left as they were. */
  lemma {:induction false} SurvivorsUnmarked(judge: Judge, nodes: seq<Node>, lines: seq<Line>)
    requires AllUnseen(nodes) && Sorted(nodes) && AllLines(lines)
    requires forall n | n in nodes :: !Contends(judge, n, lines)
    ensures Unmarked(judge, nodes, lines, Naive(judge, nodes, lines))
    decreases |nodes|
  {
    if nodes != [] {
      assert nodes[0] in nodes && nodes == [nodes[0]] + nodes[1..];
      SurvivorsUnmarked(judge, nodes[1..], lines);
      OneMoreUnmarked(judge, nodes, lines, Naive(judge, nodes[1..], lines));
    }
  }

  /** `rest` are the survivors among `nodes`, none of them marked. */
  ghost predicate Unmarked(judge: Judge, nodes: seq<Node>, lines: seq<Line>, rest: seq<Node>)
    requires AllLines(lines)
  {
    && AllUnseen(rest) && Sorted(rest)
    && forall n {:trigger n in rest} :: n in rest <==> n in nodes && Survives(judge, n, lines)
  }

  lemma OneMoreUnmarked(judge: Judge, nodes: seq<Node>, lines: seq<Line>, rest: seq<Node>)
    requires nodes != [] && AllUnseen(nodes) && Sorted(nodes) && AllLines(lines)
    requires !Contends(judge, nodes[0], lines) && Unmarked(judge, nodes[1..], lines, rest)
    ensures Unmarked(judge, nodes, lines, Kept(judge, nodes[0], lines) + rest)
  {
    var n := nodes[0];
    assert nodes == [n] + nodes[1..];
    assert forall m | m in rest :: m in nodes[1..] && Before(n, m);
    SortedCons(n, rest);
    assert [] + rest == rest;
  }

  lemma SortedCons(n: Node, rest: seq<Node>)
    requires Sorted(rest) && forall m | m in rest :: Before(n, m)
    ensures Sorted([n] + rest)
  {
  }

  /* Whole runs. */

  predicate Passes(judge: Judge, n: Node, cmd: Command) {
    Eligible(cmd) ==> Survives(judge, n, Readable(cmd.lines))
  }

  predicate PassesAll(judge: Judge, n: Node, cmds: seq<Command>, k: nat) {
    forall i {:trigger cmds[i]} | 0 <= i < k && i < |cmds| :: Passes(judge, n, cmds[i])
  }

  /** A candidate wins command k: it is listed on a line of that command, and all
      its path states match, for this and every earlier command. */
  predicate Wins(judge: Judge, n: Node, cmds: seq<Command>, k: nat) {
    && k < |cmds| && Eligible(cmds[k]) && Named(n, Readable(cmds[k].lines))
    && PassesAll(judge, n, cmds, k + 1)
  }

  predicate NoneWins(judge: Judge, nodes: seq<Node>, cmds: seq<Command>, k: nat) {
    forall n, j {:trigger Wins(judge, n, cmds, j)} | n in nodes && 0 <= j < k :: !Wins(judge, n, cmds, j)
  }

  /** One command: its first contender, or the survivors as they were. */
  lemma TryIsNaive(judge: Judge, nodes: seq<Node>, cmd: Command)
    requires AllUnseen(nodes) && Sorted(nodes)
    ensures var v := Try(judge, nodes, cmd);
            match v.winner
            case Some(w) =>
              Eligible(cmd) && w in nodes && Contends(judge, w, Readable(cmd.lines))
              && forall n | n in nodes && Contends(judge, n, Readable(cmd.lines)) :: n == w || Before(w, n)
            case None =>
              AllUnseen(v.nodes) && Sorted(v.nodes)
              && (forall n {:trigger n in v.nodes} :: n in v.nodes <==> n in nodes && Passes(judge, n, cmd))
              && (Eligible(cmd) ==> forall n | n in nodes :: !Contends(judge, n, Readable(cmd.lines)))
  {
    if Eligible(cmd) && nodes != [] {
      var lines := Readable(cmd.lines);
      EliminationIsNaive(judge, nodes, cmd.lines);
      FirstContender(judge, nodes, lines);
      if Try(judge, nodes, cmd).winner.None? {
        SurvivorsUnmarked(judge, nodes, lines);
      }
    }
  }

  predicate OneMore(judge: Judge, n: Node, cmds: seq<Command>, k: nat)
    requires k < |cmds|
  {
    PassesAll(judge, n, cmds, k + 1) <==> PassesAll(judge, n, cmds, k) && Passes(judge, n, cmds[k])
  }

  lemma PassesOneMore(judge: Judge, n: Node, cmds: seq<Command>, k: nat)
    requires k < |cmds|
    ensures OneMore(judge, n, cmds, k)
  {
  }

  /** What shopping finds. */
  predicate IsOutcome(judge: Judge, nodes: seq<Node>, cmds: seq<Command>, out: Outcome) {
    match out
    case Lost(_) => NoneWins(judge, nodes, cmds, |cmds|)
    case Won(k, w) =>
      && w in nodes && Wins(judge, w, cmds, k) && NoneWins(judge, nodes, cmds, k)
      && forall n {:trigger Wins(judge, n, cmds, k)} | n in nodes && Wins(judge, n, cmds, k) :: n == w || Before(w, n)
  }

  /** The candidates before command k: those that passed every earlier command. */
  ghost predicate Remain(judge: Judge, all: seq<Node>, cmds: seq<Command>, k: nat, nodes: seq<Node>) {
    && AllUnseen(nodes) && Sorted(nodes)
    && forall n {:trigger n in nodes} :: n in nodes <==> n in all && PassesAll(judge, n, cmds, k)
  }

  lemma {:induction false} ShopFrom(judge: Judge, all: seq<Node>, nodes: seq<Node>, cmds: seq<Command>, k: nat, code: Code)
    requires k <= |cmds| && Remain(judge, all, cmds, k, nodes) && NoneWins(judge, all, cmds, k)
    ensures IsOutcome(judge, all, cmds, Shop(judge, nodes, cmds, k, code))
    decreases |cmds| - k
  {
    if k < |cmds| {
      var v := Try(judge, nodes, cmds[k]);
      TryIsNaive(judge, nodes, cmds[k]);
      forall n | n in all
        ensures OneMore(judge, n, cmds, k)
        ensures Wins(judge, n, cmds, k) <==> n in nodes && Eligible(cmds[k]) && Contends(judge, n, Readable(cmds[k].lines))
      {
        PassesOneMore(judge, n, cmds, k);
      }
      if v.winner.None? {
        assert Remain(judge, all, cmds, k + 1, v.nodes);
        assert NoneWins(judge, all, cmds, k + 1);
        ShopFrom(judge, all, v.nodes, cmds, k + 1, v.code);
      }
    }
  }

  /** Shopping with skips and early exits finds the first command that some
      candidate wins and, of the candidates that win it, the first in key order;
      it finds nothing exactly when no candidate wins any command. */
  lemma ShoppingIsNaive(judge: Judge, nodes: seq<Node>, cmds: seq<Command>)
    requires AllUnseen(nodes) && Sorted(nodes)
    ensures IsOutcome(judge, nodes, cmds, Shop(judge, nodes, cmds, 0, NoMatch))
  {
    ShopFrom(judge, nodes, nodes, cmds, 0, NoMatch);
  }
}
