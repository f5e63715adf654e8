/** The shopping state as it is changed in place: candidates are marked and
    deleted as lines are read, with skips and early exits. */
module Shop {
  import opened Options
  import Radix
  import opened ShopLaws
  import opened ShopSpec
  import opened Strings

  function Lookup(nodes: seq<Node>, key: string): (r: Option<nat>)
    ensures r.Some? ==> r.value < |nodes| && Same(key, nodes[r.value])
    ensures r.None? ==> forall i | 0 <= i < |nodes| :: !Same(key, nodes[i])
  {
    if nodes == [] then None
    else if Same(key, nodes[0]) then Some(0)
    else
      var r := Lookup(nodes[1..], key);
      if r.Some? then Some(r.value + 1) else None
  }

  /** Only one candidate of a dictionary answers to an index. */
  lemma Distinct(nodes: seq<Node>, i: nat, j: nat)
    requires Sorted(nodes) && i < |nodes| && j < |nodes| && i != j
    ensures Fold(nodes[i].key) != Fold(nodes[j].key)
  {
    LessIsOrder(Fold(nodes[i].key), "", "");
    assert Before(nodes[if i < j then i else j], nodes[if i < j then j else i]);
  }

  lemma DeleteLooked(nodes: seq<Node>, key: string)
    requires Sorted(nodes)
    ensures Delete(nodes, [key]) == match Lookup(nodes, key) case Some(i) => nodes[..i] + nodes[i + 1..] case None => nodes
  {
    var r := Lookup(nodes, key);
    if r.Some? {
      forall j | 0 <= j < |nodes| && j != r.value
        ensures !Same(key, nodes[j])
      {
        Distinct(nodes, r.value, j);
      }
      DeleteAt(nodes, key, r.value);
    } else {
      forall j | 0 <= j < |nodes|
        ensures !Listed(nodes[j], [key])
      {
        ListedOne(nodes[j], key);
      }
      DeleteNone(nodes, [key]);
    }
  }

  lemma MarkLooked(nodes: seq<Node>, key: string)
    requires Sorted(nodes)
    ensures MarkAll(nodes, [key]) == match Lookup(nodes, key) case Some(i) => nodes[i := Mark(nodes[i])] case None => nodes
  {
    var r := Lookup(nodes, key);
    forall j | 0 <= j < |nodes|
      ensures Listed(nodes[j], [key]) <==> r == Some(j)
    {
      ListedOne(nodes[j], key);
      if r.Some? && r.value != j {
        Distinct(nodes, r.value, j);
      }
    }
  }

  lemma ListedOne(n: Node, key: string)
    ensures Listed(n, [key]) <==> Same(key, n)
  {
    assert Same(key, n) ==> Same([key][0], n);
  }

  lemma {:induction false} DeleteNone(nodes: seq<Node>, ptxes: seq<string>)
    requires forall i | 0 <= i < |nodes| :: !Listed(nodes[i], ptxes)
    ensures Delete(nodes, ptxes) == nodes
    decreases |nodes|
  {
    if nodes != [] {
      DeleteNone(nodes[1..], ptxes);
    }
  }

  lemma {:induction false} DeleteAt(nodes: seq<Node>, key: string, i: nat)
    requires i < |nodes| && Same(key, nodes[i]) && forall j | 0 <= j < |nodes| && j != i :: !Same(key, nodes[j])
    ensures Delete(nodes, [key]) == nodes[..i] + nodes[i + 1..]
    decreases |nodes|
  {
    ListedOne(nodes[0], key);
    if i == 0 {
      forall j | 0 <= j < |nodes[1..]|
        ensures !Listed(nodes[1..][j], [key])
      {
        ListedOne(nodes[1..][j], key);
      }
      DeleteNone(nodes[1..], [key]);
    } else {
      DeleteAt(nodes[1..], key, i - 1);
      assert nodes[..i] + nodes[i + 1..] == [nodes[0]] + (nodes[1..][..i - 1] + nodes[1..][i..]);
    }
  }

  lemma ListedMore(n: Node, a: seq<string>, key: string)
    ensures Listed(n, a + [key]) <==> Listed(n, a) || Same(key, n)
  {
    var all := a + [key];
    assert all[|a|] == key;
    assert forall i | 0 <= i < |a| :: all[i] == a[i];
  }

  lemma {:induction false} DeleteMore(nodes: seq<Node>, a: seq<string>, key: string)
    ensures Delete(Delete(nodes, a), [key]) == Delete(nodes, a + [key])
    decreases |nodes|
  {
    if nodes != [] {
      DeleteMore(nodes[1..], a, key);
      ListedMore(nodes[0], a, key);
      ListedOne(nodes[0], key);
      var rest := Delete(nodes[1..], a);
      assert ([nodes[0]] + rest)[1..] == rest && [] + rest == rest;
    }
  }

  lemma {:induction false} DeleteTwice(nodes: seq<Node>, ptxes: seq<string>)
    ensures Delete(Delete(nodes, ptxes), ptxes) == Delete(nodes, ptxes)
    decreases |nodes|
  {
    if nodes != [] {
      DeleteTwice(nodes[1..], ptxes);
      var rest := Delete(nodes[1..], ptxes);
      assert ([nodes[0]] + rest)[1..] == rest && [] + rest == rest;
    }
  }

  lemma FirstBefore(nodes: seq<Node>, n: Node)
    requires Sorted(nodes) && nodes != [] && n in nodes[1..]
    ensures Before(nodes[0], n)
  {
    var i :| 0 <= i < |nodes[1..]| && nodes[1..][i] == n;
    assert nodes[i + 1] == n;
  }

  lemma {:induction false} DeleteSorted(nodes: seq<Node>, ptxes: seq<string>)
    requires Sorted(nodes)
    ensures Sorted(Delete(nodes, ptxes)) && forall n | n in Delete(nodes, ptxes) :: n in nodes
    decreases |nodes|
  {
    if nodes != [] {
      DeleteSorted(nodes[1..], ptxes);
      var rest := Delete(nodes[1..], ptxes);
      forall n | n in rest
        ensures Before(nodes[0], n)
      {
        FirstBefore(nodes, n);
      }
      SortedCons(nodes[0], rest);
      assert [] + rest == rest;
    }
  }

  lemma MarkedSorted(nodes: seq<Node>, marked: seq<Node>)
    requires Sorted(nodes) && |marked| == |nodes|
    requires forall i {:trigger marked[i]} | 0 <= i < |nodes| :: marked[i] == nodes[i] || marked[i] == Mark(nodes[i])
    ensures Sorted(marked)
  {
    forall i | 0 <= i < |nodes|
      ensures Fold(marked[i].key) == Fold(nodes[i].key)
    {
      MarkFolds(nodes[i]);
    }
    forall i, j {:trigger marked[i], marked[j]} | 0 <= i < j < |marked|
      ensures Before(marked[i], marked[j])
    {
      assert Before(nodes[i], nodes[j]);
    }
  }

  lemma MarkMore(nodes: seq<Node>, a: seq<string>, key: string)
    requires Sorted(nodes)
    ensures var marked := MarkAll(nodes, a);
            Sorted(marked) && MarkAll(nodes, a + [key]) == MarkAll(marked, [key])
  {
    var marked := MarkAll(nodes, a);
    MarkedSorted(nodes, marked);
    forall i | 0 <= i < |nodes|
      ensures MarkListed(marked[i], [key]) == MarkListed(nodes[i], a + [key])
    {
      ListedMore(nodes[i], a, key);
      MarkFolds(nodes[i]);
      ListedOne(nodes[i], key);
      ListedOne(marked[i], key);
    }
  }

  lemma MarkNothing(nodes: seq<Node>)
    ensures MarkAll(nodes, []) == nodes
  {
  }

  lemma {:induction false} DeleteNothing(nodes: seq<Node>)
    ensures Delete(nodes, []) == nodes
  {
    DeleteNone(nodes, []);
  }

  class Shopper {
    const judge: Judge
    var nodes: seq<Node>

    constructor (judge: Judge)
      ensures this.judge == judge && nodes == []
    {
      this.judge := judge;
      nodes := [];
    }

    ghost predicate Valid()
      reads this
    {
      Sorted(nodes)
    }

    /** Enters a candidate, unless its index is taken. */
    method Insert(key: string, id: string)
      requires Valid()
      modifies `nodes
      ensures Valid()
      ensures nodes == old(nodes) || exists i :: 0 <= i <= |old(nodes)| && nodes == old(nodes)[..i] + [Node(key, id)] + old(nodes)[i..]
      ensures nodes == old(nodes) <==> exists m :: m in old(nodes) && Same(key, m)
    {
      if Lookup(nodes, key).None? {
        var n := Node(key, id);
        var i := 0;
        while i < |nodes| && Before(nodes[i], n)
          invariant 0 <= i <= |nodes| && forall j | 0 <= j < i :: Before(nodes[j], n)
        {
          i := i + 1;
        }
        InsertSorted(nodes, n, i);
        nodes := nodes[..i] + [n] + nodes[i..];
        assert |nodes| == |old(nodes)| + 1;
      }
    }

    /** Whether the index is still in play; if so it is marked as evaluated. */
    method MarkAsSeen(key: string) returns (found: bool)
      requires Valid()
      modifies `nodes
      ensures Valid() && nodes == MarkAll(old(nodes), [key])
      ensures !found ==> Delete(nodes, [key]) == nodes == old(nodes)
    {
      MarkLooked(nodes, key);
      DeleteLooked(nodes, key);
      MarkMore(nodes, [], key);
      MarkNothing(nodes);
      assert [] + [key] == [key];
      var i := Lookup(nodes, key);
      if i.Some? {
        MarkedSorted(nodes, nodes[i.value := Mark(nodes[i.value])]);
        nodes := nodes[i.value := Mark(nodes[i.value])];
      }
      return i.Some?;
    }

    method Invalidate(key: string)
      requires Valid()
      modifies `nodes
      ensures Valid() && nodes == Delete(old(nodes), [key])
    {
      DeleteLooked(nodes, key);
      DeleteSorted(nodes, [key]);
      var i := Lookup(nodes, key);
      if i.Some? {
        nodes := nodes[..i.value] + nodes[i.value + 1..];
      }
    }

    /** One path state, against the candidates that need it. */
    method ComparePathState(key: string, ptxes: seq<string>)
      requires Valid()
      modifies `nodes
      ensures Valid() && nodes == if judge(key) == Mismatch then Delete(old(nodes), ptxes) else old(nodes)
    {
      if judge(key) != Mismatch {
        return;
      }
      DeleteNothing(nodes);
      var i := 0;
      while i < |ptxes| && |nodes| > 0
        invariant 0 <= i <= |ptxes| && Valid() && nodes == Delete(old(nodes), ptxes[..i])
      {
        DeleteMore(old(nodes), ptxes[..i], ptxes[i]);
        assert ptxes[..i] + [ptxes[i]] == ptxes[..i + 1];
        Invalidate(ptxes[i]);
        i := i + 1;
      }
      StopEarly(old(nodes), ptxes, i);
    }

    /** The candidates on a line are marked; says whether there are any left. */
    method MarkLine(ptxes: seq<string>) returns (left: bool)
      requires Valid()
      modifies `nodes
      ensures Valid() && nodes == MarkAll(old(nodes), ptxes)
      ensures !left ==> nodes == old(nodes) == Delete(old(nodes), ptxes)
    {
      MarkNothing(nodes);
      DeleteNothing(nodes);
      left := false;
      var i := 0;
      while i < |ptxes|
        invariant 0 <= i <= |ptxes| && Valid() && nodes == MarkAll(old(nodes), ptxes[..i])
        invariant !left ==> nodes == old(nodes) == Delete(old(nodes), ptxes[..i])
      {
        assert ptxes[..i] + [ptxes[i]] == ptxes[..i + 1];
        MarkMore(old(nodes), ptxes[..i], ptxes[i]);
        var found := MarkAsSeen(ptxes[i]);
        left := left || found;
        if !left {
          DeleteMore(nodes, ptxes[..i], ptxes[i]);
        }
        i := i + 1;
      }
      assert ptxes[..i] == ptxes;
    }

    /** A range of path states; this loop does not stop early. */
    method CompareRange(prefix: string, first: nat, last: nat, ptxes: seq<string>)
      requires Valid()
      modifies `nodes
      ensures Valid() && nodes == if Spoils(judge, Range(prefix, first, last)) then Delete(old(nodes), ptxes) else old(nodes)
    {
      DeleteTwice(nodes, ptxes);
      ghost var spoiled := false;
      var i := first;
      while i <= last
        invariant Valid() && nodes == if spoiled then Delete(old(nodes), ptxes) else old(nodes)
        invariant Spoils(judge, Range(prefix, first, last)) <==> spoiled || AnyMismatch(judge, RangeKeys(prefix, i, last))
        decreases last - i
      {
        var key := prefix + Radix.Digits(i, 36);
        ComparePathState(key, ptxes);
        MismatchMore(judge, key, RangeKeys(prefix, i + 1, last));
        spoiled := spoiled || judge(key) == Mismatch;
        i := i + 1;
      }
    }

    /** One path state or range of a line. */
    method CompareOne(states: States, ptxes: seq<string>)
      requires Valid()
      modifies `nodes
      ensures Valid() && nodes == if Spoils(judge, states) then Delete(old(nodes), ptxes) else old(nodes)
    {
      match states {
        case One(key) =>
          MismatchMore(judge, key, []);
          assert [key] + [] == [key];
          ComparePathState(key, ptxes);
        case Range(prefix, first, last) =>
          CompareRange(prefix, first, last, ptxes);
      }
    }

    /** The path states of a line, while any candidate is left. */
    method CompareStates(line: Line)
      requires Valid() && line.Line?
      modifies `nodes
      ensures Valid() && nodes == if Fails(judge, line) then Delete(old(nodes), line.ptxes) else old(nodes)
    {
      DeleteTwice(nodes, line.ptxes);
      ghost var spoiled := false;
      var i := 0;
      while i < |line.states| && |nodes| > 0
        invariant 0 <= i <= |line.states| && Valid()
        invariant nodes == if spoiled then Delete(old(nodes), line.ptxes) else old(nodes)
        invariant spoiled <==> SpoiledBefore(judge, line.states, i)
      {
        CompareOne(line.states[i], line.ptxes);
        SpoiledMore(judge, line.states, i);
        spoiled := spoiled || Spoils(judge, line.states[i]);
        i := i + 1;
      }
      assert i == |line.states| ==> (Fails(judge, line) <==> SpoiledBefore(judge, line.states, i));
      assert SpoiledBefore(judge, line.states, i) ==> Fails(judge, line);
      assert |nodes| == 0 ==> Delete(nodes, line.ptxes) == [];
    }

    /** The prerequisite lines of a command: lines without candidates are skipped,
        and reading stops when none is left. */
    method ComparePrereqs(lines: seq<Line>)
      requires Valid()
      modifies `nodes
      ensures Valid() && nodes == JudgeLines(judge, old(nodes), lines)
    {
      var i := 0;
      while i < |lines| && |nodes| > 0
        invariant 0 <= i <= |lines| && Valid()
        invariant JudgeLines(judge, old(nodes), lines) == JudgeLines(judge, nodes, lines[i..])
      {
        if lines[i].Malformed? {
          return;
        }
        var line := lines[i];
        assert lines[i..][1..] == lines[i + 1..];
        var left := MarkLine(line.ptxes);
        if left {
          CompareStates(line);
        }
        i := i + 1;
      }
      if |nodes| == 0 {
        NobodyLeft(judge, lines[i..]);
      }
    }

    /** The first candidate that was evaluated. */
    method Winner() returns (w: Option<Node>)
      ensures w == FirstSeen(nodes)
    {
      var i := 0;
      while i < |nodes|
        invariant 0 <= i <= |nodes| && FirstSeen(nodes) == FirstSeen(nodes[i..])
      {
        if Seen(nodes[i]) {
          return Some(Unmark(nodes[i]));
        }
        assert nodes[i..][1..] == nodes[i + 1..];
        i := i + 1;
      }
      return None;
    }

    method TryCommand(cmd: Command) returns (code: Code, winner: Option<Node>)
      requires Valid()
      modifies `nodes
      ensures Valid() && Visit(code, nodes, winner) == Try(judge, old(nodes), cmd)
    {
      winner := None;
      if !cmd.Command? {
        return Error, None;
      }
      if !cmd.hasTargets {
        return if cmd.aggregated then MustRunAgg else MustRun, None;
      }
      if cmd.hasKids {
        return MustRun, None;
      }
      if |nodes| == 0 {
        return NoMatch, None;
      }
      ComparePrereqs(cmd.lines);
      if |nodes| > 0 {
        winner := Winner();
      }
      code := if winner.Some? then Recycled else if cmd.aggregated then NoMatchAgg else NoMatch;
    }

    /** The entries of the roadmap for one command line, in order. */
    method ShopFor(cmds: seq<Command>) returns (out: Outcome)
      requires Valid()
      modifies `nodes
      ensures out == ShopSpec.Shop(judge, old(nodes), cmds, 0, NoMatch)
      ensures AllUnseen(old(nodes)) ==> IsOutcome(judge, old(nodes), cmds, out)
    {
      if AllUnseen(nodes) {
        ShoppingIsNaive(judge, nodes, cmds);
      }
      var code, k := NoMatch, 0;
      while k < |cmds|
        invariant 0 <= k <= |cmds| && Valid()
        invariant ShopSpec.Shop(judge, old(nodes), cmds, 0, NoMatch) == ShopSpec.Shop(judge, nodes, cmds, k, code)
      {
        var winner;
        code, winner := TryCommand(cmds[k]);
        if winner.Some? {
          return Won(k, winner.value);
        }
        k := k + 1;
      }
      return Lost(code);
    }
  }

  predicate SpoiledBefore(judge: Judge, states: seq<States>, n: nat)
    requires n <= |states|
  {
    exists j :: 0 <= j < n && Spoils(judge, states[j])
  }

  lemma SpoiledMore(judge: Judge, states: seq<States>, n: nat)
    requires n < |states|
    ensures SpoiledBefore(judge, states, n + 1) <==> SpoiledBefore(judge, states, n) || Spoils(judge, states[n])
  {
  }

  lemma MismatchMore(judge: Judge, key: string, keys: seq<string>)
    ensures AnyMismatch(judge, [key] + keys) <==> judge(key) == Mismatch || AnyMismatch(judge, keys)
  {
    var all := [key] + keys;
    assert all[0] == key;
    assert forall i | 0 <= i < |keys| :: all[i + 1] == keys[i];
    assert forall i | 0 < i < |all| :: all[i] == keys[i - 1];
  }

  lemma {:induction false} NobodyLeft(judge: Judge, lines: seq<Line>)
    ensures JudgeLines(judge, [], lines) == []
    decreases |lines|
  {
    if lines != [] && lines[0].Line? {
      assert JudgeLine(judge, [], lines[0]) == [];
      NobodyLeft(judge, lines[1..]);
    }
  }

  lemma JoinSorted(a: seq<Node>, n: Node, b: seq<Node>)
    requires Sorted(a) && Sorted(b)
    requires forall i, j {:trigger a[i], b[j]} | 0 <= i < |a| && 0 <= j < |b| :: Before(a[i], b[j])
    requires forall i {:trigger a[i]} | 0 <= i < |a| :: Before(a[i], n)
    requires forall j {:trigger b[j]} | 0 <= j < |b| :: Before(n, b[j])
    ensures Sorted(a + [n] + b)
  {
    var all := a + [n] + b;
    forall i, j {:trigger all[i], all[j]} | 0 <= i < j < |all|
      ensures Before(all[i], all[j])
    {
      if j < |a| {
        assert Before(a[i], a[j]);
      } else if i > |a| {
        assert Before(b[i - |a| - 1], b[j - |a| - 1]);
      } else if i < |a| && j > |a| {
        assert Before(a[i], b[j - |a| - 1]);
      } else if i < |a| {
        assert all[i] == a[i];
      } else {
        assert all[j] == b[j - |a| - 1];
      }
    }
  }

  lemma InsertSorted(nodes: seq<Node>, n: Node, i: nat)
    requires Sorted(nodes) && i <= |nodes| && Lookup(nodes, n.key).None?
    requires (forall j | 0 <= j < i :: Before(nodes[j], n)) && (i < |nodes| ==> !Before(nodes[i], n))
    ensures Sorted(nodes[..i] + [n] + nodes[i..])
  {
    forall j {:trigger nodes[j]} | i <= j < |nodes|
      ensures Before(n, nodes[j])
    {
      assert !Same(n.key, nodes[i]);
      LessIsOrder(Fold(n.key), Fold(nodes[i].key), Fold(nodes[j].key));
      assert j > i ==> Before(nodes[i], nodes[j]);
    }
    JoinSorted(nodes[..i], n, nodes[i..]);
  }

  /** Once nobody is left, nobody is left at the end of the list. */
  lemma {:induction false} StopEarly(nodes: seq<Node>, ptxes: seq<string>, i: nat)
    requires i <= |ptxes| && (i < |ptxes| ==> Delete(nodes, ptxes[..i]) == [])
    ensures Delete(nodes, ptxes) == Delete(nodes, ptxes[..i])
    decreases |ptxes| - i
  {
    if i < |ptxes| {
      DeleteMore(nodes, ptxes[..i], ptxes[i]);
      assert ptxes[..i] + [ptxes[i]] == ptxes[..i + 1];
      StopEarly(nodes, ptxes, i + 1);
    } else {
      assert ptxes[..i] == ptxes;
    }
  }
}
