/** What canonical paths are good for: they say where a path leads, and two paths
    have the same one exactly when they lead to the same place. */
module PathLaws {
  import opened PathSpec

  predicate NoSep(c: string) {
    forall k | 0 <= k < |c| :: !IsSep(c[k])
  }

  predicate Components(cs: seq<string>) {
    forall i {:trigger cs[i]} | 0 <= i < |cs| :: NoSep(cs[i])
  }

  lemma {:induction false} SplitHasNoSep(s: string)
    ensures Components(Split(s))
  {
    if s != "" {
      SplitHasNoSep(s[1..]);
      var cs := Split(s[1..]);
      assert NoSep(cs[0]);
    }
  }

  lemma {:induction false} ResolveKeepsNames(stack: seq<string>, cs: seq<string>)
    requires Names(stack) && Components(cs)
    ensures Names(Resolve(stack, cs))
    decreases |cs|
  {
    if cs != [] {
      var c := cs[0];
      assert NoSep(c);
      assert Vanishes(c) || Name(c);
      ResolveKeepsNames(Push(stack, c), cs[1..]);
    }
  }

  /** A path leads along proper names only. */
  lemma PlaceIsNames(p: string)
    ensures Names(Place(p))
  {
    SplitHasNoSep(p);
    ResolveKeepsNames([], Split(p));
  }

  lemma {:induction false} ResolveJoin(stack: seq<string>, a: seq<string>, b: seq<string>)
    ensures Resolve(stack, a + b) == Resolve(Resolve(stack, a), b)
    decreases |a|
  {
    if a == [] {
      assert a + b == b;
    } else {
      assert (a + b)[1..] == a[1..] + b;
      ResolveJoin(Push(stack, a[0]), a[1..], b);
    }
  }

  lemma {:induction false} ResolveNames(stack: seq<string>, names: seq<string>)
    requires Names(names)
    ensures Resolve(stack, names) == stack + names
    decreases |names|
  {
    if names != [] {
      assert Name(names[0]);
      ResolveNames(stack + [names[0]], names[1..]);
      assert stack + names == stack + [names[0]] + names[1..];
    }
  }

  /* Splitting what was written. */

  lemma {:induction false} SplitAt(c: string, s: string)
    requires NoSep(c)
    ensures Split(c + "/" + s) == [c] + Split(s)
    ensures Split(c) == [c]
    decreases |c|
  {
    var whole := c + "/" + s;
    if c == "" {
      assert whole[0] == '/' && whole[1..] == s;
    } else {
      assert whole[1..] == c[1..] + "/" + s;
      SplitAt(c[1..], s);
      assert [c[0]] + c[1..] == c;
    }
  }

  lemma Regroup<T>(a: seq<T>, b: seq<T>, c: seq<T>, d: seq<T>)
    ensures a + b + c + d == a + (b + c + d)
  {
  }

  lemma {:induction false} SplitText(names: seq<string>, s: string)
    requires Names(names)
    ensures Split(Text(names) + s) == names + Split(s)
    decreases |names|
  {
    if names == [] {
      assert Text(names) + s == s && names + Split(s) == Split(s);
    } else {
      var above, last := names[..|names| - 1], names[|names| - 1];
      assert Name(last);
      SplitAt(last, s);
      SplitText(above, last + "/" + s);
      Regroup(Text(above), last, "/", s);
      Regroup(above, [last], [], Split(s));
      assert above + [last] + [] == names && [last] + [] == [last];
    }
  }

  lemma {:induction false} SplitJoins(a: string, b: string)
    ensures Split(a + "/" + b) == Split(a) + Split(b)
    decreases |a|
  {
    var whole := a + "/" + b;
    if a == "" {
      assert whole[0] == '/' && whole[1..] == b;
    } else {
      assert whole[1..] == a[1..] + "/" + b && whole[0] == a[0];
      SplitJoins(a[1..], b);
    }
  }

  /** A component that does not vanish ends the place it leads to. */
  lemma LastIsPlaced(p: string)
    requires !Vanishes(Last(p))
    ensures Place(p) != [] && Place(p)[|Place(p)| - 1] == Last(p)
  {
    var cs := Split(p);
    var n := |cs| - 1;
    ResolveJoin([], cs[..n], [cs[n]]);
    assert cs == cs[..n] + [cs[n]];
    var above := Resolve([], cs[..n]);
    assert Resolve(above, [cs[n]]) == Push(above, cs[n]);
  }

  function RootPart(p: string): seq<string> {
    if Rooted(p) then [""] else []
  }

  function EndPart(p: string): seq<string> {
    if Vanishes(Last(p)) then [""] else []
  }

  function BelowRoot(p: string): string {
    if Vanishes(Last(p)) then Text(Place(p)) else Chop(Text(Place(p)))
  }

  lemma ChopJoin(a: string, b: string)
    requires b != ""
    ensures Chop(a + b) == a + Chop(b)
  {
  }

  lemma CanonIsBelowRoot(p: string)
    ensures Canon(p) == Root(p) + BelowRoot(p)
  {
    if !Vanishes(Last(p)) {
      LastIsPlaced(p);
      assert Text(Place(p)) != "";
      ChopJoin(Root(p), Text(Place(p)));
    }
  }

  lemma BelowRootSplits(p: string)
    ensures Split(BelowRoot(p)) == Place(p) + EndPart(p)
  {
    PlaceIsNames(p);
    var place := Place(p);
    if Vanishes(Last(p)) {
      SplitText(place, "");
      assert Text(place) == Text(place) + "";
    } else {
      LastIsPlaced(p);
      var above, last := place[..|place| - 1], place[|place| - 1];
      assert Name(last);
      SplitAt(last, "");
      SplitText(above, last);
      assert Chop(Text(place)) == Text(above) + last;
      assert above + [last] == place + [];
    }
  }

  /** The components of a canonical path: an empty one for the root, the names of
      the place, an empty one for a final slash, and nothing else. */
  lemma CanonSplits(p: string)
    ensures Split(Canon(p)) == RootPart(p) + (Place(p) + EndPart(p))
  {
    var tail := BelowRoot(p);
    CanonIsBelowRoot(p);
    BelowRootSplits(p);
    SplitJoins("", tail);
    assert "" + "/" + tail == "/" + tail && "" + tail == tail;
  }

  lemma RootedSplits(p: string)
    ensures Rooted(p) <==> |Split(p)| > 1 && Split(p)[0] == ""
  {
  }

  /** A canonical path leads where the path led, and keeps its kind of end. */
  lemma CanonKeepsPlace(p: string)
    ensures Place(Canon(p)) == Place(p)
    ensures Rooted(Canon(p)) == Rooted(p)
    ensures Vanishes(Last(Canon(p))) == Vanishes(Last(p))
  {
    var cs := Split(Canon(p));
    CanonSplits(p);
    PlaceIsNames(p);
    ResolveParts(p);
    RootedSplits(Canon(p));
    if !Vanishes(Last(p)) {
      LastIsPlaced(p);
      assert cs[|cs| - 1] == Last(p);
    } else {
      assert cs[|cs| - 1] == "";
    }
    if !Rooted(p) && Place(p) != [] {
      assert Name(Place(p)[0]) && cs[0] == Place(p)[0];
    }
  }

  lemma ResolveParts(p: string)
    ensures Resolve([], RootPart(p) + (Place(p) + EndPart(p))) == Place(p)
  {
    var place := Place(p);
    PlaceIsNames(p);
    ResolveJoin([], RootPart(p), place + EndPart(p));
    assert Resolve([], RootPart(p)) == [];
    ResolveJoin([], place, EndPart(p));
    ResolveNames([], place);
    assert [] + place == place;
    assert Resolve(place, EndPart(p)) == place;
  }

  /** Canonicalising twice is canonicalising once. */
  lemma CanonIsIdempotent(p: string)
    ensures Canon(Canon(p)) == Canon(p)
  {
    CanonKeepsPlace(p);
  }

  /** Two paths have the same canonical form if and only if they start alike,
      lead to the same place and end alike. */
  lemma CanonDecidesPlace(p: string, q: string)
    ensures Canon(p) == Canon(q)
            <==> Rooted(p) == Rooted(q) && Place(p) == Place(q) && Vanishes(Last(p)) == Vanishes(Last(q))
  {
    CanonKeepsPlace(p);
    CanonKeepsPlace(q);
  }

  /** A relative path put behind a directory leads down from that directory. */
  lemma RelativeToDirectory(dir: string, p: string)
    ensures Place(dir + "/" + p) == Resolve(Place(dir), Split(p))
  {
    SplitJoins(dir, p);
    ResolveJoin([], Split(dir), Split(p));
  }
}
