/** Canonical paths told from their characters alone: which paths are canonical
    already, and which rewritings lead from any other path to its canonical form. */
module PathRewrites {
  import opened PathLaws
  import opened PathSpec

  /** A file's own name: anything without a slash of either kind but the two dots. */
  predicate FileName(c: string) {
    c != "" && c != "." && c != ".." && '/' !in c && '\\' !in c
  }

  predicate FileNames(cs: seq<string>) {
    forall i {:trigger cs[i]} | 0 <= i < |cs| :: FileName(cs[i])
  }

  /** Names with a slash between any two. */
  function Joined(cs: seq<string>): string {
    if cs == [] then "" else if |cs| == 1 then cs[0] else cs[0] + "/" + Joined(cs[1..])
  }

  /** The same path with every separator written as a slash. */
  function Slashed(p: string): (q: string)
    ensures |q| == |p| && forall i | 0 <= i < |p| :: q[i] == if p[i] == '\\' then '/' else p[i]
  {
    if p == "" then "" else [if p[0] == '\\' then '/' else p[0]] + Slashed(p[1..])
  }

  lemma FileNameIsName(c: string)
    requires FileName(c)
    ensures Name(c) && NoSep(c)
  {
    forall k | 0 <= k < |c| ensures !IsSep(c[k]) {
      assert c[k] in c;
    }
  }

  lemma {:induction false} JoinedSplits(cs: seq<string>)
    requires FileNames(cs) && cs != []
    ensures Split(Joined(cs)) == cs && Names(cs) && Joined(cs) != "" && !Rooted(Joined(cs))
    decreases |cs|
  {
    var c := cs[0];
    assert FileName(c);
    FileNameIsName(c);
    assert FileNames(cs[1..]) by {
      assert forall i | 0 <= i < |cs[1..]| :: cs[1..][i] == cs[i + 1];
    }
    if |cs| == 1 {
      SplitAt(c, "");
    } else {
      JoinedSplits(cs[1..]);
      SplitAt(c, Joined(cs[1..]));
      assert forall i | 0 < i < |cs| :: cs[i] == cs[1..][i - 1];
    }
    assert Joined(cs)[0] == c[0];
  }

  lemma {:induction false} TextOfJoined(cs: seq<string>)
    requires cs != []
    ensures Text(cs) == Joined(cs) + "/"
    decreases |cs|
  {
    if |cs| == 1 {
      assert cs[..0] == [];
    } else {
      TextPeels(cs[0], cs[1..]);
      TextOfJoined(cs[1..]);
      assert cs == [cs[0]] + cs[1..];
      assert cs[0] + "/" + (Joined(cs[1..]) + "/") == cs[0] + "/" + Joined(cs[1..]) + "/";
    }
  }

  lemma {:induction false} TextPeels(c: string, cs: seq<string>)
    ensures Text([c] + cs) == c + "/" + Text(cs)
    decreases |cs|
  {
    var n := |cs| - 1;
    if cs == [] {
      assert [c] + cs == [c] && [c][..0] == [];
    } else {
      TextPeels(c, cs[..n]);
      assert ([c] + cs)[..n + 1] == [c] + cs[..n];
      assert c + "/" + (Text(cs[..n]) + cs[n] + "/") == c + "/" + Text(cs[..n]) + cs[n] + "/";
    }
  }

  /** File names with single slashes between them are a canonical path, with or
      without a slash in front, with or without one behind. */
  lemma JoinedIsCanonical(cs: seq<string>)
    requires FileNames(cs)
    ensures Canon(Joined(cs)) == Joined(cs)
    ensures Canon("/" + Joined(cs)) == "/" + Joined(cs)
    ensures cs != [] ==> Canon(Joined(cs) + "/") == Joined(cs) + "/" && Canon("/" + Joined(cs) + "/") == "/" + Joined(cs) + "/"
  {
    if cs == [] {
      RootIsCanonical();
    } else {
      var s, all := Joined(cs), Text(cs);
      JoinedSplits(cs);
      TextOfJoined(cs);
      ResolveNames([], cs);
      assert [] + cs == cs;
      assert Name(cs[|cs| - 1]);
      OneEnd("", s, cs);
      RootedJoined(cs);
      SlashBehind(cs);
      SlashesAround(cs);
    }
  }

  lemma RootIsCanonical()
    ensures Canon("") == "" && Canon("/") == "/"
  {
    assert Split("") == [""] && "/"[1..] == "" && Split("/") == [""] + [""];
    assert Push([], "") == [] && [""][1..] == [] && (["", ""])[1..] == [""];
    assert Resolve([], [""]) == [] && Resolve([], ["", ""]) == [];
  }

  lemma OneEnd(root: string, s: string, cs: seq<string>)
    requires cs != [] && Text(cs) == s + "/"
    ensures Chop(root + Text(cs)) == root + s
  {
    assert root + (s + "/") == root + s + "/";
  }

  lemma RootedJoined(cs: seq<string>)
    requires FileNames(cs) && cs != []
    ensures Canon("/" + Joined(cs)) == "/" + Joined(cs)
  {
    var s := Joined(cs);
    JoinedSplits(cs);
    TextOfJoined(cs);
    SplitAt("", s);
    assert "" + "/" + s == "/" + s;
    assert ([""] + cs)[1..] == cs && ([""] + cs)[|cs|] == cs[|cs| - 1];
    ResolveNames([], cs);
    assert [] + cs == cs;
    assert Name(cs[|cs| - 1]);
    OneEnd("/", s, cs);
  }

  lemma SlashBehind(cs: seq<string>)
    requires FileNames(cs) && cs != []
    ensures Canon(Joined(cs) + "/") == Joined(cs) + "/"
  {
    var s := Joined(cs);
    JoinedSplits(cs);
    TextOfJoined(cs);
    SplitJoins(s, "");
    assert s + "/" + "" == s + "/" && (s + "/")[0] == s[0];
    ResolveNames([], cs);
    ResolveJoin([], cs, [""]);
    assert [] + cs == cs && Resolve(cs, [""]) == cs;
  }

  lemma SlashesAround(cs: seq<string>)
    requires FileNames(cs) && cs != []
    ensures Canon("/" + Joined(cs) + "/") == "/" + Joined(cs) + "/"
  {
    var s := Joined(cs);
    JoinedSplits(cs);
    TextOfJoined(cs);
    SplitJoins("/" + s, "");
    SplitAt("", s);
    assert "/" + s + "/" + "" == "/" + s + "/" && "" + "/" + s == "/" + s;
    FirstVanishes("", cs);
    ResolveNames([], cs);
    ResolveJoin([], [""] + cs, [""]);
    assert [] + cs == cs && Resolve(cs, [""]) == cs;
    assert "/" + (s + "/") == "/" + s + "/";
  }

  lemma FirstVanishes(c: string, cs: seq<string>)
    requires Vanishes(c)
    ensures Resolve([], [c] + cs) == Resolve([], cs)
  {
    assert ([c] + cs)[1..] == cs;
  }

  /* Rewriting. */

  /** A backslash is as good as a slash. */
  lemma BackslashIsSlash(p: string)
    ensures Canon(Slashed(p)) == Canon(p)
  {
    SlashedSplits(p);
    SameCanon(Slashed(p), p);
  }

  lemma {:induction false} SlashedSplits(p: string)
    ensures Split(Slashed(p)) == Split(p)
  {
    if p != "" {
      SlashedSplits(p[1..]);
      assert Slashed(p)[1..] == Slashed(p[1..]);
    }
  }

  /** Paths that start alike, lead to one place and end alike have one form. */
  lemma SameCanon(p: string, q: string)
    requires Rooted(p) == Rooted(q) && Place(p) == Place(q) && Vanishes(Last(p)) == Vanishes(Last(q))
    ensures Canon(p) == Canon(q)
  {
  }

  /** Components between two parts of a path that leave every stack as it was. */
  lemma Between(a: string, middle: string, b: string, cs: seq<string>)
    requires Split(middle) == cs && forall stack :: Resolve(stack, cs) == stack
    ensures Canon(a + "/" + middle + "/" + b) == Canon(a + "/" + b)
  {
    var p, q := a + "/" + middle + "/" + b, a + "/" + b;
    SplitJoins(a, b);
    SplitJoins(a + "/" + middle, b);
    SplitJoins(a, middle);
    ResolveJoin([], Split(a), Split(b));
    ResolveJoin([], Split(a) + cs, Split(b));
    ResolveJoin([], Split(a), cs);
    assert p[0] == q[0];
    SameCanon(p, q);
  }

  /** The same at the end of a path, whose last component vanishes either way. */
  lemma AtEnd(a: string, last: string, cs: seq<string>)
    requires Split(last) == cs && Vanishes(cs[|cs| - 1]) && forall stack :: Resolve(stack, cs) == stack
    ensures Canon(a + "/" + last) == Canon(a + "/")
  {
    var p, q := a + "/" + last, a + "/";
    SplitJoins(a, last);
    SplitJoins(a, "");
    assert a + "/" + "" == q;
    ResolveJoin([], Split(a), cs);
    ResolveJoin([], Split(a), [""]);
    assert Resolve(Resolve([], Split(a)), [""]) == Resolve([], Split(a));
    assert p[0] == q[0];
    SameCanon(p, q);
  }

  lemma DotStays()
    ensures Split(".") == ["."] && Split("") == [""]
    ensures forall stack :: Resolve(stack, ["."]) == stack && Resolve(stack, [""]) == stack
  {
    SplitAt(".", "");
    assert ["."][1..] == [] && [""][1..] == [];
  }

  lemma UpAndDown(name: string)
    requires FileName(name)
    ensures Split(name + "/..") == [name, ".."]
    ensures forall stack :: Resolve(stack, [name, ".."]) == stack
  {
    FileNameIsName(name);
    SplitAt(name, "..");
    SplitAt("..", "");
    assert name + "/" + ".." == name + "/..";
    forall stack: seq<string> ensures Resolve(stack, [name, ".."]) == stack {
      assert [name, ".."][1..] == [".."] && [".."][1..] == [];
      assert (stack + [name])[..|stack|] == stack;
    }
  }

  lemma DoubledSlash(a: string, b: string)
    ensures Canon(a + "//" + b) == Canon(a + "/" + b)
  {
    DotStays();
    Between(a, "", b, [""]);
    assert a + "/" + "" + "/" + b == a + "//" + b;
  }

  lemma DotBetween(a: string, b: string)
    ensures Canon(a + "/./" + b) == Canon(a + "/" + b)
  {
    DotStays();
    Between(a, ".", b, ["."]);
    assert a + "/" + "." + "/" + b == a + "/./" + b;
  }

  lemma DotAtEnd(a: string)
    ensures Canon(a + "/.") == Canon(a + "/")
  {
    DotStays();
    AtEnd(a, ".", ["."]);
    assert a + "/" + "." == a + "/.";
  }

  /** A doubled slash, and a dot, can be left out wherever they stand. */
  lemma NothingBetween(a: string, b: string)
    ensures Canon(a + "//" + b) == Canon(a + "/" + b)
    ensures Canon(a + "/./" + b) == Canon(a + "/" + b)
    ensures Canon(a + "/.") == Canon(a + "/")
  {
    DoubledSlash(a, b);
    DotBetween(a, b);
    DotAtEnd(a);
  }

  /** So can a name with two dots behind it. */
  lemma UpAgain(a: string, name: string, b: string)
    requires FileName(name)
    ensures Canon(a + "/" + name + "/../" + b) == Canon(a + "/" + b)
    ensures Canon(a + "/" + name + "/..") == Canon(a + "/")
  {
    UpAndDown(name);
    Between(a, name + "/..", b, [name, ".."]);
    AtEnd(a, name + "/..", [name, ".."]);
    assert a + "/" + (name + "/..") + "/" + b == a + "/" + name + "/../" + b;
    assert a + "/" + (name + "/..") == a + "/" + name + "/..";
  }

  /** Two dots at the root, where there is nothing to leave, can be left out. */
  lemma UpFromRoot(b: string)
    ensures Canon("/../" + b) == Canon("/" + b)
  {
    var cs := Split(b);
    SplitAt("..", b);
    SplitAt("", "../" + b);
    SplitAt("", b);
    assert ".." + "/" + b == "../" + b;
    assert "" + "/" + ("../" + b) == "/../" + b && "" + "/" + b == "/" + b;
    FirstVanishes("..", cs);
    FirstVanishes("", [".."] + cs);
    FirstVanishes("", cs);
    SameCanon("/../" + b, "/" + b);
  }

  lemma DropFirst(dots: string, b: string)
    requires (dots == "." || dots == "..") && b != "" && b[0] != '/' && b[0] != '\\'
    ensures Canon(dots + "/" + b) == Canon(b)
  {
    SplitAt(dots, b);
    FirstVanishes(dots, Split(b));
    assert (dots + "/" + b)[0] == '.';
    SameCanon(dots + "/" + b, b);
  }

  /** At the start of a relative path a dot, and two dots as well, are dropped with the
      slash behind them. */
  lemma DotsAtStart(b: string)
    requires b != "" && b[0] != '/' && b[0] != '\\'
    ensures Canon("../" + b) == Canon(b) && Canon("./" + b) == Canon(b)
  {
    DropFirst("..", b);
    DropFirst(".", b);
    assert ".." + "/" + b == "../" + b && "." + "/" + b == "./" + b;
  }
}
