/** The in-place path canonicaliser: a five-state machine over a written buffer
    that keeps a stack of components. */
module PathCanon {
  import opened PathSpec

  datatype State = Start | Separator | Normal | Dot1 | Dot2

  /** strchr also finds the terminating NUL of the separator string. */
  predicate StrChr(c: char) {
    c == '\0' || IsSep(c)
  }

  /* Reading a path character by character. */

  /** The stack on which the components before the last leave their names. */
  function Front(p: string): seq<string> {
    Resolve([], Split(p)[..|Split(p)| - 1])
  }

  lemma {:induction false} SplitSeparator(p: string, c: char)
    requires IsSep(c)
    ensures Split(p + [c]) == Split(p) + [""]
    decreases |p|
  {
    if p == "" {
      assert p + [c] == [c] && [c][1..] == "";
    } else {
      assert (p + [c])[1..] == p[1..] + [c];
      SplitSeparator(p[1..], c);
      assert (Split(p[1..]) + [""])[1..] == Split(p[1..])[1..] + [""];
    }
  }

  lemma {:induction false} SplitCharacter(p: string, c: char)
    requires !IsSep(c)
    ensures var cs := Split(p); Split(p + [c]) == cs[..|cs| - 1] + [cs[|cs| - 1] + [c]]
    decreases |p|
  {
    if p == "" {
      assert p + [c] == [c] && [c][1..] == "" && "" + [c] == [c] && [c] + "" == [c];
    } else {
      assert (p + [c])[1..] == p[1..] + [c];
      SplitCharacter(p[1..], c);
      PrependSplit(p[0], Split(p[1..]), c);
    }
  }

  /** A character in front of the first component and one behind the last. */
  lemma PrependSplit(first: char, cs: seq<string>, c: char)
    requires cs != []
    ensures var n, more := |cs| - 1, cs[..|cs| - 1] + [cs[|cs| - 1] + [c]];
            && [""] + more == ([""] + cs)[..n + 1] + [([""] + cs)[n + 1] + [c]]
            && var ds := [[first] + cs[0]] + cs[1..]; [[first] + more[0]] + more[1..] == ds[..n] + [ds[n] + [c]]
  {
    var n := |cs| - 1;
    if n == 0 {
      assert [first] + (cs[0] + [c]) == [first] + cs[0] + [c];
    }
  }

  lemma {:induction false} ResolveMore(stack: seq<string>, cs: seq<string>, c: string)
    ensures Resolve(stack, cs + [c]) == Push(Resolve(stack, cs), c)
    decreases |cs|
  {
    if cs == [] {
      assert ([] + [c])[1..] == [];
    } else {
      assert (cs + [c])[1..] == cs[1..] + [c];
      ResolveMore(Push(stack, cs[0]), cs[1..], c);
    }
  }

  /** A separator puts the last component on the stack; another character goes to
      the last component. */
  lemma ReadsOn(p: string, c: char)
    ensures IsSep(c) ==> Front(p + [c]) == Push(Front(p), Last(p)) && Last(p + [c]) == ""
    ensures !IsSep(c) ==> Front(p + [c]) == Front(p) && Last(p + [c]) == Last(p) + [c]
  {
    var cs := Split(p);
    var n := |cs| - 1;
    if IsSep(c) {
      SplitSeparator(p, c);
      assert (cs + [""])[..n + 1] == cs[..n] + [cs[n]];
      ResolveMore([], cs[..n], cs[n]);
    } else {
      SplitCharacter(p, c);
      assert (cs[..n] + [cs[n] + [c]])[..n] == cs[..n];
    }
  }

  /** The canonical form, from what has been read when the path ends. */
  lemma CanonOf(path: string)
    ensures Canon(path) == Root(path) + if Vanishes(Last(path)) then Text(Push(Front(path), Last(path))) else Text(Front(path)) + Last(path)
  {
    var cs := Split(path);
    var n := |cs| - 1;
    ResolveMore([], cs[..n], cs[n]);
    assert cs == cs[..n] + [cs[n]];
    if !Vanishes(cs[n]) {
      var above := Root(path) + (Text(Front(path)) + cs[n]);
      TextPush("", Front(path), cs[n]);
      assert Root(path) + Text(Place(path)) == above + "/";
    }
  }

  lemma TextPush(root: string, stack: seq<string>, cur: string)
    requires !Vanishes(cur)
    ensures root + Text(Push(stack, cur)) == root + Text(stack) + cur + "/"
  {
    assert (stack + [cur])[..|stack|] == stack;
  }

  /* The machine. */

  predicate Ends(path: string, i: nat) {
    i == |path| || (i < |path| && IsSep(path[i]))
  }

  /** What has been written when `path[..i]` has been read: the names of `stack`
      and, unless the separator is still to be read, the component `cur`. */
  predicate At(state: State, path: string, i: nat, out: string, stack: seq<string>, cur: string) {
    && path != "" && i <= |path| && Names(stack)
    && stack == Front(path[..i]) && cur == Last(path[..i])
    && match state
       case Start => i == 0 && out == "" && stack == [] && cur == ""
       case Separator => Vanishes(cur) && (cur != "" ==> Ends(path, i)) && out == Root(path) + Text(Push(stack, cur))
       case Normal => Name(cur) && out == Root(path) + Text(stack) + cur
       case Dot1 => cur == "." && out == Root(path) + Text(stack) + cur
       case Dot2 => cur == ".." && out == Root(path) + Text(stack) + cur
  }

  lemma AtStart(path: string)
    requires path != ""
    ensures At(Start, path, 0, "", [], "")
  {
    NothingRead(path);
  }

  lemma NothingRead(path: string)
    ensures Front(path[..0]) == [] && Last(path[..0]) == ""
  {
    assert path[..0] == "" && Split("") == [""] && Split("")[..0] == [];
  }

  /** The first character starts a rooted path, or a component. */
  lemma Begins(path: string)
    requires path != ""
    ensures IsSep(path[0]) ==> At(Separator, path, 1, "/", [], "")
    ensures !IsSep(path[0]) ==> At(Separator, path, 0, "", [], "")
  {
    NothingRead(path);
    Reads(path, 0);
    assert Push([], "") == [];
    assert "" + "" == "" && "/" + "" == "/";
  }

  /** The end of the path. */
  lemma Completes(state: State, path: string, out: string, stack: seq<string>, cur: string)
    requires At(state, path, |path|, out, stack, cur) && (state == Separator || state == Normal)
    ensures out == Canon(path)
  {
    assert path[..|path|] == path;
    CanonOf(path);
    assert Root(path) + Text(stack) + cur == Root(path) + (Text(stack) + cur);
  }

  lemma NamesPush(stack: seq<string>, cur: string)
    requires Names(stack) && (Vanishes(cur) || Name(cur))
    ensures Names(Push(stack, cur))
  {
  }

  lemma Reads(path: string, i: nat)
    requires i < |path|
    ensures IsSep(path[i]) ==> Front(path[..i + 1]) == Push(Front(path[..i]), Last(path[..i])) && Last(path[..i + 1]) == ""
    ensures !IsSep(path[i]) ==> Front(path[..i + 1]) == Front(path[..i]) && Last(path[..i + 1]) == Last(path[..i]) + [path[i]]
  {
    ReadsOn(path[..i], path[i]);
    assert path[..i] + [path[i]] == path[..i + 1];
  }

  /** A separator after a separator, or after a component already dropped. */
  lemma SkipsSeparator(path: string, i: nat, out: string, stack: seq<string>, cur: string)
    requires At(Separator, path, i, out, stack, cur) && i < |path| && IsSep(path[i])
    ensures At(Separator, path, i + 1, out, Push(stack, cur), "")
  {
    Reads(path, i);
    NamesPush(stack, cur);
  }

  /** A separator after a name. */
  lemma EndsName(path: string, i: nat, out: string, stack: seq<string>, cur: string)
    requires At(Normal, path, i, out, stack, cur) && i < |path| && IsSep(path[i])
    ensures At(Separator, path, i + 1, out + "/", Push(stack, cur), "")
  {
    Reads(path, i);
    NamesPush(stack, cur);
    TextPush(Root(path), stack, cur);
    assert Push(Push(stack, cur), "") == Push(stack, cur);
  }

  predicate Follows(before: State, c: char, after: State) {
    match before
    case Start => false
    case Separator => after == if c == '.' then Dot1 else Normal
    case Dot1 => after == if c == '.' then Dot2 else Normal
    case _ => after == Normal
  }

  /** Which components stop being special when a character is added. */
  lemma NameGrows(cur: string, c: char)
    requires !IsSep(c) && (forall k | 0 <= k < |cur| :: !IsSep(cur[k]))
    requires Name(cur) || cur == ".." || (cur == "." && c != '.') || (cur == "" && c != '.')
    ensures Name(cur + [c])
  {
    var more := cur + [c];
    assert more[|cur|] == c && more[..|cur|] == cur;
    assert |cur| == 2 ==> more != ".." && more != "." && more != "";
  }

  /** Any other character is copied. */
  lemma Copies(state: State, path: string, i: nat, out: string, stack: seq<string>, cur: string, next: State)
    requires At(state, path, i, out, stack, cur) && i < |path| && !IsSep(path[i])
    requires Follows(state, path[i], next)
    ensures At(next, path, i + 1, out + [path[i]], stack, cur + [path[i]])
  {
    var c := path[i];
    Reads(path, i);
    assert state == Separator ==> cur == "" && Push(stack, cur) == stack;
    if next == Normal {
      NameGrows(cur, c);
    }
    CopyText(Root(path) + Text(stack), cur, c);
  }

  lemma CopyText(above: string, cur: string, c: char)
    ensures above + (cur + [c]) == above + cur + [c]
    ensures above + "" == above
  {
  }

  /** A dot is dropped. */
  lemma DropsDot(path: string, i: nat, out: string, stack: seq<string>, cur: string)
    requires At(Dot1, path, i, out, stack, cur) && Ends(path, i)
    ensures At(Separator, path, i, out[..|out| - 1], stack, cur)
  {
    assert out[..|out| - 1] == Root(path) + Text(stack);
  }

  /** `up` is `all` without its last name and the slash after it. */
  predicate Above(all: string, up: string) {
    && |all| > |up| + 1 && all[..|up|] == up
    && (up != "" ==> up[|up| - 1] == '/')
    && (forall k | |up| <= k < |all| - 1 :: all[k] != '/')
  }

  lemma AboveName(up: string, last: string)
    requires Name(last) && (up == "" || up[|up| - 1] == '/')
    ensures Above(up + last + "/", up)
  {
    var all := up + last + "/";
    assert all[..|up|] == up && all[|up|..|all| - 1] == last;
    forall k | |up| <= k < |all| - 1
      ensures all[k] != '/'
    {
      assert all[k] == last[k - |up|];
    }
  }

  lemma LastName(root: string, stack: seq<string>)
    requires Names(stack) && (root == "" || root == "/")
    ensures var all, up := root + Text(stack), root + Text(Pop(stack));
            if |all| <= 1 then up == all else Above(all, up)
  {
    if stack != [] {
      TextEnds(Pop(stack));
      LastOf(root, Text(Pop(stack)), stack[|stack| - 1]);
    }
  }

  lemma TextEnds(stack: seq<string>)
    ensures stack == [] <==> Text(stack) == ""
    ensures stack != [] ==> Text(stack)[|Text(stack)| - 1] == '/'
  {
  }

  lemma LastOf(root: string, above: string, last: string)
    requires Name(last) && (root == "" || root == "/") && (above == "" || above[|above| - 1] == '/')
    ensures Above(root + (above + last + "/"), root + above)
  {
    AboveName(root + above, last);
    assert root + (above + last + "/") == root + above + last + "/";
  }

  /** Two dots are dropped with the name before them, if there is one. */
  lemma DropsName(path: string, i: nat, out: string, stack: seq<string>, cur: string)
    requires At(Dot2, path, i, out, stack, cur) && Ends(path, i)
    ensures |out| >= 2
    ensures var short, up := out[..|out| - 2], Root(path) + Text(Pop(stack));
            && (if |short| <= 1 then short == up else Above(short, up))
            && At(Separator, path, i, up, stack, cur)
  {
    assert out[..|out| - 2] == Root(path) + Text(stack);
    LastName(Root(path), stack);
  }

  /* How much room a path needs. */

  /** What stands in the buffer when `p` has been read, its last component written
      out even if it is going to vanish. */
  function Raw(p: string): string {
    Root(p) + Text(Front(p)) + Last(p)
  }

  /** The room taken by the first `i` characters of the path. */
  function Room(path: string, i: nat): nat
    requires i <= |path|
  {
    |Raw(path[..i])|
  }

  /** The buffer is too short for what is written after some part of the path. */
  predicate Overflows(path: string, n: nat) {
    exists i :: 0 <= i <= |path| && Room(path, i) >= n
  }

  /** What is written so far fitted, up to the part of the path just read; a
      component that has been dropped fitted too. */
  predicate Fitted(path: string, n: nat, state: State, s: nat, cur: string) {
    && s <= |path|
    && (forall j | 0 <= j < s :: Room(path, j) < n)
    && (state == Separator && cur != "" ==> Room(path, s) < n)
  }

  /** What is in the buffer is what has been written, less what was dropped. */
  lemma WrittenIsRaw(state: State, path: string, s: nat, out: string, stack: seq<string>, cur: string)
    requires At(state, path, s, out, stack, cur)
    requires s > 0 || state == Start || !Rooted(path)
    ensures |out| <= |Raw(path[..s])|
    ensures !(state == Separator && cur != "") ==> out == Raw(path[..s])
  {
    assert s > 0 ==> Root(path[..s]) == Root(path);
    assert Root("") == "" && Text([]) == "";
    if state == Separator {
      PushShort(stack, cur);
    }
  }

  lemma PushShort(stack: seq<string>, cur: string)
    requires Vanishes(cur)
    ensures |Text(Push(stack, cur))| <= |Text(stack)|
    ensures cur == "" ==> Text(Push(stack, cur)) == Text(stack) && Text(stack) + cur == Text(stack)
  {
  }

  /** One more character read, when all before it fitted. */
  lemma FitsOn(state: State, path: string, s: nat, out: string, stack: seq<string>, cur: string, n: nat, next: State)
    requires At(state, path, s, out, stack, cur) && Fitted(path, n, state, s, cur) && |out| < n && s < |path|
    requires s > 0 || state == Start || !Rooted(path)
    ensures IsSep(path[s]) ==> Fitted(path, n, Separator, s + 1, "")
    ensures !IsSep(path[s]) && next != Separator ==> Fitted(path, n, next, s + 1, cur + [path[s]])
  {
    HereFits(state, path, s, out, stack, cur, n);
  }

  lemma HereFits(state: State, path: string, s: nat, out: string, stack: seq<string>, cur: string, n: nat)
    requires At(state, path, s, out, stack, cur) && Fitted(path, n, state, s, cur) && |out| < n
    requires s > 0 || state == Start || !Rooted(path)
    ensures Room(path, s) < n && forall j | 0 <= j < s + 1 :: Room(path, j) < n
  {
    WrittenIsRaw(state, path, s, out, stack, cur);
  }

  /** Steps dst back over a name and its slash, to the buffer's start or to just
      behind the slash before. */
  method DropLast(dst: array<char>, d: nat, ghost up: string) returns (e: nat)
    requires d <= dst.Length && if d <= 1 then dst[..d] == up else Above(dst[..d], up)
    ensures e <= d && dst[..e] == up
  {
    e := d;
    if d == 0 || d - 1 == 0 {
      return;
    }
    assert forall k | |up| <= k < d - 1 :: dst[k] == dst[..d][k];
    assert |up| > 0 ==> dst[|up| - 1] == dst[..d][|up| - 1] == '/';
    e := d - 1;
    var prev := e - 1;
    while e > 0 && dst[prev] != '/'
      invariant |up| <= e < d && prev == e - 1
      decreases e
    {
      e := e - 1;
      prev := e - 1;
    }
    assert dst[..e] == dst[..d][..e];
  }

  /** Where the machine is: `state`, with `s` characters read and `d` written. */
  ghost predicate Reached(path: string, dst: array<char>, state: State, s: nat, d: nat, stack: seq<string>, cur: string)
    reads dst
  {
    && d <= s <= |path| && d <= dst.Length && At(state, path, s, dst[..d], stack, cur)
    && Fitted(path, dst.Length, state, s, cur) && (s > 0 || state == Start || !Rooted(path))
  }

  ghost predicate Written(path: string, dst: array<char>, d: nat)
    reads dst
  {
    d <= |path| && d < dst.Length && dst[..d] == Canon(path) && dst[d] == '\0'
  }

  /** What no step touches. */
  twostate predicate TailKept(path: string, dst: array<char>)
    reads dst
  {
    forall k | |path| < k < dst.Length :: dst[k] == old(dst[k])
  }

  /** Writes a character, as `*dst++ = c` does. */
  method Put(dst: array<char>, d: nat, c: char) returns (e: nat)
    requires d < dst.Length
    modifies dst
    ensures e == d + 1 && dst[..e] == old(dst[..d]) + [c]
    ensures forall k | 0 <= k < dst.Length && k != d :: dst[k] == old(dst[k])
  {
    dst[d] := c;
    return d + 1;
  }

  /** Writes the terminating NUL over whatever followed the result. */
  method Terminate(path: string, dst: array<char>, d: nat)
    requires d <= |path| && d < dst.Length && dst[..d] == Canon(path)
    modifies dst
    ensures Written(path, dst, d) && TailKept(path, dst)
  {
    dst[d] := '\0';
    assert dst[..d] == old(dst[..d]);
  }

  /** A character that is neither a separator nor NUL. */
  method CopyStep(path: string, dst: array<char>, state: State, s: nat, d: nat, next: State, ghost stack: seq<string>, ghost cur: string)
    returns (e: nat, ghost cur': string)
    requires Reached(path, dst, state, s, d, stack, cur) && s < |path| && d < dst.Length
    requires !IsSep(path[s]) && Follows(state, path[s], next)
    modifies dst
    ensures Reached(path, dst, next, s + 1, e, stack, cur') && TailKept(path, dst)
  {
    Copies(state, path, s, dst[..d], stack, cur, next);
    FitsOn(state, path, s, dst[..d], stack, cur, dst.Length, next);
    cur' := cur + [path[s]];
    e := Put(dst, d, path[s]);
  }

  method NormalStep(path: string, dst: array<char>, s: nat, d: nat, ghost stack: seq<string>, ghost cur: string)
    returns (state: State, e: nat, ghost stack': seq<string>, ghost cur': string)
    requires Reached(path, dst, Normal, s, d, stack, cur) && s < |path| && d < dst.Length && path[s] != '\0'
    modifies dst
    ensures Reached(path, dst, state, s + 1, e, stack', cur') && state != Start && TailKept(path, dst)
  {
    if StrChr(path[s]) {
      EndsName(path, s, dst[..d], stack, cur);
      FitsOn(Normal, path, s, dst[..d], stack, cur, dst.Length, Normal);
      state, stack', cur' := Separator, Push(stack, cur), "";
      e := Put(dst, d, '/');
    } else {
      state, stack' := Normal, stack;
      e, cur' := CopyStep(path, dst, Normal, s, d, Normal, stack, cur);
    }
  }

  method SeparatorStep(path: string, dst: array<char>, s: nat, d: nat, ghost stack: seq<string>, ghost cur: string)
    returns (state: State, e: nat, ghost stack': seq<string>, ghost cur': string)
    requires Reached(path, dst, Separator, s, d, stack, cur) && s < |path| && d < dst.Length && path[s] != '\0'
    modifies dst
    ensures Reached(path, dst, state, s + 1, e, stack', cur') && state != Start && TailKept(path, dst)
  {
    if StrChr(path[s]) {
      SkipsSeparator(path, s, dst[..d], stack, cur);
      FitsOn(Separator, path, s, dst[..d], stack, cur, dst.Length, Normal);
      state, e, stack', cur' := Separator, d, Push(stack, cur), "";
    } else {
      state, stack' := if path[s] == '.' then Dot1 else Normal, stack;
      e, cur' := CopyStep(path, dst, Separator, s, d, state, stack, cur);
    }
  }

  lemma DotDropped(path: string, dst: array<char>, s: nat, d: nat, stack: seq<string>, cur: string)
    requires Reached(path, dst, Dot1, s, d, stack, cur) && Ends(path, s) && d < dst.Length
    ensures d > 0 && Reached(path, dst, Separator, s, d - 1, stack, cur)
  {
    DropsDot(path, s, dst[..d], stack, cur);
    HereFits(Dot1, path, s, dst[..d], stack, cur, dst.Length);
    assert dst[..d][..d - 1] == dst[..d - 1];
  }

  lemma DropsTo(path: string, dst: array<char>, s: nat, d: nat, stack: seq<string>, cur: string)
    requires Reached(path, dst, Dot2, s, d, stack, cur) && Ends(path, s) && d < dst.Length
    ensures var up := Root(path) + Text(Pop(stack));
            && d >= 2 && (if d - 2 <= 1 then dst[..d - 2] == up else Above(dst[..d - 2], up))
            && forall e: nat | e <= d - 2 && dst[..e] == up :: Reached(path, dst, Separator, s, e, stack, cur)
  {
    DropsName(path, s, dst[..d], stack, cur);
    DroppedFitted(path, dst, s, d, stack, cur);
    assert dst[..d - 2] == dst[..d][..d - 2];
  }

  lemma DroppedFitted(path: string, dst: array<char>, s: nat, d: nat, stack: seq<string>, cur: string)
    requires Reached(path, dst, Dot2, s, d, stack, cur) && d < dst.Length
    ensures Fitted(path, dst.Length, Separator, s, cur)
  {
    HereFits(Dot2, path, s, dst[..d], stack, cur, dst.Length);
  }

  /** Two dots at the end of a component: nothing is read. */
  method DropStep(path: string, dst: array<char>, s: nat, d: nat, ghost stack: seq<string>, ghost cur: string) returns (e: nat)
    requires Reached(path, dst, Dot2, s, d, stack, cur) && Ends(path, s) && d < dst.Length
    ensures Reached(path, dst, Separator, s, e, stack, cur)
  {
    ghost var up := Root(path) + Text(Pop(stack));
    DropsTo(path, dst, s, d, stack, cur);
    e := DropLast(dst, d - 2, up);
  }

  /** A component that is one dot so far. */
  method Dot1Step(path: string, dst: array<char>, s: nat, d: nat, ghost stack: seq<string>, ghost cur: string)
    returns (state: State, t: nat, e: nat, ghost cur': string)
    requires Reached(path, dst, Dot1, s, d, stack, cur) && s < |path| && d < dst.Length && path[s] != '\0'
    modifies dst
    ensures Reached(path, dst, state, t, e, stack, cur') && state != Start && TailKept(path, dst)
    ensures t == s + 1 || (t == s && state == Separator)
  {
    if StrChr(path[s]) {
      DotDropped(path, dst, s, d, stack, cur);
      state, t, e, cur' := Separator, s, d - 1, cur;
    } else {
      state, t := if path[s] == '.' then Dot2 else Normal, s + 1;
      e, cur' := CopyStep(path, dst, Dot1, s, d, state, stack, cur);
    }
  }

  /** A component that is two dots so far. */
  method Dot2Step(path: string, dst: array<char>, s: nat, d: nat, ghost stack: seq<string>, ghost cur: string)
    returns (state: State, t: nat, e: nat, ghost cur': string)
    requires Reached(path, dst, Dot2, s, d, stack, cur) && d < dst.Length && '\0' !in path
    modifies dst
    ensures Reached(path, dst, state, t, e, stack, cur') && state != Start && TailKept(path, dst)
    ensures t == s + 1 || (t == s && state == Separator)
  {
    if s == |path| || StrChr(path[s]) {
      state, t, cur' := Separator, s, cur;
      e := DropStep(path, dst, s, d, stack, cur);
    } else {
      state, t := Normal, s + 1;
      e, cur' := CopyStep(path, dst, Dot2, s, d, state, stack, cur);
    }
  }

  /** The machine has run out of room. */
  lemma RanOut(path: string, dst: array<char>, state: State, s: nat, d: nat, stack: seq<string>, cur: string)
    requires Reached(path, dst, state, s, d, stack, cur) && d == dst.Length
    ensures Overflows(path, dst.Length) && dst.Length <= |path|
  {
    WrittenIsRaw(state, path, s, dst[..d], stack, cur);
    assert Room(path, s) >= dst.Length;
  }

  /** The end of the path is reached with room for the NUL. */
  lemma NeverOverflowed(path: string, dst: array<char>, state: State, d: nat, stack: seq<string>, cur: string)
    requires Reached(path, dst, state, |path|, d, stack, cur) && d < dst.Length
    ensures !Overflows(path, dst.Length)
  {
    HereFits(state, path, |path|, dst[..d], stack, cur, dst.Length);
  }

  /** At the NUL behind a component that is to stay, or behind one dropped. */
  method Finished(path: string, dst: array<char>, state: State, d: nat, ghost stack: seq<string>, ghost cur: string) returns (r: int)
    requires Reached(path, dst, state, |path|, d, stack, cur) && d < dst.Length && (state == Separator || state == Normal)
    modifies dst
    ensures r == d && Written(path, dst, r) && TailKept(path, dst) && !Overflows(path, dst.Length)
  {
    NeverOverflowed(path, dst, state, d, stack, cur);
    Completes(state, path, dst[..d], stack, cur);
    Terminate(path, dst, d);
    r := d;
  }

  /** The NUL, in any of the states that stop there. */
  method AtNul(path: string, dst: array<char>, state: State, d: nat, ghost stack: seq<string>, ghost cur: string) returns (r: int)
    requires Reached(path, dst, state, |path|, d, stack, cur) && d < dst.Length && (state == Separator || state == Normal || state == Dot1)
    modifies dst
    ensures r >= 0 && Written(path, dst, r) && TailKept(path, dst) && !Overflows(path, dst.Length)
  {
    if state == Dot1 {
      DotDropped(path, dst, |path|, d, stack, cur);
      r := Finished(path, dst, Separator, d - 1, stack, cur);
    } else {
      r := Finished(path, dst, state, d, stack, cur);
    }
  }

  /** Any other character. */
  method AtCharacter(path: string, dst: array<char>, state: State, s: nat, d: nat, ghost stack: seq<string>, ghost cur: string)
    returns (next: State, t: nat, e: nat, ghost stack': seq<string>, ghost cur': string)
    requires Reached(path, dst, state, s, d, stack, cur) && state != Start && d < dst.Length && '\0' !in path
    requires s < |path| || state == Dot2
    modifies dst
    ensures Reached(path, dst, next, t, e, stack', cur') && next != Start && TailKept(path, dst)
    ensures t == s + 1 || (t == s && next == Separator && (state == Dot1 || state == Dot2))
  {
    stack', cur', t := stack, cur, s + 1;
    match state
    case Separator => next, e, stack', cur' := SeparatorStep(path, dst, s, d, stack, cur);
    case Normal => next, e, stack', cur' := NormalStep(path, dst, s, d, stack, cur);
    case Dot1 => next, t, e, cur' := Dot1Step(path, dst, s, d, stack, cur);
    case Dot2 => next, t, e, cur' := Dot2Step(path, dst, s, d, stack, cur);
  }

  /** The first character, at the first turn. */
  lemma Started(path: string, n: nat)
    requires path != "" && n > 0
    ensures IsSep(path[0]) ==> Fitted(path, n, Separator, 1, "")
    ensures !IsSep(path[0]) ==> Fitted(path, n, Separator, 0, "")
  {
    NothingRead(path);
    assert path[..0] == "" && Root("") == "";
  }

  /** A path that starts with a separator, or is empty. */
  method StartRooted(path: string, dst: array<char>) returns (d: nat)
    requires dst.Length > 0 && (path != "" ==> IsSep(path[0]))
    modifies dst
    ensures d == 1 && TailKept(path, dst)
    ensures path != "" ==> Reached(path, dst, Separator, 1, d, [], "")
  {
    if path != "" {
      Begins(path);
      Started(path, dst.Length);
    }
    d := Put(dst, 0, '/');
  }

  lemma StartsHere(path: string, dst: array<char>)
    requires dst.Length > 0 && path != "" && !IsSep(path[0])
    ensures Reached(path, dst, Separator, 0, 0, [], "")
  {
    Begins(path);
    Started(path, dst.Length);
  }

  /** How far a turn has got: each one reads on or leaves a special component. */
  function Distance(path: string, state: State, s: nat): int {
    2 * (|path| - s) + if state == Dot1 || state == Dot2 then 1 else 0
  }

  /** One turn of the loop, once started: `done` is the result, or negative. */
  method Turn(path: string, dst: array<char>, state: State, s: nat, d: nat, ghost stack: seq<string>, ghost cur: string)
    returns (next: State, t: nat, e: nat, ghost stack': seq<string>, ghost cur': string, done: int)
    requires Reached(path, dst, state, s, d, stack, cur) && state != Start && d < dst.Length && '\0' !in path
    modifies dst
    ensures TailKept(path, dst)
    ensures done >= 0 ==> Written(path, dst, done) && !Overflows(path, dst.Length)
    ensures done < 0 ==> Reached(path, dst, next, t, e, stack', cur') && next != Start
    ensures done < 0 ==> Distance(path, next, t) < Distance(path, state, s)
  {
    next, t, e, stack', cur', done := state, s, d, stack, cur, -1;
    if s == |path| && state != Dot2 {
      done := AtNul(path, dst, state, d, stack, cur);
    } else {
      next, t, e, stack', cur' := AtCharacter(path, dst, state, s, d, stack, cur);
    }
  }

  /** Writes the canonical form and returns its length, for any path that is not
      empty, unless the buffer is too short for what is written meanwhile; a buffer
      that holds the path and its NUL never is. An empty path is an error. Nothing
      is written behind the place of the path's NUL. */
  method Canonicalise(path: string, dst: array<char>) returns (r: int)
    requires '\0' !in path
    modifies dst
    ensures r >= 0 ==> Written(path, dst, r)
    ensures r < 0 <==> path == "" || Overflows(path, dst.Length)
    ensures r < 0 ==> r == -1 && (path == "" || dst.Length <= |path|)
    ensures TailKept(path, dst)
  {
    var src := path + ['\0'];
    var s: nat, d: nat, state := 0, 0, Start;
    ghost var stack, cur := [], "";
    if path != "" {
      AtStart(path);
    }
    while s < |src| && d < dst.Length
      invariant s <= |src| && d <= dst.Length
      invariant path == "" ==> d <= s && ((s == 0 && state == Start) || s == 1)
      invariant path != "" ==> Reached(path, dst, state, s, d, stack, cur)
      invariant TailKept(path, dst)
      decreases if state == Start then 1 else 0, Distance(path, state, s)
    {
      var c := src[s];
      if state == Start {
        state := Separator;
        if StrChr(c) {
          d := StartRooted(path, dst);
          s := s + 1;
          continue;
        }
        StartsHere(path, dst);
      }
      var done: int;
      state, s, d, stack, cur, done := Turn(path, dst, state, s, d, stack, cur);
      if done >= 0 {
        return done;
      }
    }
    if path != "" {
      RanOut(path, dst, state, s, d, stack, cur);
    }
    return -1;
  }

  /** Only a leading slash makes a path absolute here. */
  predicate Absolute(path: string) {
    path != "" && path[0] == '/'
  }

  /** The path object for a path relative to the working directory: its buffer is
      always long enough. */
  method NewPath(path: string, cwd: string) returns (abs: string)
    requires '\0' !in path && '\0' !in cwd
    ensures abs == Canon(if Absolute(path) then path else cwd + "/" + path)
  {
    var full := if Absolute(path) then path else cwd + "/" + path;
    var canon := new char[|full| + 1];
    var n := Canonicalise(full, canon);
    return canon[..n];
  }
}
