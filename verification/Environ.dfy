/** The environment block for a child process: the caller's entries without the
    program's own, and one entry for every property that is exported. */
module Environ {
  import Letters
  import opened Options
  import opened Radix
  import opened Strings

  /** A property of the program; only those with a value that are marked so go
      into the environment. */
  datatype Prop = Prop(name: string, value: Option<string>, exported: bool)

  /** The size of a pointer. */
  const WORD := 8

  /** The size of the buffer for a property's name, its NUL included. */
  const NAME_MAX := 128

  /* The entries. */

  /** An entry of the program's own, with or without the leading underscore; the
      prefix has at least the two underscores around the program's name. */
  predicate Matches(prefix: string, entry: string)
    requires |prefix| > 1
  {
    StartsWith(entry, prefix) || StartsWith(entry, prefix[1..])
  }

  function EvChar(c: char): char {
    if c == '.' then '_' else if 'a' <= c <= 'z' then (c as int - 32) as char else c
  }

  function EvText(s: string): string {
    seq(|s|, i requires 0 <= i < |s| => EvChar(s[i]))
  }

  /** What snprintf leaves in the name buffer. */
  function Cut(s: string): string {
    if |s| < NAME_MAX then s else s[..NAME_MAX - 1]
  }

  /** The environment's name for a property. */
  function ToEv(prefix: string, name: string): string {
    EvText(Cut(prefix + name))
  }

  /** The name in capitals, with underscores for dots, up to 127 characters of it. */
  lemma NameMeans(prefix: string, name: string, i: nat)
    requires i < |ToEv(prefix, name)|
    ensures |ToEv(prefix, name)| == if |prefix + name| <= 127 then |prefix + name| else 127
    ensures var c, e := (prefix + name)[i], ToEv(prefix, name)[i];
            && (c == '.' ==> e == '_')
            && (forall k | 0 <= k < 26 :: c == Letters.SMALL[k] ==> e == Letters.CAPITALS[k])
            && (c != '.' && c !in Letters.SMALL ==> e == c)
  {
    var c, e := (prefix + name)[i], ToEv(prefix, name)[i];
    assert e == EvChar(c);
    Letters.Small(c);
    Letters.Capitals(e);
  }

  predicate Goes(p: Prop) {
    p.value.Some? && p.exported
  }

  function Assignment(prefix: string, p: Prop): string
    requires Goes(p)
  {
    ToEv(prefix, p.name) + "=" + p.value.value
  }

  function Kept(prefix: string, env: seq<string>): seq<string>
    requires |prefix| > 1
  {
    if env == [] then []
    else
      var rest := Kept(prefix, env[..|env| - 1]);
      if Matches(prefix, env[|env| - 1]) then rest else rest + [env[|env| - 1]]
  }

  function Exported(prefix: string, props: seq<Prop>): seq<string> {
    if props == [] then []
    else
      var rest := Exported(prefix, props[..|props| - 1]);
      if Goes(props[|props| - 1]) then rest + [Assignment(prefix, props[|props| - 1])] else rest
  }

  function Entries(prefix: string, env: seq<string>, props: seq<Prop>): seq<string>
    requires |prefix| > 1
  {
    Kept(prefix, env) + Exported(prefix, props)
  }

  /* Room. */

  /** The bytes of strings with their NULs. */
  function Bytes(s: seq<string>): nat {
    if s == [] then 0 else Bytes(s[..|s| - 1]) + |s[|s| - 1]| + 1
  }

  /** What the block must hold: the pointer to the strings, a pointer per entry,
      a null pointer, and the strings. */
  function Need(entries: seq<string>): nat {
    WORD * (|entries| + 2) + Bytes(entries)
  }

  /** What is asked for: as if no entry were left out. */
  function Room(prefix: string, env: seq<string>, props: seq<Prop>): nat {
    Bytes(env) + WORD * |env| + Bytes(Exported(prefix, props)) + WORD * |Exported(prefix, props)| + 2 * WORD
  }

  lemma {:induction false} BytesJoin(a: seq<string>, b: seq<string>)
    ensures Bytes(a + b) == Bytes(a) + Bytes(b)
    decreases |b|
  {
    if b == [] {
      assert a + b == a;
    } else {
      var n := |b| - 1;
      assert (a + b)[..|a + b| - 1] == a + b[..n] && (a + b)[|a + b| - 1] == b[n];
      BytesJoin(a, b[..n]);
    }
  }

  lemma {:induction false} KeptFits(prefix: string, env: seq<string>)
    requires |prefix| > 1
    ensures |Kept(prefix, env)| <= |env| && Bytes(Kept(prefix, env)) <= Bytes(env)
    decreases |env|
  {
    if env != [] {
      var n := |env| - 1;
      KeptFits(prefix, env[..n]);
      var rest := Kept(prefix, env[..n]);
      assert (rest + [env[n]])[..|rest|] == rest;
    }
  }

  /** The block asked for is big enough. */
  lemma BlockFits(prefix: string, env: seq<string>, props: seq<Prop>)
    requires |prefix| > 1
    ensures Need(Entries(prefix, env, props)) <= Room(prefix, env, props)
  {
    KeptFits(prefix, env);
    BytesJoin(Kept(prefix, env), Exported(prefix, props));
  }

  /* Order. */

  predicate LessEq(a: string, b: string) {
    a == b || Less(a, b)
  }

  predicate Sorted(s: seq<string>) {
    forall i, j {:trigger s[i], s[j]} | 0 <= i < j < |s| :: LessEq(s[i], s[j])
  }

  lemma SameFirst(a: seq<string>, b: seq<string>)
    requires Sorted(a) && Sorted(b) && a != [] && b != [] && multiset(a) == multiset(b)
    ensures a[0] == b[0]
  {
    var x, y := a[0], b[0];
    assert x in multiset(b) && y in multiset(a);
    FirstIsLeast(a, y);
    FirstIsLeast(b, x);
    LessIsOrder(x, y, x);
  }

  /** A sorted sequence is determined by what it holds. */
  lemma {:induction false} SortedIsUnique(a: seq<string>, b: seq<string>)
    requires Sorted(a) && Sorted(b) && multiset(a) == multiset(b)
    ensures a == b
    decreases |a|
  {
    assert |multiset(a)| == |a| && |multiset(b)| == |b|;
    if a != [] {
      SameFirst(a, b);
      assert a == [a[0]] + a[1..] && b == [b[0]] + b[1..];
      assert multiset(a[1..]) == multiset(a) - multiset{a[0]};
      assert multiset(b[1..]) == multiset(b) - multiset{a[0]};
      SortedIsUnique(a[1..], b[1..]);
    }
  }

  lemma FirstIsLeast(s: seq<string>, x: string)
    requires Sorted(s) && x in s
    ensures LessEq(s[0], x)
  {
    var i :| 0 <= i < |s| && s[i] == x;
    assert i > 0 ==> LessEq(s[0], s[i]);
  }

  /** What a child gets: the entries, sorted. */
  ghost predicate IsEnvironment(out: seq<string>, prefix: string, env: seq<string>, props: seq<Prop>)
    requires |prefix| > 1
  {
    Sorted(out) && multiset(out) == multiset(Entries(prefix, env, props))
  }

  lemma {:induction false} KeptIsFilter(prefix: string, env: seq<string>, x: string)
    requires |prefix| > 1
    ensures multiset(Kept(prefix, env))[x] == if Matches(prefix, x) then 0 else multiset(env)[x]
    decreases |env|
  {
    if env != [] {
      var n := |env| - 1;
      assert env == env[..n] + [env[n]];
      KeptIsFilter(prefix, env[..n], x);
    }
  }

  /** An entry is the program's own if it is the prefix, perhaps without its first
      character, and something behind it. */
  lemma MatchesMeans(prefix: string, entry: string, rest: string)
    requires |prefix| > 1
    ensures Matches(prefix, prefix + rest) && Matches(prefix, prefix[1..] + rest)
    ensures Matches(prefix, entry) ==> exists r :: entry == prefix + r || entry == prefix[1..] + r
  {
    assert (prefix + rest)[..|prefix|] == prefix && (prefix[1..] + rest)[..|prefix| - 1] == prefix[1..];
    if StartsWith(entry, prefix) {
      assert entry == prefix + entry[|prefix|..];
    } else if Matches(prefix, entry) {
      assert entry == prefix[1..] + entry[|prefix| - 1..];
    }
  }

  /** Of the properties just those with a value that are marked for export are
      exported, one by one, in their order. */
  lemma {:induction false} ExportedMeans(prefix: string, a: seq<Prop>, p: Prop, b: seq<Prop>)
    ensures var entry := if p.exported && p.value != None then [ToEv(prefix, p.name) + "=" + p.value.value] else [];
            Exported(prefix, a + [p] + b) == Exported(prefix, a) + entry + Exported(prefix, b)
    decreases |b|
  {
    var all, n := a + [p] + b, |a| + |b|;
    if b == [] {
      assert all[..n] == a && all[n] == p;
    } else {
      ExportedMeans(prefix, a, p, b[..|b| - 1]);
      assert all[..n] == a + [p] + b[..|b| - 1] && all[n] == b[|b| - 1];
    }
  }

  /** The prefix as it stands in an environment, such as _AO_, and in its own
      buffer, which is no longer than that for names. */
  predicate EvPrefix(prefix: string) {
    1 < |prefix| < NAME_MAX && EvText(prefix) == prefix
  }

  lemma {:induction false} ExportedMatch(prefix: string, props: seq<Prop>)
    requires EvPrefix(prefix)
    ensures forall e | e in Exported(prefix, props) :: Matches(prefix, e)
    decreases |props|
  {
    if props != [] {
      var p := props[|props| - 1];
      ExportedMatch(prefix, props[..|props| - 1]);
      if Goes(p) {
        var e := Assignment(prefix, p);
        assert Cut(prefix + p.name)[..|prefix|] == prefix;
        assert e[..|prefix|] == EvText(prefix);
      }
    }
  }

  /** A child that passes its environment on passes on the same one. */
  lemma EnvironmentIsStable(prefix: string, env: seq<string>, props: seq<Prop>, out: seq<string>, again: seq<string>)
    requires EvPrefix(prefix) && IsEnvironment(out, prefix, env, props) && IsEnvironment(again, prefix, out, props)
    ensures again == out
  {
    ExportedMatch(prefix, props);
    var own := Exported(prefix, props);
    forall x: string
      ensures multiset(Kept(prefix, out))[x] == multiset(Kept(prefix, env))[x]
    {
      KeptIsFilter(prefix, out, x);
      KeptIsFilter(prefix, env, x);
      assert multiset(out)[x] == multiset(Kept(prefix, env))[x] + multiset(own)[x];
      assert !Matches(prefix, x) ==> x !in own;
    }
    assert multiset(Kept(prefix, out)) == multiset(Kept(prefix, env));
    SortedIsUnique(again, out);
  }

  /* The size, and the block. */

  lemma KeptOne(prefix: string, env: seq<string>, i: nat)
    requires |prefix| > 1 && i < |env|
    ensures Kept(prefix, env[..i + 1]) == if Matches(prefix, env[i]) then Kept(prefix, env[..i]) else Kept(prefix, env[..i]) + [env[i]]
    ensures Bytes(env[..i + 1]) == Bytes(env[..i]) + |env[i]| + 1
  {
    assert env[..i + 1][..i] == env[..i];
  }

  lemma ExportedOne(prefix: string, props: seq<Prop>, i: nat)
    requires i < |props|
    ensures Exported(prefix, props[..i + 1])
            == if Goes(props[i]) then Exported(prefix, props[..i]) + [Assignment(prefix, props[i])] else Exported(prefix, props[..i])
  {
    assert props[..i + 1][..i] == props[..i];
  }

  method BlockSize(prefix: string, env: seq<string>, props: seq<Prop>) returns (size: nat)
    requires |prefix| > 1
    ensures size == Room(prefix, env, props)
  {
    size := 0;
    var i := 0;
    while i < |env|
      invariant 0 <= i <= |env| && size == Bytes(env[..i]) + WORD * i
    {
      KeptOne(prefix, env, i);
      size := size + |env[i]| + 1;
      size := size + WORD;
      i := i + 1;
    }
    assert env[..i] == env;
    size := size + WORD;
    ghost var base := size;
    i := 0;
    while i < |props|
      invariant 0 <= i <= |props|
      invariant var own := Exported(prefix, props[..i]); size == base + Bytes(own) + WORD * |own|
    {
      ExportedOne(prefix, props, i);
      var prop := props[i];
      if Goes(prop) {
        ghost var own := Exported(prefix, props[..i]);
        assert (own + [Assignment(prefix, prop)])[..|own|] == own;
        size := size + |ToEv(prefix, prop.name)| + |prop.value.value| + 2;
        size := size + WORD;
      }
      i := i + 1;
    }
    assert props[..i] == props;
    size := size + WORD;
  }

  /** The entries, collected in a temporary array. */
  method Collect(prefix: string, env: seq<string>, props: seq<Prop>) returns (entries: seq<string>)
    requires |prefix| > 1
    ensures entries == Entries(prefix, env, props)
  {
    entries := [];
    var i := 0;
    while i < |env|
      invariant 0 <= i <= |env| && entries == Kept(prefix, env[..i])
    {
      KeptOne(prefix, env, i);
      if !Matches(prefix, env[i]) {
        entries := entries + [env[i]];
      }
      i := i + 1;
    }
    assert env[..i] == env;
    ghost var kept := entries;
    i := 0;
    while i < |props|
      invariant 0 <= i <= |props| && entries == kept + Exported(prefix, props[..i])
    {
      ExportedOne(prefix, props, i);
      if Goes(props[i]) {
        entries := entries + [Assignment(prefix, props[i])];
      }
      i := i + 1;
    }
    assert props[..i] == props;
  }

  lemma LessEqIsOrder(a: string, b: string, c: string)
    ensures LessEq(a, b) || LessEq(b, a)
    ensures LessEq(a, b) && LessEq(b, c) ==> LessEq(a, c)
  {
    LessIsOrder(a, b, c);
  }

  predicate Below(s: seq<string>, x: string) {
    forall i {:trigger s[i]} | 0 <= i < |s| :: LessEq(s[i], x)
  }

  predicate Over(x: string, s: seq<string>) {
    forall i {:trigger s[i]} | 0 <= i < |s| :: LessEq(x, s[i])
  }

  lemma InsertedIsSorted(a: seq<string>, x: string, b: seq<string>)
    requires Sorted(a + b) && Below(a, x) && Over(x, b)
    ensures Sorted(a + [x] + b) && multiset(a + [x] + b) == multiset(a + b) + multiset{x}
  {
    var all, both := a + [x] + b, a + b;
    forall i, j {:trigger all[i], all[j]} | 0 <= i < j < |all|
      ensures LessEq(all[i], all[j])
    {
      if i == |a| {
        assert all[j] == b[j - |a| - 1];
      } else if j == |a| {
        assert all[i] == a[i];
      } else {
        assert all[i] == both[if i < |a| then i else i - 1] && all[j] == both[if j < |a| then j else j - 1];
      }
    }
  }

  /** A sort, as qsort with strcmp. */
  method Sort(s: seq<string>) returns (r: seq<string>)
    ensures Sorted(r) && multiset(r) == multiset(s)
  {
    r := [];
    var n := 0;
    while n < |s|
      invariant 0 <= n <= |s| && Sorted(r) && multiset(r) == multiset(s[..n])
    {
      var k := Place(r, s[n]);
      assert r[..k] + r[k..] == r;
      InsertedIsSorted(r[..k], s[n], r[k..]);
      assert s[..n + 1] == s[..n] + [s[n]];
      r := r[..k] + [s[n]] + r[k..];
      n := n + 1;
    }
    assert s[..n] == s;
  }

  method Place(r: seq<string>, x: string) returns (k: nat)
    requires Sorted(r)
    ensures k <= |r| && Below(r[..k], x) && Over(x, r[k..])
  {
    k := 0;
    while k < |r| && LessEq(r[k], x)
      invariant 0 <= k <= |r| && forall i {:trigger r[i]} | 0 <= i < k :: LessEq(r[i], x)
    {
      k := k + 1;
    }
    forall i {:trigger r[i]} | k <= i < |r|
      ensures LessEq(x, r[i])
    {
      LessEqIsOrder(x, r[k], r[i]);
      assert i > k ==> LessEq(r[k], r[i]);
    }
  }

  /** Strings one after another, each with its NUL. */
  function Pack(s: seq<string>): (r: string)
    ensures |r| == Bytes(s)
  {
    if s == [] then "" else Pack(s[..|s| - 1]) + s[|s| - 1] + ['\0']
  }

  lemma {:induction false} PackedAt(s: seq<string>, i: nat)
    requires i < |s| && forall j | 0 <= j < |s| :: '\0' !in s[j]
    ensures Bytes(s[..i]) + |s[i]| < |Pack(s)| && HoldsString(Pack(s)[Bytes(s[..i])..], s[i])
    decreases |s|
  {
    var n := |s| - 1;
    var upper := Pack(s[..n]);
    assert Pack(s) == upper + s[n] + ['\0'];
    if i < n {
      PackedAt(s[..n], i);
      assert s[..n][..i] == s[..i];
      var at := Bytes(s[..i]);
      assert Pack(s)[at..][..|s[i]|] == upper[at..][..|s[i]|];
      assert Pack(s)[at + |s[i]|] == upper[at..][|s[i]|];
    } else {
      assert s[..i] == s[..n];
    }
  }

  /** Pointer k is where string k lies, when they lie one after another. */
  ghost predicate Points(words: array<nat>, s: seq<string>, start: nat, k: nat)
    reads words
  {
    k < |s| && k + 1 < words.Length && words[k + 1] == start + Bytes(s[..k])
  }

  /** Pointer k is at a C string that is entry k. */
  ghost predicate Holds(words: array<nat>, chars: array<char>, s: seq<string>, k: nat)
    reads words, chars
  {
    && k < |s| && k + 1 < words.Length && words[k + 1] <= chars.Length
    && HoldsString(chars[words[k + 1]..], s[k])
  }

  /** A block of memory of `size` bytes, seen as pointers and as characters. The
      pointers are offsets; `words` and `chars` are the same bytes, so what is
      written as pointers lies before what is written as characters. */
  method FillBlock(words: array<nat>, chars: array<char>, sorted: seq<string>)
    requires chars.Length >= Need(sorted) && words.Length == chars.Length / WORD
    requires forall i | 0 <= i < |sorted| :: '\0' !in sorted[i]
    modifies words, chars
    ensures words[0] == WORD * (|sorted| + 2)
    ensures forall k {:trigger Holds(words, chars, sorted, k)} | 0 <= k < |sorted| :: Holds(words, chars, sorted, k)
    ensures words[|sorted| + 1] == old(words[|sorted| + 1])
    ensures chars[..WORD * (|sorted| + 2)] == old(chars[..WORD * (|sorted| + 2)])
  {
    var count := |sorted|;
    var start := WORD * (count + 2);
    var sp, i: nat := start, 0;
    while i < count
      invariant 0 <= i <= count && sp == start + Bytes(sorted[..i]) <= chars.Length
      invariant forall j {:trigger Points(words, sorted, start, j)} | 0 <= j < i :: Points(words, sorted, start, j)
      invariant words[count + 1] == old(words[count + 1])
      invariant chars[..start] == old(chars[..start]) && chars[start..sp] == Pack(sorted[..i])
    {
      PackMore(sorted, i);
      ghost var packed := chars[start..sp];
      CopyString(chars, sp, sorted[i]);
      PackedOn(chars, start, sp, sorted[i], packed);
      assert chars[..start] == old(chars[..start]);
      PointOn(words, sorted, start, i, sp);
      sp := sp + |sorted[i]| + 1;
      i := i + 1;
    }
    label Filled:
    words[0] := start;
    assert sorted[..i] == sorted;
    forall j | 0 <= j < count
      ensures Points(words, sorted, start, j)
    {
      assert old@Filled(Points(words, sorted, start, j));
    }
    AllPointed(words, chars, sorted, start, sp);
  }

  method PointOn(words: array<nat>, s: seq<string>, ghost start: nat, i: nat, sp: nat)
    requires i < |s| && |s| + 1 < words.Length && sp == start + Bytes(s[..i])
    requires forall j {:trigger Points(words, s, start, j)} | 0 <= j < i :: Points(words, s, start, j)
    modifies words
    ensures forall j {:trigger Points(words, s, start, j)} | 0 <= j < i + 1 :: Points(words, s, start, j)
    ensures words[|s| + 1] == old(words[|s| + 1])
  {
    words[i + 1] := sp;
    forall j | 0 <= j < i + 1
      ensures Points(words, s, start, j)
    {
      assert j < i ==> old(Points(words, s, start, j));
    }
  }

  lemma PackedOn(chars: array<char>, start: nat, sp: nat, s: string, packed: string)
    requires start <= sp && sp + |s| + 1 <= chars.Length
    requires chars[start..sp] == packed && chars[sp..sp + |s| + 1] == s + ['\0']
    ensures chars[start..sp + |s| + 1] == packed + s + ['\0']
  {
    assert chars[start..sp + |s| + 1] == chars[start..sp] + chars[sp..sp + |s| + 1];
  }

  lemma AllPointed(words: array<nat>, chars: array<char>, sorted: seq<string>, start: nat, end: nat)
    requires |sorted| < words.Length && start <= end <= chars.Length && chars[start..end] == Pack(sorted)
    requires forall j {:trigger Points(words, sorted, start, j)} | 0 <= j < |sorted| :: Points(words, sorted, start, j)
    requires forall i | 0 <= i < |sorted| :: '\0' !in sorted[i]
    ensures forall k {:trigger Holds(words, chars, sorted, k)} | 0 <= k < |sorted| :: Holds(words, chars, sorted, k)
  {
    forall k | 0 <= k < |sorted|
      ensures Holds(words, chars, sorted, k)
    {
      assert Points(words, sorted, start, k);
      PackedAt(sorted, k);
      InPack(chars, start, end, words[k + 1], sorted[k]);
    }
  }

  lemma PackMore(s: seq<string>, i: nat)
    requires i < |s|
    ensures Bytes(s[..i + 1]) == Bytes(s[..i]) + |s[i]| + 1 && Bytes(s[..i + 1]) <= Bytes(s)
    ensures Pack(s[..i + 1]) == Pack(s[..i]) + s[i] + ['\0']
  {
    assert s[..i + 1][..i] == s[..i];
    BytesJoin(s[..i + 1], s[i + 1..]);
    assert s[..i + 1] + s[i + 1..] == s;
  }

  lemma InPack(chars: array<char>, start: nat, end: nat, at: nat, text: string)
    requires start <= at <= end <= chars.Length && HoldsString(chars[start..end][at - start..], text)
    ensures HoldsString(chars[at..], text)
  {
    var packed := chars[start..end][at - start..];
    assert packed == chars[at..end];
    assert chars[at..][..|text|] == packed[..|text|] && chars[at..][|text|] == packed[|text|];
  }

  /** strcpy. */
  method CopyString(chars: array<char>, sp: nat, s: string)
    requires sp + |s| < chars.Length
    modifies chars
    ensures chars[..sp] == old(chars[..sp]) && chars[sp..sp + |s| + 1] == s + ['\0']
  {
    var k := 0;
    while k < |s|
      invariant 0 <= k <= |s| && chars[..sp] == old(chars[..sp]) && chars[sp..sp + k] == s[..k]
    {
      chars[sp + k] := s[k];
      assert chars[sp..sp + k + 1] == chars[sp..sp + k] + [s[k]];
      k := k + 1;
    }
    chars[sp + k] := '\0';
    assert chars[sp..sp + k + 1] == chars[sp..sp + k] + ['\0'];
  }

  /** The environment of a child, in a block of the size asked for: sorted, each
      pointer at its string, and ended by a null pointer if and only if the
      caller's block had one there. */
  method CustomEnv(prefix: string, env: seq<string>, props: seq<Prop>, words: array<nat>, chars: array<char>)
    returns (ghost out: seq<string>)
    requires |prefix| > 1 && chars.Length == Room(prefix, env, props) && words.Length == chars.Length / WORD
    requires forall e | e in Entries(prefix, env, props) :: '\0' !in e
    modifies words, chars
    ensures IsEnvironment(out, prefix, env, props) && words.Length > |out| + 1
    ensures forall k {:trigger Holds(words, chars, out, k)} | 0 <= k < |out| :: Holds(words, chars, out, k)
    ensures words[0] == WORD * (|out| + 2) <= chars.Length && words[|out| + 1] == old(words[|out| + 1])
    ensures chars[..WORD * (|out| + 2)] == old(chars[..WORD * (|out| + 2)])
  {
    var entries := Collect(prefix, env, props);
    var sorted := Sort(entries);
    SortKeepsNeed(entries, sorted);
    BlockFits(prefix, env, props);
    forall i | 0 <= i < |sorted|
      ensures '\0' !in sorted[i]
    {
      assert sorted[i] in multiset(entries);
    }
    FillBlock(words, chars, sorted);
    out := sorted;
  }

  lemma {:induction false} BytesOfRest(s: seq<string>, i: nat)
    requires i < |s|
    ensures Bytes(s) == Bytes(s[..i] + s[i + 1..]) + |s[i]| + 1
  {
    BytesJoin(s[..i + 1], s[i + 1..]);
    assert s == s[..i + 1] + s[i + 1..];
    BytesJoin(s[..i], s[i + 1..]);
    assert s[..i + 1][..i] == s[..i];
  }

  lemma {:induction false} SortKeepsNeed(a: seq<string>, b: seq<string>)
    requires multiset(a) == multiset(b)
    ensures |a| == |b| && Bytes(a) == Bytes(b) && Need(a) == Need(b)
    decreases |a|
  {
    assert |multiset(a)| == |a| && |multiset(b)| == |b|;
    if a != [] {
      var n := |a| - 1;
      assert a == a[..n] + [a[n]];
      assert a[n] in multiset(b);
      var i :| 0 <= i < |b| && b[i] == a[n];
      BytesOfRest(b, i);
      assert b == b[..i] + [b[i]] + b[i + 1..];
      assert multiset(b[..i] + b[i + 1..]) == multiset(b) - multiset{a[n]};
      assert multiset(a[..n]) == multiset(a) - multiset{a[n]};
      SortKeepsNeed(a[..n], b[..i] + b[i + 1..]);
    }
  }
}
