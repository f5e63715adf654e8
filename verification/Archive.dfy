/** Clearing the stamps of an ar archive in place, so that it can be hashed. */
module Archive {
  import opened Octets

  /** The archive's magic string, a member's header, and in it the name, then the
      stamps (date, uid, gid, mode), then the size and the closing mark. */
  const MAGIC := 8
  const HEADER := 60
  const NAME := 16
  const SIZE := 48

  predicate IsDigit(c: Octet) {
    48 <= c <= 57
  }

  /** The digits at the front of s, after the number n. */
  function Number(s: seq<Octet>, n: nat): (r: nat)
    ensures r >= n
    decreases |s|
  {
    if s == [] || !IsDigit(s[0]) then n else Number(s[1..], 10 * n + (s[0] as nat - 48))
  }

  predicate IsSpace(c: Octet) {
    c == 32 || 9 <= c <= 13
  }

  /** atol: blanks, a sign, digits. */
  function Atol(s: seq<Octet>): int
    decreases |s|
  {
    if s == [] then 0
    else if IsSpace(s[0]) then Atol(s[1..])
    else if s[0] == 45 then -(Number(s[1..], 0) as int)
    else if s[0] == 43 then Number(s[1..], 0)
    else Number(s, 0)
  }

  /** Some character other than a digit ends the number. */
  predicate NumberEnds(s: seq<Octet>)
    decreases |s|
  {
    s != [] && (IsDigit(s[0]) ==> NumberEnds(s[1..]))
  }

  /** What atol reads ends inside `s`. */
  predicate AtolEnds(s: seq<Octet>)
    decreases |s|
  {
    s != [] &&
    if IsSpace(s[0]) then AtolEnds(s[1..])
    else NumberEnds(if s[0] == 45 || s[0] == 43 then s[1..] else s)
  }

  lemma {:induction false} NumberAlone(s: seq<Octet>, more: seq<Octet>, n: nat)
    requires NumberEnds(s)
    ensures Number(s + more, n) == Number(s, n)
    decreases |s|
  {
    if IsDigit(s[0]) {
      assert (s + more)[1..] == s[1..] + more;
      NumberAlone(s[1..], more, 10 * n + (s[0] as nat - 48));
    }
  }

  /** Then it does not matter that atol does not know where the field ends. */
  lemma {:induction false} AtolAlone(s: seq<Octet>, more: seq<Octet>)
    requires AtolEnds(s)
    ensures Atol(s + more) == Atol(s)
    decreases |s|
  {
    assert (s + more)[1..] == s[1..] + more;
    if IsSpace(s[0]) {
      AtolAlone(s[1..], more);
    } else if s[0] == 45 || s[0] == 43 {
      NumberAlone(s[1..], more, 0);
    } else {
      NumberAlone(s, more, 0);
    }
  }

  /** The digits, one more at the end: each place counts ten times the next. */
  lemma {:induction false} PlaceValue(s: seq<Octet>, d: nat, n: nat)
    requires (forall i | 0 <= i < |s| :: 48 <= s[i] as int <= 57) && d < 10
    ensures Number(s + [(48 + d) as Octet], n) == 10 * Number(s, n) + d
    decreases |s|
  {
    var c := (48 + d) as Octet;
    if s == [] {
      assert [] + [c] == [c] && [c][1..] == [];
    } else {
      assert (s + [c])[1..] == s[1..] + [c];
      PlaceValue(s[1..], d, 10 * n + (s[0] as nat - 48));
    }
  }

  /** The decimal digits of a number. */
  function Decimal(n: nat): (d: seq<Octet>)
    ensures d != [] && forall i | 0 <= i < |d| :: 48 <= d[i] as int <= 57
    decreases n
  {
    (if n < 10 then [] else Decimal(n / 10)) + [(48 + n % 10) as Octet]
  }

  lemma {:induction false} NumberOfDecimal(n: nat)
    ensures Number(Decimal(n), 0) == n
    decreases n
  {
    var front := if n < 10 then [] else Decimal(n / 10);
    if n >= 10 {
      NumberOfDecimal(n / 10);
    }
    PlaceValue(front, n % 10, 0);
  }

  lemma {:induction false} DigitsEnd(s: seq<Octet>, c: Octet, n: nat)
    requires (forall i | 0 <= i < |s| :: 48 <= s[i] as int <= 57) && (c < 48 || c > 57)
    ensures NumberEnds(s + [c]) && Number(s + [c], n) == Number(s, n)
    decreases |s|
  {
    if s == [] {
      assert [] + [c] == [c];
    } else {
      assert (s + [c])[1..] == s[1..] + [c];
      DigitsEnd(s[1..], c, 10 * n + (s[0] as nat - 48));
    }
  }

  /** A size written in decimal is read as that size, whatever but a digit follows. */
  lemma SizeIsRead(n: nat, c: Octet, more: seq<Octet>)
    requires c < 48 || c > 57
    ensures AtolEnds(Decimal(n) + [c] + more) && Atol(Decimal(n) + [c] + more) == n
  {
    var d := Decimal(n);
    NumberOfDecimal(n);
    DigitsEnd(d, c, 0);
    assert (d + [c])[0] == d[0];
    AtolAlone(d + [c], more);
    EndsAlone(d + [c], more);
  }

  /** Blanks, tabs and the like are passed over, a sign counts, and anything else in
      front of the digits makes the number zero. */
  lemma AtolStarts(c: Octet, s: seq<Octet>)
    ensures c in {9, 10, 11, 12, 13, 32} ==> Atol([c] + s) == Atol(s)
    ensures c == '-' as Octet ==> Atol([c] + s) == -(Number(s, 0) as int)
    ensures c == '+' as Octet ==> Atol([c] + s) == Number(s, 0)
    ensures c !in {9, 10, 11, 12, 13, 32} && c != '-' as Octet && c != '+' as Octet && (c < 48 || c > 57) ==> Atol([c] + s) == 0
  {
    assert ([c] + s)[1..] == s;
  }

  lemma {:induction false} EndsAlone(s: seq<Octet>, more: seq<Octet>)
    requires AtolEnds(s)
    ensures AtolEnds(s + more)
    decreases |s|
  {
    assert (s + more)[1..] == s[1..] + more;
    if IsSpace(s[0]) {
      EndsAlone(s[1..], more);
    } else if s[0] == 45 || s[0] == 43 {
      NumberEndsAlone(s[1..], more);
    } else {
      NumberEndsAlone(s, more);
    }
  }

  lemma {:induction false} NumberEndsAlone(s: seq<Octet>, more: seq<Octet>)
    requires NumberEnds(s)
    ensures NumberEnds(s + more)
    decreases |s|
  {
    if IsDigit(s[0]) {
      assert (s + more)[1..] == s[1..] + more;
      NumberEndsAlone(s[1..], more);
    }
  }

  /* An archive from some member on. */

  function SizeOf(s: seq<Octet>): int
    requires |s| >= HEADER
  {
    Atol(s[SIZE..HEADER])
  }

  /** A whole header, in which the size ends and is not negative. */
  predicate HasHeader(s: seq<Octet>) {
    |s| >= HEADER && AtolEnds(s[SIZE..HEADER]) && SizeOf(s) >= 0
  }

  /** Up to the next member: the data is padded to an even size, but the padding
      of the last member may be missing. */
  function Extent(s: seq<Octet>): (n: nat)
    requires HasHeader(s)
    ensures HEADER <= n <= |s|
  {
    var n := HEADER + SizeOf(s) + SizeOf(s) % 2;
    if n < |s| then n else |s|
  }

  /** The walk goes forward, inside the image, until its end or a member of size
      zero. */
  predicate Walkable(s: seq<Octet>)
    decreases |s|
  {
    s == [] || (HasHeader(s) && (SizeOf(s) == 0 || Walkable(s[Extent(s)..])))
  }

  function Zeros(n: nat): seq<Octet> {
    seq(n, _ => 0)
  }

  /** The archive with its headers cleared but for the names; the walk ends at a
      member of size zero. */
  function Clear(s: seq<Octet>): (r: seq<Octet>)
    requires Walkable(s)
    ensures |r| == |s|
    decreases |s|
  {
    if s == [] || SizeOf(s) == 0 then s
    else s[..NAME] + Zeros(HEADER - NAME) + s[HEADER..Extent(s)] + Clear(s[Extent(s)..])
  }

  /** What is left when the walk ends. */
  function Unwalked(s: seq<Octet>): seq<Octet>
    requires Walkable(s)
    decreases |s|
  {
    if s == [] || SizeOf(s) == 0 then s else Unwalked(s[Extent(s)..])
  }

  /* What clearing does and does not do. */

  /** Place k is in a header that the walk reaches, behind the name. */
  predicate InStamps(s: seq<Octet>, k: nat)
    requires Walkable(s) && k < |s|
    decreases |s|
  {
    SizeOf(s) != 0 && if k < Extent(s) then NAME <= k < HEADER else InStamps(s[Extent(s)..], k - Extent(s))
  }

  /** Just those places become zero, and no other changes. */
  lemma {:induction false} ClearsJustStamps(s: seq<Octet>, k: nat)
    requires Walkable(s) && k < |s|
    ensures Clear(s)[k] == if InStamps(s, k) then 0 else s[k]
    decreases |s|
  {
    if SizeOf(s) != 0 && k >= Extent(s) {
      ClearsJustStamps(s[Extent(s)..], k - Extent(s));
    }
  }

  /** A member as ar writes it: 16 octets of name, 12 of date, 6 each of user and group,
      8 of mode, the decimal size in 10 and two that close the header, then the data. */
  ghost predicate IsMember(m: seq<Octet>, name: seq<Octet>, stamps: seq<Octet>, data: seq<Octet>) {
    && |name| == 16 && |stamps| == 12 + 6 + 6 + 8 && |Decimal(|data|)| < 10 && |data| % 2 == 0
    && exists blanks :: |blanks| == 9 - |Decimal(|data|)| && m == name + stamps + (Decimal(|data|) + [32] + blanks + [96, 10]) + data
  }

  /** What is left of it is the name, 44 zeros and the data; members behind it are
      cleared in their turn, unless it is empty. */
  lemma MemberCleared(m: seq<Octet>, name: seq<Octet>, stamps: seq<Octet>, data: seq<Octet>, rest: seq<Octet>)
    requires IsMember(m, name, stamps, data) && (data != [] ==> Walkable(rest))
    ensures Walkable(m + rest)
    ensures Clear(m + rest) == if data == [] then m + rest else name + seq(44, _ => 0) + data + Clear(rest)
  {
    var blanks :| |blanks| == 9 - |Decimal(|data|)| && m == name + stamps + (Decimal(|data|) + [32] + blanks + [96, 10]) + data;
    var s := m + rest;
    MemberParts(s, name, stamps, data, blanks, rest);
    SizeIsRead(|data|, 32, blanks + [96, 10]);
    assert Decimal(|data|) + [32] + blanks + [96, 10] == Decimal(|data|) + [32] + (blanks + [96, 10]);
    assert SizeOf(s) == |data|;
    assert HasHeader(s);
    assert Extent(s) == 60 + |data|;
  }

  lemma MemberParts(s: seq<Octet>, name: seq<Octet>, stamps: seq<Octet>, data: seq<Octet>, blanks: seq<Octet>, rest: seq<Octet>)
    requires |name| == 16 && |stamps| == 32 && |Decimal(|data|)| < 10 && |blanks| == 9 - |Decimal(|data|)|
    requires s == name + stamps + (Decimal(|data|) + [32] + blanks + [96, 10]) + data + rest
    ensures |s| >= 60 + |data| && s[..16] == name && s[48..60] == Decimal(|data|) + [32] + blanks + [96, 10]
    ensures s[60..60 + |data|] == data && s[60 + |data|..] == rest
  {
  }

  /** Two archives that differ in dates, owners, groups and modes only. */
  predicate SameButStamps(a: seq<Octet>, b: seq<Octet>)
    requires Walkable(a)
    decreases |a|
  {
    && |a| == |b|
    && (a == [] ||
        (a[..NAME] == b[..NAME] && a[SIZE..Extent(a)] == b[SIZE..Extent(a)]
         && (SizeOf(a) == 0 || SameButStamps(a[Extent(a)..], b[Extent(a)..]))))
  }

  lemma SameHeader(a: seq<Octet>, b: seq<Octet>)
    requires HasHeader(a) && |a| == |b| && a[SIZE..Extent(a)] == b[SIZE..Extent(a)]
    ensures HasHeader(b) && SizeOf(b) == SizeOf(a) && a[HEADER..Extent(a)] == b[HEADER..Extent(a)]
  {
    var n := Extent(a);
    assert a[SIZE..n][..HEADER - SIZE] == a[SIZE..HEADER] && b[SIZE..n][..HEADER - SIZE] == b[SIZE..HEADER];
    assert a[SIZE..n][HEADER - SIZE..] == a[HEADER..n] && b[SIZE..n][HEADER - SIZE..] == b[HEADER..n];
  }

  /** Such archives become the same, if and only if they were the same from the
      first member of size zero on - so whenever no member is empty. */
  lemma {:induction false} StampsDoNotMatter(a: seq<Octet>, b: seq<Octet>)
    requires Walkable(a) && SameButStamps(a, b)
    ensures Walkable(b)
    ensures Clear(a) == Clear(b) <==> Unwalked(a) == Unwalked(b)
    ensures Unwalked(a) == [] <==> Unwalked(b) == []
    decreases |a|
  {
    if a != [] {
      var n := Extent(a);
      SameHeader(a, b);
      if SizeOf(a) != 0 {
        StampsDoNotMatter(a[n..], b[n..]);
        var head := a[..NAME] + Zeros(HEADER - NAME) + a[HEADER..n];
        assert Clear(a)[n..] == Clear(a[n..]) && Clear(b)[n..] == Clear(b[n..]);
        assert Clear(a)[..n] == head && Clear(b)[..n] == head;
        assert Clear(a) == head + Clear(a[n..]) && Clear(b) == head + Clear(b[n..]);
      }
    }
  }

  /* The walk. */

  /** Zeroes n bytes. */
  method ZeroOut(data: array<Octet>, from: nat, n: nat)
    requires from + n <= data.Length
    modifies data
    ensures data[..] == old(data[..from]) + Zeros(n) + old(data[from + n..])
  {
    forall i | from <= i < from + n {
      data[i] := 0;
    }
  }

  /** The walk after some members: what is before `at` is done. */
  ghost predicate Walked(was: seq<Octet>, now: seq<Octet>, at: nat) {
    && MAGIC <= at <= |was| == |now| && Walkable(was[MAGIC..]) && Walkable(was[at..])
    && now[..MAGIC] == was[..MAGIC] && now[at..] == was[at..]
    && Clear(was[MAGIC..]) == now[MAGIC..at] + Clear(was[at..])
    && Unwalked(was[MAGIC..]) == Unwalked(was[at..])
  }

  function Head(s: seq<Octet>): seq<Octet>
    requires HasHeader(s)
  {
    s[..NAME] + Zeros(HEADER - NAME) + s[HEADER..Extent(s)]
  }

  lemma ClearsHead(s: seq<Octet>)
    requires Walkable(s) && s != [] && SizeOf(s) != 0
    ensures Clear(s) == Head(s) + Clear(s[Extent(s)..]) && |Head(s)| == Extent(s)
  {
  }

  /** The image after a member's header has been zeroed behind the name. */
  lemma HeadWritten(now: seq<Octet>, at: nat, next: seq<Octet>)
    requires at <= |now| && HasHeader(now[at..])
    requires next == now[..at + NAME] + Zeros(HEADER - NAME) + now[at + HEADER..]
    ensures var n := Extent(now[at..]);
            |next| == |now| && next[..at] == now[..at] && next[at..at + n] == Head(now[at..]) && next[at + n..] == now[at + n..]
  {
    var n := Extent(now[at..]);
    assert next[at..at + NAME] == now[at..][..NAME];
    assert |now[..at + NAME] + Zeros(HEADER - NAME)| == at + HEADER;
    assert next[at + HEADER..] == now[at + HEADER..];
    assert next[at + HEADER..at + n] == next[at + HEADER..][..n - HEADER] && now[at..][HEADER..n] == now[at + HEADER..][..n - HEADER];
    assert next[at..at + n] == next[at..at + NAME] + Zeros(HEADER - NAME) + next[at + HEADER..at + n];
  }

  lemma Appended(now: seq<Octet>, next: seq<Octet>, at: nat, n: nat, head: seq<Octet>, rest: seq<Octet>)
    requires MAGIC <= at && at + n <= |now| == |next| && next[..at] == now[..at] && next[at..at + n] == head
    ensures now[MAGIC..at] + (head + rest) == next[MAGIC..at + n] + rest
  {
    assert next[MAGIC..at + n] == next[..at][MAGIC..] + next[at..at + n];
    assert now[MAGIC..at] == now[..at][MAGIC..];
    assert now[MAGIC..at] + (head + rest) == now[MAGIC..at] + head + rest;
  }

  lemma WalksOn(was: seq<Octet>, now: seq<Octet>, at: nat, next: seq<Octet>)
    requires Walked(was, now, at) && at < |was| && SizeOf(was[at..]) != 0
    requires next == now[..at + NAME] + Zeros(HEADER - NAME) + now[at + HEADER..]
    ensures Walked(was, next, at + Extent(was[at..]))
  {
    var s := was[at..];
    var n := Extent(s);
    assert s[n..] == was[at + n..];
    HeadWritten(now, at, next);
    ClearsHead(s);
    Appended(now, next, at, n, Head(s), Clear(s[n..]));
    assert now[at + n..] == now[at..][n..];
    assert next[..MAGIC] == next[..at][..MAGIC] && now[..MAGIC] == now[..at][..MAGIC];
  }

  /** The size is read from its field on, with no end in sight but its own. */
  lemma SizeStandsAlone(was: seq<Octet>, now: seq<Octet>, at: nat)
    requires Walked(was, now, at) && at < |was|
    ensures Atol(now[at + SIZE..]) == SizeOf(was[at..])
  {
    var s := was[at..];
    assert now[at + SIZE..] == now[at..][SIZE..] == s[SIZE..HEADER] + s[HEADER..];
    AtolAlone(s[SIZE..HEADER], s[HEADER..]);
  }

  /** The loop body: a member's header is zeroed, unless its size is zero. */
  method ClearMember(data: array<Octet>, dot: nat, ghost was: seq<Octet>) returns (next: nat, more: bool)
    requires Walked(was, data[..], dot) && dot < data.Length
    modifies data
    ensures !more ==> next == dot && Walked(was, data[..], dot) && SizeOf(was[dot..]) == 0
    ensures more ==> next > dot && Walked(was, data[..], if next < data.Length then next else data.Length)
  {
    ghost var now := data[..];
    SizeStandsAlone(was, now, dot);
    var size := Atol(data[dot + SIZE..]);
    if size == 0 {
      return dot, false;
    }
    size := size + size % 2;
    WalksOn(was, now, dot, now[..dot + NAME] + Zeros(HEADER - NAME) + now[dot + HEADER..]);
    ZeroOut(data, dot + NAME, HEADER - NAME);
    next := dot + HEADER;
    next := next + size;
    more := true;
  }

  /** Clears an archive in memory; -1 if it stops at a member of size zero. */
  method ClearArchive(data: array<Octet>) returns (rc: int)
    requires data.Length >= MAGIC && Walkable(data[MAGIC..])
    modifies data
    ensures data[..MAGIC] == old(data[..MAGIC]) && data[MAGIC..] == Clear(old(data[MAGIC..]))
    ensures rc == if Unwalked(old(data[MAGIC..])) == [] then 0 else -1
  {
    var dot := MAGIC;
    ghost var was := data[..];
    Starts(was, data[MAGIC..]);
    while dot < data.Length
      invariant MAGIC <= dot && Walked(was, data[..], if dot < data.Length then dot else data.Length)
      decreases data.Length - dot
    {
      var more;
      dot, more := ClearMember(data, dot, was);
      if !more {
        Stops(was, data[..], dot);
        EndOfWalk(data, was);
        return -1;
      }
    }
    Stops(was, data[..], data.Length);
    EndOfWalk(data, was);
    return 0;
  }

  lemma Starts(was: seq<Octet>, rest: seq<Octet>)
    requires |was| >= MAGIC && rest == was[MAGIC..] && Walkable(rest)
    ensures Walked(was, was, MAGIC)
  {
    assert was[MAGIC..MAGIC] == [];
  }

  lemma EndOfWalk(data: array<Octet>, was: seq<Octet>)
    requires data.Length == |was| >= MAGIC
    ensures data[..][MAGIC..] == data[MAGIC..] && data[..][..MAGIC] == data[..MAGIC]
  {
  }

  lemma Stops(was: seq<Octet>, now: seq<Octet>, at: nat)
    requires Walked(was, now, at) && (at == |was| || SizeOf(was[at..]) == 0)
    ensures now[MAGIC..] == Clear(was[MAGIC..]) && (Unwalked(was[MAGIC..]) == [] <==> at == |was|)
  {
    assert now[MAGIC..] == now[MAGIC..at] + now[at..];
  }
}
