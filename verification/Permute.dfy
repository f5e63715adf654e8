/** Exchanging two adjacent blocks of an argument vector in place, in
    gcd-many cycles of swaps. */
module Permute {
  import opened Arith

  /* The greatest common divisor, by Euclid's loop. */

  predicate Divides(d: int, x: int)
    requires d > 0
  {
    x % d == 0
  }

  /** `g` divides both, and so every divisor of both divides g (BezoutIsGreatest). */
  ghost predicate IsGcd(a: int, b: int, g: int) {
    g > 0 && Divides(g, a) && Divides(g, b) && exists u, v :: Combines(a, b, g, u, v)
  }

  predicate Combines(a: int, b: int, g: int, u: int, v: int) {
    u * a + v * b == g
  }

  lemma BezoutIsGreatest(a: int, b: int, g: int, d: int)
    requires IsGcd(a, b, g) && d > 0 && Divides(d, a) && Divides(d, b)
    ensures Divides(d, g) && d <= g
  {
    var u, v :| Combines(a, b, g, u, v);
    var p, q := a / d, b / d;
    assert a == p * d && b == q * d;
    assert g == (u * p + v * q) * d by {
      assert u * (p * d) == (u * p) * d && v * (q * d) == (v * q) * d;
    }
    MultipleHasNoRest(u * p + v * q, d);
    if d > g {
      DivModUnique(g, d, 0, g);
    }
  }

  /** gcd: the remainder loop, which also finds the coefficients. */
  method Gcd(a: int, b: int) returns (g: int)
    requires a > 0 && b > 0
    ensures IsGcd(a, b, g)
  {
    var x, y := a, b;
    ghost var ux, vx, uy, vy := 1, 0, 0, 1;
    var c := x % y;
    while c != 0
      invariant x > 0 && y > 0 && c == x % y
      invariant ux * a + vx * b == x && uy * a + vy * b == y
      invariant forall d | d > 0 && Divides(d, x) && Divides(d, y) :: Divides(d, a) && Divides(d, b)
      decreases y
    {
      ghost var q := x / y;
      assert c == x - q * y;
      assert (ux - q * uy) * a + (vx - q * vy) * b == c by {
        RemainderCombines(a, b, ux, vx, uy, vy, q, x, y);
      }
      forall d | d > 0 && Divides(d, y) && Divides(d, c) ensures Divides(d, a) && Divides(d, b) {
        DividesSum(d, q, y, c);
      }
      ux, vx, uy, vy := uy, vy, ux - q * uy, vx - q * vy;
      x := y;
      y := c;
      c := x % y;
    }
    g := y;
    assert Divides(g, x) && Divides(g, y) by { MultipleHasNoRest(1, g); }
    assert Combines(a, b, g, uy, vy);
  }

  lemma RemainderCombines(a: int, b: int, ux: int, vx: int, uy: int, vy: int, q: int, x: int, y: int)
    requires ux * a + vx * b == x && uy * a + vy * b == y
    ensures (ux - q * uy) * a + (vx - q * vy) * b == x - q * y
  {
    assert q * y == q * (uy * a) + q * (vy * b);
    assert q * (uy * a) == (q * uy) * a && q * (vy * b) == (q * vy) * b;
  }

  lemma DividesSum(d: int, q: int, y: int, c: int)
    requires d > 0 && Divides(d, y) && Divides(d, c)
    ensures Divides(d, q * y + c)
  {
    var m, n := y / d, c / d;
    assert q * (m * d) == (q * m) * d;
    assert q * y + c == (q * m + n) * d;
    MultipleHasNoRest(q * m + n, d);
  }

  /* The cycles. Positions are relative to the first block, which has n1
     elements and is followed by n2 more. */

  /** Where the j-th step from `c` lands. */
  function Pos(c: int, n1: int, n2: int, j: int): int
    requires n1 > 0 && n2 > 0
  {
    (c + j * n2) % (n1 + n2)
  }

  /** The block exchange takes each new position from this old one. */
  function Back(y: int, n1: int, n2: int): int {
    if y < n2 then y + n1 else y - n2
  }

  /** One step of the loop, as the source computes it. */
  lemma PosStep(c: int, n1: int, n2: int, j: int)
    requires n1 > 0 && n2 > 0
    ensures var p := Pos(c, n1, n2, j);
            && 0 <= p < n1 + n2
            && Pos(c, n1, n2, j + 1) == (if p >= n1 then p - n1 else p + n2)
            && Back(Pos(c, n1, n2, j + 1), n1, n2) == p
  {
    var n, p, q := n1 + n2, Pos(c, n1, n2, j), (c + j * n2) / (n1 + n2);
    assert c + j * n2 == q * n + p;
    assert c + (j + 1) * n2 == q * n + p + n2;
    if p >= n1 {
      assert q * n + p + n2 == (q + 1) * n + (p - n1);
      DivModUnique(c + (j + 1) * n2, n, q + 1, p - n1);
    } else {
      DivModUnique(c + (j + 1) * n2, n, q, p + n2);
    }
  }

  /** Number and length of the cycles: gcd(n1, n2) of (n1 + n2) / gcd each. */
  ghost predicate Shape(n1: int, n2: int, g: int, len: int) {
    n1 > 0 && n2 > 0 && IsGcd(n1, n2, g) && len > 0 && n1 + n2 == len * g
  }

  lemma ShapeOf(n1: int, n2: int, g: int)
    requires n1 > 0 && n2 > 0 && IsGcd(n1, n2, g)
    ensures Shape(n1, n2, g, (n1 + n2) / g)
  {
    var p, q := n1 / g, n2 / g;
    assert n1 == p * g && n2 == q * g;
    assert p > 0 && q > 0;
    assert n1 + n2 == (p + q) * g;
    MultipleHasNoRest(p + q, g);
  }

  /** A whole cycle returns to its start. */
  lemma CycleCloses(c: int, n1: int, n2: int, g: int, len: int)
    requires Shape(n1, n2, g, len) && 0 <= c < n1 + n2
    ensures Pos(c, n1, n2, 0) == c && Pos(c, n1, n2, len) == c
  {
    var q := n2 / g;
    DivModUnique(c, n1 + n2, 0, c);
    assert c + 0 * n2 == c;
    assert len * n2 == q * (n1 + n2) by {
      assert len * (q * g) == q * (len * g);
    }
    ModShift(c, n1 + n2, q);
  }

  /** Within a cycle no position is met twice. */
  lemma CycleDistinct(c: int, n1: int, n2: int, g: int, len: int, j: int, k: int)
    requires Shape(n1, n2, g, len) && 0 <= j < k < len
    ensures Pos(c, n1, n2, j) != Pos(c, n1, n2, k)
  {
    var n, m := n1 + n2, k - j;
    if Pos(c, n1, n2, j) == Pos(c, n1, n2, k) {
      var t := (c + k * n2) / n - (c + j * n2) / n;
      assert m * n2 == t * n by {
        assert (c + k * n2) - (c + j * n2) == m * n2;
        assert ((c + k * n2) / n) * n - ((c + j * n2) / n) * n == t * n;
      }
      var u, v :| Combines(n1, n2, g, u, v);
      var x := m * u + (v - u) * t;
      MultipleOfWhole(m, u, v, n1, n2, t, g);
      assert m == x * len by {
        assert m * g == x * (len * g) == (x * len) * g;
        CancelRight(m, x * len, g);
      }
      MultipleHasNoRest(x, len);
      DivModUnique(m, len, 0, m);
    }
  }

  lemma CancelRight(a: int, b: int, g: int)
    requires g > 0 && a * g == b * g
    ensures a == b
  {
    MultipleHasNoRest(a, g);
    MultipleHasNoRest(b, g);
  }

  lemma MultipleOfWhole(m: int, u: int, v: int, n1: int, n2: int, t: int, g: int)
    requires Combines(n1, n2, g, u, v) && m * n2 == t * (n1 + n2)
    ensures m * g == (m * u + (v - u) * t) * (n1 + n2)
  {
    var n := n1 + n2;
    assert g == u * n + (v - u) * n2 by {
      assert u * n == u * n1 + u * n2;
      assert (v - u) * n2 == v * n2 - u * n2;
    }
    assert m * g == m * (u * n) + m * ((v - u) * n2);
    assert m * (u * n) == (m * u) * n;
    assert m * ((v - u) * n2) == (v - u) * (m * n2);
    assert (v - u) * (t * n) == ((v - u) * t) * n;
  }

  /** Every position with the right residue lies on the cycle. */
  lemma CycleCovers(c: int, n1: int, n2: int, g: int, len: int, y: int) returns (j: int)
    requires Shape(n1, n2, g, len) && 0 <= y < n1 + n2 && y % g == c % g
    ensures 0 <= j < len && Pos(c, n1, n2, j) == y
  {
    var n := n1 + n2;
    var u, v :| Combines(n1, n2, g, u, v);
    var t := y / g - c / g;
    assert y == c + t * g by {
      assert y == (y / g) * g + y % g && c == (c / g) * g + c % g;
      assert (y / g) * g - (c / g) * g == t * g;
    }
    var w := t * (v - u);
    j := w % len;
    var k, q := w / len, n2 / g;
    assert t * g == t * u * n + w * n2 by {
      CombineTimes(t, u, v, n1, n2, g);
    }
    assert w * n2 == k * q * n + j * n2 by {
      assert w == k * len + j;
      WholeCycles(k, len, q, g, j);
    }
    var z := t * u + k * q;
    assert t * u * n + k * q * n == z * n by {
      Distribute(t * u, k * q, n);
    }
    assert (-z) * n == -(z * n);
    DivModUnique(c + j * n2, n, -z, y);
  }

  lemma Distribute(a: int, b: int, n: int)
    ensures a * n + b * n == (a + b) * n
  {
  }

  lemma WholeCycles(k: int, len: int, q: int, g: int, j: int)
    ensures (k * len + j) * (q * g) == k * q * (len * g) + j * (q * g)
  {
    assert (k * len) * (q * g) == k * q * (len * g);
  }

  lemma CombineTimes(t: int, u: int, v: int, n1: int, n2: int, g: int)
    requires Combines(n1, n2, g, u, v)
    ensures t * g == t * u * (n1 + n2) + (t * (v - u)) * n2
  {
    assert t * g == t * (u * n1) + t * (v * n2);
    assert t * (u * n1) == t * u * n1 && t * (v * n2) == t * v * n2;
    assert (t * (v - u)) * n2 == t * v * n2 - t * u * n2 by {
      assert t * (v - u) == t * v - t * u;
    }
    assert t * u * (n1 + n2) == t * u * n1 + t * u * n2;
  }

  /** Cycles with different starts keep to their own residue, so they are disjoint. */
  lemma CycleResidue(c: int, n1: int, n2: int, g: int, len: int, j: int)
    requires Shape(n1, n2, g, len)
    ensures Pos(c, n1, n2, j) % g == c % g
  {
    var n, q := n1 + n2, n2 / g;
    var k := (c + j * n2) / n;
    assert Pos(c, n1, n2, j) == c + (j * q - k * len) * g by {
      assert c + j * n2 == k * n + Pos(c, n1, n2, j);
      assert j * (q * g) == (j * q) * g && k * (len * g) == (k * len) * g;
      assert (j * q) * g - (k * len) * g == (j * q - k * len) * g;
    }
    ModShift(c, g, j * q - k * len);
  }

  /* The exchange itself. */

  /** Position y (relative to s) already holds what the exchange puts there. */
  ghost predicate Settled(a: seq<string>, was: seq<string>, s: int, n1: int, n2: int, y: int) {
    0 <= s && 0 <= y < n1 + n2 && s + n1 + n2 <= |a| == |was| && n1 > 0 && n2 > 0 &&
    a[s + y] == was[s + Back(y, n1, n2)]
  }

  /** Place x is one of those the first j steps from `c` landed on. */
  ghost predicate Passed(x: int, s: int, n1: int, n2: int, c: int, j: int)
    requires n1 > 0 && n2 > 0
  {
    exists k {:trigger Pos(c, n1, n2, k)} :: 0 < k <= j && x == s + Pos(c, n1, n2, k)
  }

  /** In the middle of the cycle from `c`, after j steps. */
  ghost predicate MidCycle(a: seq<string>, before: seq<string>, s: int, n1: int, n2: int, c: int, j: int, len: int)
    requires n1 > 0 && n2 > 0 && 0 <= s && 0 <= c < n1 + n2 && s + n1 + n2 <= |before|
  {
    && |a| == |before|
    && (forall k {:trigger Pos(c, n1, n2, k)} | 0 < k <= j :: Settled(a, before, s, n1, n2, Pos(c, n1, n2, k)))
    && (j < len ==> 0 <= Pos(c, n1, n2, j) && a[s + c] == before[s + Pos(c, n1, n2, j)])
    && (forall x {:trigger a[x]} | 0 <= x < |a| && x != s + c && !Passed(x, s, n1, n2, c, j) :: a[x] == before[x])
  }

  /** A step that does not close the cycle lands on a new place. */
  lemma NewPlace(s: int, n1: int, n2: int, g: int, c: int, j: int, len: int)
    requires Shape(n1, n2, g, len) && 0 <= c < n1 + n2 && 0 <= j && j + 1 < len
    ensures Pos(c, n1, n2, j + 1) != c && !Passed(s + Pos(c, n1, n2, j + 1), s, n1, n2, c, j)
  {
    CycleCloses(c, n1, n2, g, len);
    CycleDistinct(c, n1, n2, g, len, 0, j + 1);
    forall k | 0 < k <= j
      ensures Pos(c, n1, n2, k) != Pos(c, n1, n2, j + 1)
    {
      CycleDistinct(c, n1, n2, g, len, k, j + 1);
    }
  }

  lemma NotTheStart(n1: int, n2: int, g: int, c: int, k: int, len: int)
    requires Shape(n1, n2, g, len) && 0 <= c < n1 + n2 && 0 < k < len
    ensures Pos(c, n1, n2, k) != c
  {
    CycleCloses(c, n1, n2, g, len);
    CycleDistinct(c, n1, n2, g, len, 0, k);
  }

  function Swapped(a: seq<string>, x: int, y: int): seq<string>
    requires 0 <= x < |a| && 0 <= y < |a|
  {
    a[x := a[y]][y := a[x]]
  }

  lemma StaysSettled(a: seq<string>, before: seq<string>, s: int, n1: int, n2: int, c: int, p: int, y: int)
    requires Settled(a, before, s, n1, n2, y) && 0 <= c < n1 + n2 && 0 <= p < n1 + n2
    requires y != c && (y != p || p == c)
    ensures Settled(Swapped(a, s + p, s + c), before, s, n1, n2, y)
  {
  }

  lemma Range(c: int, n1: int, n2: int, j: int)
    requires n1 > 0 && n2 > 0
    ensures 0 <= Pos(c, n1, n2, j) < n1 + n2
  {
    PosStep(c, n1, n2, j);
  }

  /** Later steps land elsewhere, until the cycle closes. */
  lemma StepsApart(n1: int, n2: int, g: int, c: int, k: int, j: int, len: int)
    requires Shape(n1, n2, g, len) && 0 <= c < n1 + n2 && 0 < k <= j < len
    ensures Pos(c, n1, n2, k) != c && (Pos(c, n1, n2, k) != Pos(c, n1, n2, j + 1) || Pos(c, n1, n2, j + 1) == c)
  {
    NotTheStart(n1, n2, g, c, k, len);
    if j + 1 < len {
      CycleDistinct(c, n1, n2, g, len, k, j + 1);
    } else {
      CycleCloses(c, n1, n2, g, len);
    }
  }

  /** The steps before j stay settled by the swap of step j. */
  lemma OldStepsSettled(a: seq<string>, before: seq<string>, s: int, n1: int, n2: int, g: int, c: int, j: int, len: int, k: int, p: int)
    requires Shape(n1, n2, g, len) && 0 <= s && 0 <= c < n1 + n2 && s + n1 + n2 <= |before|
    requires 0 < k <= j < len && MidCycle(a, before, s, n1, n2, c, j, len) && p == Pos(c, n1, n2, j + 1) && 0 <= p < n1 + n2
    ensures Settled(Swapped(a, s + p, s + c), before, s, n1, n2, Pos(c, n1, n2, k))
  {
    StepsApart(n1, n2, g, c, k, j, len);
    StaysSettled(a, before, s, n1, n2, c, p, Pos(c, n1, n2, k));
  }

  /** The step itself settles the place it lands on. */
  lemma NewStepSettled(a: seq<string>, before: seq<string>, s: int, n1: int, n2: int, c: int, j: int, len: int)
    requires n1 > 0 && n2 > 0 && 0 <= s && 0 <= c < n1 + n2 && s + n1 + n2 <= |before|
    requires 0 <= j < len && MidCycle(a, before, s, n1, n2, c, j, len)
    ensures 0 <= Pos(c, n1, n2, j + 1) < n1 + n2
    ensures Settled(Swapped(a, s + Pos(c, n1, n2, j + 1), s + c), before, s, n1, n2, Pos(c, n1, n2, j + 1))
  {
    PosStep(c, n1, n2, j);
    PosStep(c, n1, n2, j + 1);
  }

  /** What no step landed on is as it was. */
  lemma OthersUntouched(a: seq<string>, before: seq<string>, s: int, n1: int, n2: int, c: int, j: int, len: int, x: int)
    requires n1 > 0 && n2 > 0 && 0 <= s && 0 <= c < n1 + n2 && s + n1 + n2 <= |before|
    requires 0 <= j < len && MidCycle(a, before, s, n1, n2, c, j, len)
    requires 0 <= Pos(c, n1, n2, j + 1) < n1 + n2
    requires 0 <= x < |a| && x != s + c && !Passed(x, s, n1, n2, c, j + 1)
    ensures Swapped(a, s + Pos(c, n1, n2, j + 1), s + c)[x] == before[x]
  {
    assert !Passed(x, s, n1, n2, c, j);
    assert x != s + Pos(c, n1, n2, j + 1);
    assert a[x] == before[x];
  }

  lemma CycleStep(a: seq<string>, before: seq<string>, s: int, n1: int, n2: int, g: int, c: int, j: int, len: int, p: int)
    requires Shape(n1, n2, g, len) && 0 <= s && 0 <= c < n1 + n2 && s + n1 + n2 <= |before|
    requires 0 <= j < len && MidCycle(a, before, s, n1, n2, c, j, len) && p == Pos(c, n1, n2, j + 1)
    ensures 0 <= p < n1 + n2
    ensures MidCycle(Swapped(a, s + p, s + c), before, s, n1, n2, c, j + 1, len)
  {
    NewStepSettled(a, before, s, n1, n2, c, j, len);
    var b := Swapped(a, s + p, s + c);
    forall k | 0 < k <= j + 1
      ensures Settled(b, before, s, n1, n2, Pos(c, n1, n2, k))
    {
      if k <= j {
        OldStepsSettled(a, before, s, n1, n2, g, c, j, len, k, p);
      }
    }
    if j + 1 < len {
      NewPlace(s, n1, n2, g, c, j, len);
      assert a[s + p] == before[s + p];
    }
    forall x | 0 <= x < |b| && x != s + c && !Passed(x, s, n1, n2, c, j + 1)
      ensures b[x] == before[x]
    {
      OthersUntouched(a, before, s, n1, n2, c, j, len, x);
    }
  }

  /** After a whole cycle every position with its residue is settled, and
      nothing else has changed. */
  lemma CycleDone(a: seq<string>, before: seq<string>, s: int, n1: int, n2: int, g: int, c: int, len: int)
    requires Shape(n1, n2, g, len) && 0 <= s && 0 <= c < n1 + n2 && s + n1 + n2 <= |before|
    requires MidCycle(a, before, s, n1, n2, c, len, len)
    ensures forall y | 0 <= y < n1 + n2 && y % g == c % g :: Settled(a, before, s, n1, n2, y)
    ensures forall x | 0 <= x < |a| && !(s <= x < s + n1 + n2 && (x - s) % g == c % g) :: a[x] == before[x]
  {
    CycleCloses(c, n1, n2, g, len);
    forall y | 0 <= y < n1 + n2 && y % g == c % g ensures Settled(a, before, s, n1, n2, y) {
      var j := CycleCovers(c, n1, n2, g, len, y);
      var k := if j == 0 then len else j;
      assert Settled(a, before, s, n1, n2, Pos(c, n1, n2, k));
    }
    forall x | 0 <= x < |a| && !(s <= x < s + n1 + n2 && (x - s) % g == c % g) ensures a[x] == before[x] {
      forall k | 0 < k <= len ensures x != s + Pos(c, n1, n2, k) {
        PosStep(c, n1, n2, k);
        CycleResidue(c, n1, n2, g, len, k);
      }
      assert x != s + c && !Passed(x, s, n1, n2, c, len);
    }
  }

  /** The cycles of the residues below i are done. */
  ghost predicate CyclesDone(a: seq<string>, was: seq<string>, s: int, n1: int, n2: int, g: int, i: int)
    requires n1 > 0 && n2 > 0 && g > 0 && 0 <= s && s + n1 + n2 <= |was|
  {
    && |a| == |was|
    && (forall y | 0 <= y < n1 + n2 && y % g < i :: Settled(a, was, s, n1, n2, y))
    && (forall x | 0 <= x < |a| && !(s <= x < s + n1 + n2 && (x - s) % g < i) :: a[x] == was[x])
  }

  lemma BackResidue(y: int, n1: int, n2: int, g: int)
    requires n1 > 0 && n2 > 0 && g > 0 && Divides(g, n1) && Divides(g, n2) && 0 <= y < n1 + n2
    ensures 0 <= Back(y, n1, n2) < n1 + n2 && Back(y, n1, n2) % g == y % g
  {
    assert n1 == (n1 / g) * g && n2 == (n2 / g) * g;
    ModShift(y, g, n1 / g);
    ModShift(y, g, -(n2 / g));
    assert y + (-(n2 / g)) * g == y - n2;
  }

  lemma StartResidue(n1: int, g: int, i: int)
    requires g > 0 && Divides(g, n1) && 0 <= i < g
    ensures (n1 + i) % g == i
  {
    DivModUnique(n1 + i, g, n1 / g, i);
  }

  lemma NextCycleDone(a: seq<string>, before: seq<string>, was: seq<string>, s: int, n1: int, n2: int, g: int, i: int, len: int)
    requires Shape(n1, n2, g, len) && 0 <= s && s + n1 + n2 <= |was| && 0 <= i < g
    requires CyclesDone(before, was, s, n1, n2, g, i)
    requires n1 + i < n1 + n2 && MidCycle(a, before, s, n1, n2, n1 + i, len, len)
    ensures CyclesDone(a, was, s, n1, n2, g, i + 1)
  {
    StartResidue(n1, g, i);
    CycleDone(a, before, s, n1, n2, g, n1 + i, len);
    AddCycle(a, before, was, s, n1, n2, g, i);
  }

  lemma AddCycle(a: seq<string>, before: seq<string>, was: seq<string>, s: int, n1: int, n2: int, g: int, i: int)
    requires n1 > 0 && n2 > 0 && g > 0 && Divides(g, n1) && Divides(g, n2) && 0 <= s && s + n1 + n2 <= |was| && 0 <= i < g
    requires CyclesDone(before, was, s, n1, n2, g, i) && |a| == |before|
    requires forall y | 0 <= y < n1 + n2 && y % g == i :: Settled(a, before, s, n1, n2, y)
    requires forall x | 0 <= x < |a| && !(s <= x < s + n1 + n2 && (x - s) % g == i) :: a[x] == before[x]
    ensures CyclesDone(a, was, s, n1, n2, g, i + 1)
  {
    forall y | 0 <= y < n1 + n2 && y % g < i + 1 ensures Settled(a, was, s, n1, n2, y) {
      if y % g == i {
        BackResidue(y, n1, n2, g);
        assert Settled(a, before, s, n1, n2, y);
      } else {
        assert Settled(before, was, s, n1, n2, y);
        assert a[s + y] == before[s + y];
      }
    }
  }

  /** The two blocks s..m and m..e of a vector exchanged, each in its order. */
  function Exchanged(a: seq<string>, s: int, m: int, e: int): seq<string>
    requires 0 <= s <= m <= e <= |a|
  {
    a[..s] + a[m..e] + a[s..m] + a[e..]
  }

  lemma ExchangedAt(was: seq<string>, s: int, n1: int, n2: int, x: int)
    requires n1 > 0 && n2 > 0 && 0 <= s && s + n1 + n2 <= |was| && 0 <= x < |was|
    ensures var b := Exchanged(was, s, s + n1, s + n1 + n2);
            |b| == |was| && b[x] == if s <= x < s + n1 + n2 then was[s + Back(x - s, n1, n2)] else was[x]
  {
    var b := Exchanged(was, s, s + n1, s + n1 + n2);
    if x < s {
      assert b[x] == was[..s][x];
    } else if x < s + n2 {
      assert b[x] == was[s + n1..s + n1 + n2][x - s];
    } else if x < s + n1 + n2 {
      assert b[x] == was[s..s + n1][x - s - n2];
    } else {
      assert b[x] == was[s + n1 + n2..][x - s - n1 - n2];
    }
  }

  lemma AllCyclesExchange(a: seq<string>, was: seq<string>, s: int, n1: int, n2: int, g: int)
    requires n1 > 0 && n2 > 0 && g > 0 && 0 <= s && s + n1 + n2 <= |was| && CyclesDone(a, was, s, n1, n2, g, g)
    ensures a == Exchanged(was, s, s + n1, s + n1 + n2)
  {
    var b := Exchanged(was, s, s + n1, s + n1 + n2);
    forall x | 0 <= x < |was| ensures a[x] == b[x] {
      ExchangedAt(was, s, n1, n2, x);
      if s <= x < s + n1 + n2 {
        assert (x - s) % g < g;
        assert Settled(a, was, s, n1, n2, x - s);
      }
    }
  }

  /** The source's position update, and the swap it is followed by. */
  function NextPos(pos: int, s: int, n1: int, n2: int): int {
    if pos >= s + n1 then pos - n1 else pos + n2
  }

  /** `pos` and the vector are where they should be after j steps. */
  ghost predicate OnCycle(a: seq<string>, before: seq<string>, s: int, n1: int, n2: int, g: int, c: int, j: int, len: int, pos: int) {
    && Shape(n1, n2, g, len) && 0 <= s && 0 <= c < n1 + n2 && s + n1 + n2 <= |before| && 0 <= j <= len
    && MidCycle(a, before, s, n1, n2, c, j, len) && pos == s + Pos(c, n1, n2, j)
  }

  lemma StartCycle(a: seq<string>, s: int, n1: int, n2: int, g: int, c: int, len: int)
    requires Shape(n1, n2, g, len) && 0 <= s && 0 <= c < n1 + n2 && s + n1 + n2 <= |a|
    ensures OnCycle(a, a, s, n1, n2, g, c, 0, len, s + c)
  {
    CycleCloses(c, n1, n2, g, len);
  }

  lemma Advance(a: seq<string>, before: seq<string>, s: int, n1: int, n2: int, g: int, c: int, j: int, len: int, pos: int)
    requires OnCycle(a, before, s, n1, n2, g, c, j, len, pos) && j < len
    ensures var p := NextPos(pos, s, n1, n2);
            0 <= p < |a| && 0 <= s + c < |a| && OnCycle(Swapped(a, p, s + c), before, s, n1, n2, g, c, j + 1, len, p)
  {
    PosStep(c, n1, n2, j);
    CycleStep(a, before, s, n1, n2, g, c, j, len, Pos(c, n1, n2, j + 1));
  }

  /** The inner loop of permute_args: one cycle of swaps. */
  method RunCycle(nonoptStart: int, nonoptEnd: int, nopts: int, cstart: int, cyclelen: int, argv: array<string>, ghost g: int)
    requires OnCycle(argv[..], argv[..], nonoptStart, nonoptEnd - nonoptStart, nopts, g, cstart - nonoptStart, 0, cyclelen, cstart)
    modifies argv
    ensures OnCycle(argv[..], old(argv[..]), nonoptStart, nonoptEnd - nonoptStart, nopts, g, cstart - nonoptStart, cyclelen, cyclelen, cstart)
  {
    ghost var before, s, n1, c := argv[..], nonoptStart, nonoptEnd - nonoptStart, cstart - nonoptStart;
    var pos := cstart;
    var j := 0;
    while j < cyclelen
      invariant OnCycle(argv[..], before, s, n1, nopts, g, c, j, cyclelen, pos)
    {
      Advance(argv[..], before, s, n1, nopts, g, c, j, cyclelen, pos);
      pos := SwapNext(nonoptStart, nonoptEnd, nopts, cstart, pos, argv);
      j := j + 1;
    }
    CycleCloses(c, n1, nopts, g, cyclelen);
  }

  /** One turn of the inner loop. */
  method SwapNext(nonoptStart: int, nonoptEnd: int, nopts: int, cstart: int, pos: int, argv: array<string>) returns (pos': int)
    requires 0 <= NextPos(pos, nonoptStart, nonoptEnd - nonoptStart, nopts) < argv.Length && 0 <= cstart < argv.Length
    modifies argv
    ensures pos' == NextPos(pos, nonoptStart, nonoptEnd - nonoptStart, nopts)
    ensures argv[..] == Swapped(old(argv[..]), pos', cstart)
  {
    if pos >= nonoptEnd {
      pos' := pos - (nonoptEnd - nonoptStart);
    } else {
      pos' := pos + nopts;
    }
    var swap := argv[pos'];
    argv[pos'] := argv[cstart];
    argv[cstart] := swap;
  }

  /** One round of the outer loop: cycle number i, and the residue i is done. */
  method RunRound(nonoptStart: int, nonoptEnd: int, nopts: int, i: int, cyclelen: int, argv: array<string>, ghost was: seq<string>, ghost g: int)
    requires Shape(nonoptEnd - nonoptStart, nopts, g, cyclelen) && 0 <= nonoptStart && nonoptEnd + nopts <= argv.Length == |was|
    requires 0 <= i < g && i < nopts && CyclesDone(argv[..], was, nonoptStart, nonoptEnd - nonoptStart, nopts, g, i)
    modifies argv
    ensures CyclesDone(argv[..], was, nonoptStart, nonoptEnd - nonoptStart, nopts, g, i + 1)
  {
    ghost var before, n1 := argv[..], nonoptEnd - nonoptStart;
    var cstart := nonoptEnd + i;
    assert cstart - nonoptStart == n1 + i;
    StartCycle(before, nonoptStart, n1, nopts, g, n1 + i, cyclelen);
    RunCycle(nonoptStart, nonoptEnd, nopts, cstart, cyclelen, argv, g);
    NextCycleDone(argv[..], before, was, nonoptStart, n1, nopts, g, i, cyclelen);
  }

  /** permute_args. */
  method PermuteArgs(nonoptStart: int, nonoptEnd: int, optEnd: int, argv: array<string>)
    requires 0 <= nonoptStart < nonoptEnd < optEnd <= argv.Length
    modifies argv
    ensures argv[..] == Exchanged(old(argv[..]), nonoptStart, nonoptEnd, optEnd)
  {
    ghost var was := argv[..];
    var nnonopts, nopts := nonoptEnd - nonoptStart, optEnd - nonoptEnd;
    var ncycle := Gcd(nnonopts, nopts);
    ShapeOf(nnonopts, nopts, ncycle);
    GcdBounded(nnonopts, nopts, ncycle);
    assert optEnd - nonoptStart == nnonopts + nopts;
    var cyclelen := (optEnd - nonoptStart) / ncycle;
    var i := 0;
    while i < ncycle
      invariant 0 <= i <= ncycle && CyclesDone(argv[..], was, nonoptStart, nnonopts, nopts, ncycle, i)
    {
      RunRound(nonoptStart, nonoptEnd, nopts, i, cyclelen, argv, was, ncycle);
      i := i + 1;
    }
    AllCyclesExchange(argv[..], was, nonoptStart, nnonopts, nopts, ncycle);
  }

  lemma GcdBounded(a: int, b: int, g: int)
    requires a > 0 && b > 0 && IsGcd(a, b, g)
    ensures g <= a && g <= b
  {
    if g > a {
      DivModUnique(a, g, 0, a);
    }
    if g > b {
      DivModUnique(b, g, 0, b);
    }
  }
}
