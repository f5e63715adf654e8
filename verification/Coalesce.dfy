/** A command's path actions: their order in the raw set, and coalescing them to
    one action per path. */
module Coalesce {
  import opened Arith
  import opened Moments
  import opened Strings

  datatype Op = Append | Creat | Exec | Link | Read | Symlink | Unlink

  /** A path action: its address, the project-relative path, the operation, the
      time of the operation and the time of the file. */
  datatype PathAction = PathAction(address: nat, path: string, op: Op, stamp: Moment, fileTime: Moment)

  predicate IsRead(a: PathAction) {
    a.op == Exec || a.op == Read
  }

  /** A time after the first second of the epoch. */
  predicate IsSet(m: Moment) {
    m.sec + TruncDiv(m.nsec, NANOS_PER_SECOND) > 0
  }

  lemma SetMeans(m: Moment)
    requires m.sec >= 0 && m.nsec >= 0
    ensures IsSet(m) <==> Nanos(m) >= 1_000_000_000
  {
  }

  predicate Stamped(a: PathAction) {
    IsSet(a.stamp)
  }

  /* Coalescing. */

  /** Whether the cooked action stays when another one of its path comes up. */
  function KeepsCooked(raw: PathAction, cooked: PathAction, precision: nat): bool
    requires precision <= 9
  {
    if !IsRead(raw) && !IsRead(cooked) then
      if Stamped(raw) && Stamped(cooked) then Compare(raw.stamp, cooked.stamp, precision) <= 0
      else Compare(raw.fileTime, cooked.fileTime, precision) <= 0
    else IsRead(raw)
  }

  function Cooked(table: map<string, PathAction>, raw: PathAction, precision: nat): map<string, PathAction>
    requires precision <= 9
  {
    if raw.path in table && KeepsCooked(raw, table[raw.path], precision) then table else table[raw.path := raw]
  }

  /** The cooked set after the actions `raws`, taken in this order. */
  function Cook(raws: seq<PathAction>, precision: nat): map<string, PathAction>
    requires precision <= 9
  {
    if raws == [] then map[] else Cooked(Cook(raws[..|raws| - 1], precision), raws[|raws| - 1], precision)
  }

  /** The two action sets of a command audit: the raw set, in traversal order, and
      the cooked set. */
  class ActionSets {
    var raw: seq<PathAction>
    var cooked: map<string, PathAction>

    constructor ()
      ensures raw == [] && cooked == map[]
    {
      raw, cooked := [], map[];
    }

    /** Moves the raw actions to the cooked set, one per path. */
    method Coalesce(precision: nat)
      requires precision <= 9 && cooked == map[]
      modifies this
      ensures raw == [] && cooked == Cook(old(raw), precision)
    {
      ghost var n := 0;
      while |raw| > 0
        invariant n <= |old(raw)| && raw == old(raw)[n..]
        invariant cooked == Cook(old(raw)[..n], precision)
        decreases |raw|
      {
        var action := raw[0];
        assert old(raw)[..n + 1][..n] == old(raw)[..n];
        if action.path in cooked {
          var kept := cooked[action.path];
          var keepCooked := false;
          if !IsRead(action) && !IsRead(kept) {
            var rawTime, cookedTime;
            if Stamped(action) && Stamped(kept) {
              rawTime, cookedTime := action.stamp, kept.stamp;
            } else {
              rawTime, cookedTime := action.fileTime, kept.fileTime;
            }
            if Compare(rawTime, cookedTime, precision) <= 0 {
              keepCooked := true;
            }
          } else if IsRead(action) {
            keepCooked := true;
          }
          if !keepCooked {
            cooked := (cooked - {action.path})[action.path := action];
          }
        } else {
          cooked := cooked[action.path := action];
        }
        raw := raw[1..];
        n := n + 1;
      }
      assert old(raw)[..n] == old(raw);
    }
  }

  /* What coalescing keeps. */

  predicate WriteOf(a: PathAction, path: string) {
    !IsRead(a) && a.path == path
  }

  /** The time by which writes are compared: that of the operation if all of them
      are stamped, that of the file if no two of them are. */
  function OpTime(a: PathAction, stamped: bool): Moment {
    if stamped then a.stamp else a.fileTime
  }

  function When(a: PathAction, stamped: bool, precision: nat): int
    requires precision <= 9
  {
    Rounded(OpTime(a, stamped), precision)
  }

  predicate AllStamped(raws: seq<PathAction>, path: string) {
    forall i {:trigger raws[i]} | 0 <= i < |raws| :: WriteOf(raws[i], path) ==> Stamped(raws[i])
  }

  predicate NoTwoStamped(raws: seq<PathAction>, path: string) {
    forall i, j {:trigger raws[i], raws[j]} | 0 <= i < j < |raws| && WriteOf(raws[i], path) && WriteOf(raws[j], path) ::
      !Stamped(raws[i]) || !Stamped(raws[j])
  }

  /** Any two writes of a path are compared by the same kind of time. */
  predicate Uniform(raws: seq<PathAction>, path: string, stamped: bool) {
    if stamped then AllStamped(raws, path) else NoTwoStamped(raws, path)
  }

  predicate TimesInRange(raws: seq<PathAction>) {
    forall i {:trigger raws[i]} | 0 <= i < |raws| :: InRange(raws[i].stamp) && InRange(raws[i].fileTime)
  }

  /** `a` is later by the one nanosecond that is compared wrongly. */
  predicate LateByOne(a: Moment, b: Moment, precision: nat) {
    precision == 9 && Nanos(a) == Nanos(b) + 1
  }

  /** Action number k is what should be left of a path: a read only if there is
      no write, and then the first; of the writes the first of the latest, but for
      one that is a nanosecond later. */
  predicate Best(raws: seq<PathAction>, path: string, stamped: bool, precision: nat, k: nat)
    requires precision <= 9
  {
    && k < |raws| && raws[k].path == path
    && (IsRead(raws[k]) ==> forall i {:trigger raws[i]} | 0 <= i < |raws| && raws[i].path == path :: IsRead(raws[i]) && k <= i)
    && (!IsRead(raws[k]) ==> forall i {:trigger raws[i]} | 0 <= i < |raws| && WriteOf(raws[i], path) ::
          BestAt(raws, stamped, precision, k, i))
  }

  predicate BestAt(raws: seq<PathAction>, stamped: bool, precision: nat, k: nat, i: nat)
    requires precision <= 9 && k < |raws| && i < |raws|
  {
    && (When(raws[i], stamped, precision) <= When(raws[k], stamped, precision)
        || LateByOne(OpTime(raws[i], stamped), OpTime(raws[k], stamped), precision))
    && (i < k ==> When(raws[i], stamped, precision) < When(raws[k], stamped, precision))
  }

  lemma LaterWins(raw: PathAction, cooked: PathAction, stamped: bool, precision: nat)
    requires precision <= 9 && !IsRead(raw) && !IsRead(cooked)
    requires if stamped then Stamped(raw) && Stamped(cooked) else !Stamped(raw) || !Stamped(cooked)
    requires InRange(raw.stamp) && InRange(raw.fileTime) && InRange(cooked.stamp) && InRange(cooked.fileTime)
    ensures KeepsCooked(raw, cooked, precision)
       <==> When(raw, stamped, precision) <= When(cooked, stamped, precision)
            || LateByOne(OpTime(raw, stamped), OpTime(cooked, stamped), precision)
  {
    CompareOrdersRounded(OpTime(raw, stamped), OpTime(cooked, stamped), precision);
    assert Pow10(0) == 1;
  }

  /** What the comparison says, the one mistake included. */
  lemma CompareExactly(a: Moment, b: Moment, precision: nat)
    requires precision <= 9 && InRange(a) && InRange(b)
    ensures Compare(a, b, precision) == if LateByOne(a, b, precision) then -1 else Sign(Rounded(a, precision) - Rounded(b, precision))
    ensures precision == 9 ==> Rounded(a, precision) == Nanos(a) && Rounded(b, precision) == Nanos(b)
  {
    CompareOrdersRounded(a, b, precision);
    assert Pow10(0) == 1;
  }

  /** In any order of traversal, what is left of a path is the first read if it
      was only read, and otherwise the first of its latest writes. */
  lemma {:induction false} CoalescingKeepsTheBest(raws: seq<PathAction>, path: string, stamped: bool, precision: nat)
    requires precision <= 9 && Uniform(raws, path, stamped) && TimesInRange(raws)
    ensures path in Cook(raws, precision) <==> exists i :: 0 <= i < |raws| && raws[i].path == path
    ensures path in Cook(raws, precision) ==>
              exists k: nat {:trigger Best(raws, path, stamped, precision, k)} ::
                Best(raws, path, stamped, precision, k) && Cook(raws, precision)[path] == raws[k]
    decreases |raws|
  {
    if raws != [] {
      var n := |raws| - 1;
      var before, a := raws[..n], raws[n];
      assert forall i | 0 <= i < n :: before[i] == raws[i];
      CoalescingKeepsTheBest(before, path, stamped, precision);
      if path in Cook(before, precision) {
        var k: nat :| Best(before, path, stamped, precision, k) && Cook(before, precision)[path] == before[k];
        OneMore(raws, path, stamped, precision, k);
      } else if a.path == path {
        assert Best(raws, path, stamped, precision, n);
      }
    }
  }

  /** Beside a write that is really later, those before it are earlier. */
  lemma Overtaken(i: Moment, k: Moment, a: Moment, precision: nat)
    requires precision <= 9 && (Rounded(i, precision) <= Rounded(k, precision) || LateByOne(i, k, precision))
    ensures Rounded(k, precision) < Rounded(a, precision) && !LateByOne(a, k, precision) ==> Rounded(i, precision) < Rounded(a, precision)
  {
    assert Pow10(0) == 1;
  }

  lemma OneMore(raws: seq<PathAction>, path: string, stamped: bool, precision: nat, k: nat)
    requires precision <= 9 && raws != [] && Uniform(raws, path, stamped) && TimesInRange(raws)
    requires Best(raws[..|raws| - 1], path, stamped, precision, k)
    ensures var n := |raws| - 1;
            Best(raws, path, stamped, precision, if raws[n].path != path || KeepsCooked(raws[n], raws[k], precision) then k else n)
  {
    var n := |raws| - 1;
    var before, a := raws[..n], raws[n];
    assert forall i | 0 <= i < n :: before[i] == raws[i];
    if a.path == path && !IsRead(a) && !IsRead(raws[k]) {
      LaterWins(a, raws[k], stamped, precision);
      forall i: nat | i < n && WriteOf(raws[i], path)
        ensures BestAt(raws, stamped, precision, if KeepsCooked(a, raws[k], precision) then k else n, i)
      {
        assert WriteOf(before[i], path) && BestAt(before, stamped, precision, k, i);
        Overtaken(OpTime(raws[i], stamped), OpTime(raws[k], stamped), OpTime(a, stamped), precision);
      }
    }
  }

  /* Which patterns of stamps it needs. */

  /** What is left of the path does not lose against any of its writes. */
  predicate Undefeated(raws: seq<PathAction>, path: string, precision: nat)
    requires precision <= 9
  {
    path in Cook(raws, precision) && !IsRead(Cook(raws, precision)[path]) ==>
      forall i {:trigger raws[i]} | 0 <= i < |raws| && WriteOf(raws[i], path) ::
        KeepsCooked(raws[i], Cook(raws, precision)[path], precision)
  }

  /** The same actions, some perhaps at other times. */
  predicate Retimes(raws: seq<PathAction>, others: seq<PathAction>) {
    |raws| == |others| &&
    forall i {:trigger others[i]} | 0 <= i < |raws| ::
      && others[i] == raws[i].(stamp := others[i].stamp, fileTime := others[i].fileTime)
      && Stamped(others[i]) == Stamped(raws[i])
  }

  lemma UniformIsUndefeated(raws: seq<PathAction>, path: string, stamped: bool, precision: nat)
    requires precision <= 9 && Uniform(raws, path, stamped) && TimesInRange(raws)
    ensures Undefeated(raws, path, precision)
  {
    CoalescingKeepsTheBest(raws, path, stamped, precision);
    if path in Cook(raws, precision) && !IsRead(Cook(raws, precision)[path]) {
      var k: nat :| Best(raws, path, stamped, precision, k) && Cook(raws, precision)[path] == raws[k];
      forall i | 0 <= i < |raws| && WriteOf(raws[i], path) ensures KeepsCooked(raws[i], raws[k], precision) {
        if i != k {
          assert BestAt(raws, stamped, precision, k, i);
          LaterWins(raws[i], raws[k], stamped, precision);
        }
      }
    }
  }

  /** Whole seconds keep their order at any precision. */
  lemma SecondsInOrder(s: nat, t: nat, precision: nat)
    requires precision <= 9 && s <= 30 && t <= 30
    ensures Compare(Moment(s, 0), Moment(t, 0), precision) == Sign(s - t)
  {
    CompareOrdersRounded(Moment(s, 0), Moment(t, 0), precision);
    WholeSecond(s, precision);
    WholeSecond(t, precision);
    if s != t {
      Scaled(s, t, Pow10(precision));
    }
  }

  lemma Scaled(s: nat, t: nat, p: nat)
    requires p >= 1
    ensures s < t ==> s * p < t * p
    ensures t < s ==> t * p < s * p
  {
  }

  lemma WholeSecond(s: nat, precision: nat)
    requires precision <= 9
    ensures Rounded(Moment(s, 0), precision) == s * Pow10(precision)
  {
    var p, q := Pow10(9 - precision), Pow10(precision);
    Pow10Splits(9, precision);
    SecondIsBillion();
    Divides(s, p, q);
  }

  lemma SecondIsBillion()
    ensures Pow10(9) == NANOS_PER_SECOND
  {
    assert Pow10(3) == 1000;
    Pow10Splits(6, 3);
    Pow10Splits(9, 3);
  }

  lemma Divides(s: nat, p: nat, q: nat)
    requires p >= 1
    ensures s * (p * q) / p == s * q
  {
    assert s * (p * q) == (s * q) * p;
    MultipleHasNoRest(s * q, p);
  }

  lemma {:induction false} Pow10Splits(n: nat, k: nat)
    requires k <= n
    ensures Pow10(n) == Pow10(n - k) * Pow10(k)
  {
    if k > 0 {
      Pow10Splits(n, k - 1);
      assert Pow10(n - k + 1) == 10 * Pow10(n - k);
    }
  }

  /** Three writes, two of them stamped, of which each is later than the next by
      the time the two are compared by: 0 than 1, 1 than 2, and 2 than 0. */
  function InCircle(a: PathAction, place: nat): PathAction {
    if place == 0 then a.(stamp := Moment(2, 0), fileTime := Moment(30, 0))
    else if place == 1 then a.(stamp := Moment(0, 0), fileTime := Moment(20, 0))
    else a.(stamp := Moment(3, 0), fileTime := Moment(10, 0))
  }

  /** All other actions are earlier than these three. */
  function Early(a: PathAction): PathAction {
    a.(stamp := if Stamped(a) then Moment(1, 0) else Moment(0, 0), fileTime := Moment(1, 0))
  }

  function Retimed(raws: seq<PathAction>, x: nat, y: nat, z: nat): (others: seq<PathAction>)
    ensures |others| == |raws|
    ensures forall i | 0 <= i < |raws| ::
              others[i] == if i == x then InCircle(raws[i], 0) else if i == y then InCircle(raws[i], 1)
                           else if i == z then InCircle(raws[i], 2) else Early(raws[i])
  {
    seq(|raws|, i requires 0 <= i < |raws| =>
      if i == x then InCircle(raws[i], 0) else if i == y then InCircle(raws[i], 1)
      else if i == z then InCircle(raws[i], 2) else Early(raws[i]))
  }

  /** The places of two stamped writes of the path and one that is not. */
  predicate Mixed(raws: seq<PathAction>, path: string, x: nat, y: nat, z: nat) {
    && x < |raws| && y < |raws| && z < |raws| && x != z
    && WriteOf(raws[x], path) && WriteOf(raws[y], path) && WriteOf(raws[z], path)
    && Stamped(raws[x]) && !Stamped(raws[y]) && Stamped(raws[z])
  }

  lemma CircleTurns(a: PathAction, b: PathAction, c: PathAction, precision: nat)
    requires precision <= 9 && !IsRead(a) && !IsRead(b) && !IsRead(c)
    ensures !KeepsCooked(InCircle(a, 0), InCircle(b, 1), precision)
    ensures !KeepsCooked(InCircle(b, 1), InCircle(c, 2), precision)
    ensures !KeepsCooked(InCircle(c, 2), InCircle(a, 0), precision)
  {
    SecondsInOrder(30, 20, precision);
    SecondsInOrder(20, 10, precision);
    SecondsInOrder(3, 2, precision);
  }

  lemma EarlyLoses(a: PathAction, place: nat, b: PathAction, precision: nat)
    requires precision <= 9 && !IsRead(a) && place <= 2
    ensures !KeepsCooked(InCircle(a, place), Early(b), precision)
    ensures KeepsCooked(Early(b), InCircle(a, place), precision)
  {
    var c, e := InCircle(a, place), Early(b);
    SecondsInOrder(c.fileTime.sec, 1, precision);
    SecondsInOrder(1, c.fileTime.sec, precision);
    SecondsInOrder(c.stamp.sec, 1, precision);
    SecondsInOrder(1, c.stamp.sec, precision);
  }

  predicate OneOf(i: nat, x: nat, y: nat, z: nat) {
    i == x || i == y || i == z
  }

  /** Each of the three wins over all the others, whichever comes first. */
  predicate ThreeWin(others: seq<PathAction>, x: nat, y: nat, z: nat, precision: nat)
    requires precision <= 9
  {
    forall n, k {:trigger others[n], others[k]} | 0 <= k < n < |others| ::
      && (OneOf(n, x, y, z) && !OneOf(k, x, y, z) ==> !KeepsCooked(others[n], others[k], precision))
      && (!OneOf(n, x, y, z) && OneOf(k, x, y, z) ==> KeepsCooked(others[n], others[k], precision))
  }

  /** After `n` actions number `k` is left, one of the three if any has come up. */
  predicate LeftOfThree(others: seq<PathAction>, path: string, x: nat, y: nat, z: nat, precision: nat, n: nat, k: nat)
    requires precision <= 9 && n <= |others|
  {
    && k < n && others[k].path == path && path in Cook(others[..n], precision) && Cook(others[..n], precision)[path] == others[k]
    && (x < n || y < n || z < n ==> OneOf(k, x, y, z))
  }

  lemma CookOneMore(raws: seq<PathAction>, n: nat, next: nat, precision: nat)
    requires precision <= 9 && n < |raws| && next == n + 1
    ensures Cook(raws[..next], precision) == Cooked(Cook(raws[..n], precision), raws[n], precision)
  {
    assert raws[..next][..n] == raws[..n];
  }

  /** Once one of the three has come up, one of the three is left. */
  lemma {:induction false} OneOfThree(others: seq<PathAction>, path: string, x: nat, y: nat, z: nat, precision: nat, n: nat)
      returns (k: nat)
    requires precision <= 9 && ThreeWin(others, x, y, z, precision) && x < |others| && y < |others| && z < |others|
    requires others[x].path == others[y].path == others[z].path == path && n <= |others|
    ensures path in Cook(others[..n], precision) ==> LeftOfThree(others, path, x, y, z, precision, n, k)
    ensures x < n || y < n || z < n ==> path in Cook(others[..n], precision)
    decreases n
  {
    k := 0;
    if n > 0 {
      k := OneOfThree(others, path, x, y, z, precision, n - 1);
      k := NextLeft(others, path, x, y, z, precision, n - 1, n, k);
    }
  }

  lemma NextLeft(others: seq<PathAction>, path: string, x: nat, y: nat, z: nat, precision: nat, n: nat, next: nat, k: nat)
      returns (left: nat)
    requires precision <= 9 && ThreeWin(others, x, y, z, precision) && x < |others| && y < |others| && z < |others|
    requires others[x].path == others[y].path == others[z].path == path && n < |others| && next == n + 1
    requires path in Cook(others[..n], precision) ==> LeftOfThree(others, path, x, y, z, precision, n, k)
    requires x < n || y < n || z < n ==> path in Cook(others[..n], precision)
    ensures path in Cook(others[..next], precision) ==> LeftOfThree(others, path, x, y, z, precision, next, left)
    ensures x < next || y < next || z < next ==> path in Cook(others[..next], precision)
  {
    CookOneMore(others, n, next, precision);
    left := if others[n].path == path && (path !in Cook(others[..n], precision) || !KeepsCooked(others[n], others[k], precision))
            then n else k;
  }

  lemma NextOfThree(raws: seq<PathAction>, path: string, x: nat, y: nat, z: nat, precision: nat, k: nat, n: nat)
    requires precision <= 9 && Mixed(raws, path, x, y, z) && k < n < |raws|
    ensures var others := Retimed(raws, x, y, z);
            && (OneOf(n, x, y, z) && !OneOf(k, x, y, z) ==> !KeepsCooked(others[n], others[k], precision))
            && (!OneOf(n, x, y, z) && OneOf(k, x, y, z) ==> KeepsCooked(others[n], others[k], precision))
  {
    if OneOf(n, x, y, z) && !OneOf(k, x, y, z) {
      EarlyLoses(raws[n], if n == x then 0 else if n == y then 1 else 2, raws[k], precision);
    } else if !OneOf(n, x, y, z) && OneOf(k, x, y, z) {
      EarlyLoses(raws[k], if k == x then 0 else if k == y then 1 else 2, raws[n], precision);
    }
  }

  /** Where two writes of a path are stamped and a third is not, in whatever order
      they come, there are times at which what is left loses. */
  lemma MixedStampsMayLose(raws: seq<PathAction>, path: string, x: nat, y: nat, z: nat, precision: nat)
    requires precision <= 9 && Mixed(raws, path, x, y, z)
    ensures var others := Retimed(raws, x, y, z);
            Retimes(raws, others) && TimesInRange(others) && !Undefeated(others, path, precision)
  {
    var others := Retimed(raws, x, y, z);
    forall n: nat, k: nat | k < n < |others|
      ensures OneOf(n, x, y, z) && !OneOf(k, x, y, z) ==> !KeepsCooked(others[n], others[k], precision)
      ensures !OneOf(n, x, y, z) && OneOf(k, x, y, z) ==> KeepsCooked(others[n], others[k], precision)
    {
      NextOfThree(raws, path, x, y, z, precision, k, n);
    }
    var k := OneOfThree(others, path, x, y, z, precision, |raws|);
    assert others[..|raws|] == others;
    CircleTurns(raws[x], raws[y], raws[z], precision);
    assert !KeepsCooked(others[x], others[y], precision);
    assert !KeepsCooked(others[y], others[z], precision);
    assert !KeepsCooked(others[z], others[x], precision);
  }

  /** Exactly the patterns of stamps for which coalescing never leaves a write that
      loses, whatever the times: all writes of the path stamped, or no two. */
  lemma StampsDecide(raws: seq<PathAction>, path: string, precision: nat)
    requires precision <= 9
    ensures AllStamped(raws, path) || NoTwoStamped(raws, path)
       <==> forall others {:trigger Retimes(raws, others)} | Retimes(raws, others) && TimesInRange(others) ::
              Undefeated(others, path, precision)
  {
    if AllStamped(raws, path) || NoTwoStamped(raws, path) {
      forall others | Retimes(raws, others) && TimesInRange(others) ensures Undefeated(others, path, precision) {
        UniformIsUndefeated(others, path, AllStamped(raws, path), precision);
      }
    } else {
      var y :| 0 <= y < |raws| && WriteOf(raws[y], path) && !Stamped(raws[y]);
      var x, z :| 0 <= x < z < |raws| && WriteOf(raws[x], path) && WriteOf(raws[z], path) && Stamped(raws[x]) && Stamped(raws[z]);
      MixedStampsMayLose(raws, path, x, y, z, precision);
    }
  }

  /** What a path was only read or executed by gives way to anything that changed it,
      whichever came first; of two such the first stays. */
  lemma ChangesWin(a: PathAction, b: PathAction, precision: nat)
    requires precision <= 9 && a.path == b.path
    ensures a.op in {Exec, Read} && b.op in {Append, Creat, Link, Symlink, Unlink} ==>
              Cook([a, b], precision)[a.path] == b && Cook([b, a], precision)[a.path] == b
    ensures a.op in {Exec, Read} && b.op in {Exec, Read} ==> Cook([a, b], precision)[a.path] == a
  {
    assert [a, b][..1] == [a] && [b, a][..1] == [b] && [a][..0] == [] && [b][..0] == [];
    assert Cook([a], precision) == map[a.path := a] && Cook([b], precision) == map[b.path := b];
  }

  /** Of two writes of a path the later is left, if and only if the second is not
      later by the one nanosecond that is compared wrongly. */
  lemma TwoWrites(a: PathAction, b: PathAction, precision: nat)
    requires precision <= 9 && WriteOf(a, b.path) && !IsRead(b) && Stamped(a) && Stamped(b)
    requires InRange(a.stamp) && InRange(b.stamp)
    ensures Cook([a, b], precision)[b.path] == (if Rounded(b.stamp, precision) > Rounded(a.stamp, precision) then b else a)
       <==> a == b || !(precision == 9 && Nanos(b.stamp) == Nanos(a.stamp) + 1)
  {
    assert [a, b][..1] == [a] && [a][..0] == [];
    assert Cook([a], precision) == map[a.path := a];
    CompareOrdersRounded(b.stamp, a.stamp, precision);
    assert precision == 9 ==> Pow10(0) == 1;
  }

  /* The order of the raw set. */

  /** pa_cmp on two actions: 0 only for the same object. */
  function PaCmp(a: PathAction, b: PathAction, precision: nat): int
    requires precision <= 9
  {
    var rc :=
      if IsRead(a) then (if IsRead(b) then PathCmp(a.path, b.path) else 1)
      else if IsRead(b) then -1
      else
        var t := Compare(a.stamp, b.stamp, precision);
        if t != 0 then t else if a.op == Unlink then 1 else if b.op == Unlink then -1 else 0;
    if a.address == b.address then 0 else if rc != 0 then rc else if a.address > b.address then 1 else -1
  }

  function PathCmp(a: string, b: string): int {
    if a == b then 0 else if Less(a, b) then -1 else 1
  }

  /** Two unlinks of the same rounded instant. */
  predicate UnlinksTogether(a: PathAction, b: PathAction, precision: nat)
    requires precision <= 9
  {
    a.op == Unlink && b.op == Unlink && Rounded(a.stamp, precision) == Rounded(b.stamp, precision)
  }

  /** Two writes of which one is later by the nanosecond compared wrongly. */
  predicate Neighbours(a: PathAction, b: PathAction, precision: nat) {
    !IsRead(a) && !IsRead(b) && (LateByOne(a.stamp, b.stamp, precision) || LateByOne(b.stamp, a.stamp, precision))
  }

  /** The comparison is antisymmetric if and only if it is not asked about two
      unlinks of the same instant or two writes a nanosecond apart. */
  lemma AntisymmetricButForUnlinks(a: PathAction, b: PathAction, precision: nat)
    requires precision <= 9 && InRange(a.stamp) && InRange(b.stamp) && a.address != b.address
    ensures PaCmp(a, b, precision) == -PaCmp(b, a, precision)
       <==> !UnlinksTogether(a, b, precision) && !Neighbours(a, b, precision)
  {
    CompareOrdersRounded(a.stamp, b.stamp, precision);
    CompareOrdersRounded(b.stamp, a.stamp, precision);
    LessIsOrder(a.path, b.path, a.path);
    assert Pow10(0) == 1;
  }

  /** What the order puts first: writes before reads, writes by their rounded time,
      an unlink after the other writes of its instant. */
  lemma OrderOfWrites(a: PathAction, b: PathAction, precision: nat)
    requires precision <= 9 && InRange(a.stamp) && InRange(b.stamp) && a.address != b.address
    ensures !IsRead(a) && IsRead(b) ==> PaCmp(a, b, precision) == -1 && PaCmp(b, a, precision) == 1
    ensures !IsRead(a) && !IsRead(b) && Rounded(a.stamp, precision) < Rounded(b.stamp, precision) ==>
              PaCmp(a, b, precision) == -1 && (PaCmp(b, a, precision) == 1 <==> !Neighbours(a, b, precision))
    ensures !IsRead(a) && a.op != Unlink && b.op == Unlink && Rounded(a.stamp, precision) == Rounded(b.stamp, precision) ==>
              PaCmp(a, b, precision) == -1 && PaCmp(b, a, precision) == 1
  {
    CompareOrdersRounded(a.stamp, b.stamp, precision);
    CompareOrdersRounded(b.stamp, a.stamp, precision);
    assert Pow10(0) == 1;
  }

  /** Which of two writes of one instant comes first. */
  predicate FirstOfInstant(a: PathAction, b: PathAction) {
    a.op != Unlink && (b.op == Unlink || a.address < b.address)
  }

  /** Three writes within two nanoseconds that the comparison puts in a circle. */
  predicate Circle(a: PathAction, b: PathAction, c: PathAction, precision: nat) {
    && precision == 9 && !IsRead(a) && !IsRead(b) && !IsRead(c)
    && var x, y, z := Nanos(a.stamp), Nanos(b.stamp), Nanos(c.stamp);
       (x == y + 1 && y == z + 1) || (x == z && (x == y + 1 || y == x + 1) && !FirstOfInstant(a, c))
  }

  /** Rounded times with the mistake, on numbers: `late` is whether it can occur. */
  predicate Before(x: int, y: int, late: bool, first: bool) {
    x < y || (late && x == y + 1) || (x == y && first)
  }

  /** The comparison of two writes, in terms of their times. */
  lemma WritesCompared(a: PathAction, b: PathAction, precision: nat)
    requires precision <= 9 && InRange(a.stamp) && InRange(b.stamp) && a.address != b.address && !IsRead(a) && !IsRead(b)
    ensures var x, y := Rounded(a.stamp, precision), Rounded(b.stamp, precision);
            PaCmp(a, b, precision) < 0 <==> Before(x, y, precision == 9, FirstOfInstant(a, b))
    ensures precision == 9 ==> Rounded(a.stamp, precision) == Nanos(a.stamp) && Rounded(b.stamp, precision) == Nanos(b.stamp)
  {
    CompareExactly(a.stamp, b.stamp, precision);
  }

  lemma BeforeInCircle(x: int, y: int, z: int, late: bool, ab: bool, bc: bool, ac: bool)
    requires Before(x, y, late, ab) && Before(y, z, late, bc) && (ab && bc ==> ac)
    ensures Before(x, z, late, ac)
       <==> !(late && ((x == y + 1 && y == z + 1) || (x == z && (x == y + 1 || y == x + 1) && !ac)))
  {
  }

  lemma WritesInCircle(a: PathAction, b: PathAction, c: PathAction, precision: nat)
    requires precision <= 9 && InRange(a.stamp) && InRange(b.stamp) && InRange(c.stamp)
    requires a.address != b.address && b.address != c.address && a.address != c.address
    requires !IsRead(a) && !IsRead(b) && !IsRead(c)
    requires PaCmp(a, b, precision) < 0 && PaCmp(b, c, precision) < 0
    ensures PaCmp(a, c, precision) < 0 <==> !Circle(a, b, c, precision)
  {
    var x, y, z := Rounded(a.stamp, precision), Rounded(b.stamp, precision), Rounded(c.stamp, precision);
    WritesCompared(a, b, precision);
    WritesCompared(b, c, precision);
    WritesCompared(a, c, precision);
    BeforeInCircle(x, y, z, precision == 9, FirstOfInstant(a, b), FirstOfInstant(b, c), FirstOfInstant(a, c));
  }

  /** It is transitive, if and only if it is not asked about such a circle. */
  lemma OrderIsTransitive(a: PathAction, b: PathAction, c: PathAction, precision: nat)
    requires precision <= 9 && InRange(a.stamp) && InRange(b.stamp) && InRange(c.stamp)
    requires a.address != b.address && b.address != c.address && a.address != c.address
    requires PaCmp(a, b, precision) < 0 && PaCmp(b, c, precision) < 0
    ensures PaCmp(a, c, precision) < 0 <==> !Circle(a, b, c, precision)
  {
    if IsRead(a) || IsRead(b) || IsRead(c) {
      LessIsOrder(a.path, b.path, c.path);
      LessIsOrder(b.path, a.path, b.path);
    } else {
      WritesInCircle(a, b, c, precision);
    }
  }

  predicate InOrder(raws: seq<PathAction>, precision: nat)
    requires precision <= 9
  {
    forall i, j {:trigger raws[i], raws[j]} | 0 <= i < j < |raws| ::
      raws[i].address != raws[j].address && PaCmp(raws[i], raws[j], precision) < 0
  }

  /** Coalesced in that order, an unlink is left of a path only if no other kind
      of write hit the path in the same instant or later, but for the nanosecond
      compared wrongly: of a rename's two halves the creation stays. */
  lemma UnlinkYields(raws: seq<PathAction>, path: string, precision: nat, i: nat)
    requires precision <= 9 && Uniform(raws, path, true) && TimesInRange(raws) && InOrder(raws, precision)
    requires i < |raws| && WriteOf(raws[i], path) && raws[i].op != Unlink
    ensures path in Cook(raws, precision)
    ensures var left := Cook(raws, precision)[path];
            left.op == Unlink ==> Rounded(left.stamp, precision) > Rounded(raws[i].stamp, precision)
                                  || LateByOne(raws[i].stamp, left.stamp, precision)
  {
    CoalescingKeepsTheBest(raws, path, true, precision);
    var k: nat :| Best(raws, path, true, precision, k) && Cook(raws, precision)[path] == raws[k];
    if raws[k].op == Unlink && Rounded(raws[k].stamp, precision) == Rounded(raws[i].stamp, precision) {
      assert BestAt(raws, true, precision, k, i);
      OrderOfWrites(raws[i], raws[k], precision);
    }
  }
}
