/** Nothing a process records is lost, doubled or reordered on its way to the
    monitor, whatever forks, execs and exits come in between. What was recorded is
    counted from the events, not from what they do to the system. */
module Delivery {
  import opened AuditTable
  import opened Handshake
  import opened Options

  /** The line an event makes process `p` record in the state `s`. */
  function RecordedBy(s: System, e: Event, p: nat): seq<Line> {
    if p !in s.procs then []
    else if e == SendStart(p) then [StartLine(s.procs[p].image)]
    else if e == Act(p) then [ActionLine(s.procs[p].image.key)]
    else if e == Exit(p) && s.procs[p].started then [EndLine(s.procs[p].image.key)]
    else []
  }

  /** All that process `p` has recorded in the first `n` steps. */
  function Recorded(states: seq<System>, trace: seq<Event>, p: nat, n: nat): seq<Line>
    requires n <= |trace| && n <= |states|
  {
    if n == 0 then [] else Recorded(states, trace, p, n - 1) + RecordedBy(states[n - 1], trace[n - 1], p)
  }

  /** What the monitor has read from connections of process `p`. */
  function Delivered(states: seq<System>, trace: seq<Event>, p: nat, n: nat): seq<Line>
    requires n <= |trace| && n <= |states|
  {
    if n == 0 then []
    else Delivered(states, trace, p, n - 1) + ReadFrom(states[n - 1], trace[n - 1], p)
  }

  function ReadFrom(s: System, e: Event, p: nat): seq<Line> {
    if e == Handle(p) && p in s.wire && s.wire[p] != [] then [s.wire[p][0]] else []
  }

  /** What process `p` has on the wire, in its file and in memory, oldest first. */
  function Pending(s: System, p: nat): seq<Line> {
    (if p in s.wire then s.wire[p] else []) + (if p in s.procs then s.procs[p].file + s.procs[p].memory else [])
  }

  /* The invariant. */

  /** A process that waits or is between images has nothing in memory or file. */
  predicate Emptied(s: System, p: nat)
    requires p in s.procs
  {
    s.procs[p].phase == Running || (s.procs[p].memory == [] && s.procs[p].file == [])
  }

  ghost predicate AllEmptied(s: System) {
    forall p {:trigger Emptied(s, p)} | p in s.procs :: Emptied(s, p)
  }

  lemma EmptiedStep(s: System, e: Event)
    requires SystemOk(s) && AllEmptied(s) && Enabled(s, e)
    ensures AllEmptied(Apply(s, e))
  {
    var s' := Apply(s, e);
    forall q | q in s'.procs ensures Emptied(s', q) {
      assert q in s.procs ==> Emptied(s, q) && ProcessOk(s, q);
    }
  }

  /** One step: what is pending grows by what is recorded and shrinks by what is read. */
  lemma PendingStep(s: System, e: Event, p: nat)
    requires SystemOk(s) && AllEmptied(s) && Enabled(s, e)
    ensures Pending(s, p) + RecordedBy(s, e, p) == ReadFrom(s, e, p) + Pending(Apply(s, e), p)
  {
    if p in s.procs {
      assert Emptied(s, p) && ProcessOk(s, p);
    }
  }

  lemma {:induction false} EmptiedAlways(states: seq<System>, trace: seq<Event>, n: nat)
    requires Interleaving(states, trace) && n <= |trace|
    ensures SystemOk(states[n]) && AllEmptied(states[n])
    decreases n
  {
    if n == 0 {
      InitialOk(states[0]);
    } else {
      EmptiedAlways(states, trace, n - 1);
      StepOk(states[n - 1], trace[n - 1]);
      EmptiedStep(states[n - 1], trace[n - 1]);
    }
  }

  /* Process by process. */

  /** At every point of every interleaving: what a process has recorded is what the
      monitor has read of it followed by what is still on the way, in this order.
      A fork or an exec copies and drops nothing. */
  lemma {:induction false} NothingLost(states: seq<System>, trace: seq<Event>, p: nat, n: nat)
    requires Interleaving(states, trace) && n <= |trace|
    ensures Recorded(states, trace, p, n) == Delivered(states, trace, p, n) + Pending(states[n], p)
    decreases n
  {
    if n > 0 {
      var s, e := states[n - 1], trace[n - 1];
      NothingLost(states, trace, p, n - 1);
      EmptiedAlways(states, trace, n - 1);
      PendingStep(s, e, p);
      Regrouped(Delivered(states, trace, p, n - 1), Pending(s, p), RecordedBy(s, e, p), ReadFrom(s, e, p), Pending(states[n], p));
    }
  }

  lemma Regrouped(d: seq<Line>, a: seq<Line>, r: seq<Line>, h: seq<Line>, b: seq<Line>)
    requires a + r == h + b
    ensures (d + a) + r == (d + h) + b
  {
    assert (d + a) + r == d + (a + r);
    assert (d + h) + b == d + (h + b);
  }

  /** When a process is gone and its connection closed, all it recorded was read. */
  lemma GoneIsDelivered(states: seq<System>, trace: seq<Event>, p: nat, n: nat)
    requires Interleaving(states, trace) && n <= |trace|
    requires p in states[n].procs ==> states[n].procs[p].phase == Gone
    ensures Recorded(states, trace, p, n) == Delivered(states, trace, p, n)
  {
    NothingLost(states, trace, p, n);
    EmptiedAlways(states, trace, n);
    if p in states[n].procs {
      assert Emptied(states[n], p) && ProcessOk(states[n], p);
    }
  }

  /** Whether the process has ended. */
  predicate Ended(s: System, p: nat) {
    p in s.procs && (s.procs[p].phase == AwaitEnd || s.procs[p].phase == Gone)
  }

  lemma EndStays(s: System, e: Event, p: nat)
    requires Enabled(s, e)
    ensures Ended(s, p) ==> Ended(Apply(s, e), p) && RecordedBy(s, e, p) == []
    ensures RecordedBy(s, e, p) != [] && RecordedBy(s, e, p)[0].EndLine? ==> Ended(Apply(s, e), p)
  {
  }

  /** An end line is the last a process records, and only a process that has exited
      has recorded one: on no connection does anything follow it. */
  lemma {:induction false} EndIsLast(states: seq<System>, trace: seq<Event>, p: nat, n: nat)
    requires Interleaving(states, trace) && n <= |trace|
    ensures var ls := Recorded(states, trace, p, n);
            && (forall i | 0 <= i < |ls| - 1 :: !ls[i].EndLine?)
            && (ls != [] && ls[|ls| - 1].EndLine? ==> Ended(states[n], p))
    decreases n
  {
    if n > 0 {
      EndIsLast(states, trace, p, n - 1);
      EndStays(states[n - 1], trace[n - 1], p);
    }
  }

  /** So it is on any open connection. */
  lemma EndIsLastOnWire(states: seq<System>, trace: seq<Event>, p: nat, n: nat, i: nat)
    requires Interleaving(states, trace) && n <= |trace| && p in states[n].wire && i < |states[n].wire[p]|
    requires states[n].wire[p][i].EndLine?
    ensures i == |states[n].wire[p]| - 1
  {
    NothingLost(states, trace, p, n);
    EndIsLast(states, trace, p, n);
    var d := Delivered(states, trace, p, n);
    var ls := Recorded(states, trace, p, n);
    assert Pending(states[n], p)[i] == states[n].wire[p][i];
    assert ls[|d| + i] == Pending(states[n], p)[i];
  }

  /* All processes together. */

  /** The event is one that records the line: a start, an action, or the exit of a
      process that announced its command. */
  predicate Records(s: System, e: Event, l: Line) {
    match e
    case SendStart(p) => p in s.procs && l == StartLine(s.procs[p].image)
    case Act(p) => p in s.procs && l == ActionLine(s.procs[p].image.key)
    case Exit(p) => p in s.procs && s.procs[p].started && l == EndLine(s.procs[p].image.key)
    case _ => false
  }

  /** How many of the first `n` events record the line. */
  function Times(states: seq<System>, trace: seq<Event>, l: Line, n: nat): nat
    requires n <= |trace| && n <= |states|
  {
    if n == 0 then 0
    else Times(states, trace, l, n - 1) + if Records(states[n - 1], trace[n - 1], l) then 1 else 0
  }

  function Sum(f: nat -> nat, n: nat): nat {
    if n == 0 then 0 else Sum(f, n - 1) + f(n - 1)
  }

  function PendingTimes(s: System, l: Line): nat -> nat {
    p => multiset(Pending(s, p))[l]
  }

  function RecordedTimes(s: System, e: Event, l: Line): nat -> nat {
    p => multiset(RecordedBy(s, e, p))[l]
  }

  function ReadTimes(s: System, e: Event, l: Line): nat -> nat {
    p => multiset(ReadFrom(s, e, p))[l]
  }

  /** How often the line is on the way, for processes with ids below `bound`. */
  function OnTheWay(s: System, l: Line, bound: nat): nat {
    Sum(PendingTimes(s, l), bound)
  }

  lemma {:induction false} SumBalances(a: nat -> nat, b: nat -> nat, c: nat -> nat, d: nat -> nat, n: nat)
    requires forall p: nat | p < n :: a(p) + b(p) == c(p) + d(p)
    ensures Sum(a, n) + Sum(b, n) == Sum(c, n) + Sum(d, n)
  {
    if n > 0 {
      SumBalances(a, b, c, d, n - 1);
    }
  }

  lemma {:induction false} SumOfOne(f: nat -> nat, p: nat, n: nat)
    requires forall q: nat | q < n && q != p :: f(q) == 0
    ensures Sum(f, n) == if p < n then f(p) else 0
  {
    if n > 0 {
      SumOfOne(f, p, n - 1);
    }
  }

  /** Only the acting process records anything. */
  lemma RecordedOnce(s: System, e: Event, l: Line, bound: nat)
    requires Enabled(s, e) && e.p < bound
    ensures Sum(RecordedTimes(s, e, l), bound) == if Records(s, e, l) then 1 else 0
  {
    forall q: nat | q < bound && q != e.p ensures RecordedTimes(s, e, l)(q) == 0 {
      assert RecordedBy(s, e, q) == [];
    }
    SumOfOne(RecordedTimes(s, e, l), e.p, bound);
  }

  /** What is read is what is handled. */
  lemma ReadIsHandled(s: System, e: Event, l: Line, bound: nat)
    requires Enabled(s, e) && e.p < bound
    ensures multiset(Apply(s, e).handled)[l] == multiset(s.handled)[l] + Sum(ReadTimes(s, e, l), bound)
  {
    forall q: nat | q < bound && q != e.p ensures ReadTimes(s, e, l)(q) == 0 {
      assert ReadFrom(s, e, q) == [];
    }
    SumOfOne(ReadTimes(s, e, l), e.p, bound);
    assert Apply(s, e).handled == s.handled + ReadFrom(s, e, e.p);
  }

  lemma ActorIsKnown(s: System, e: Event)
    requires SystemOk(s) && Enabled(s, e)
    ensures e.p in s.procs
  {
  }

  /** One step, over all processes. */
  lemma OnTheWayStep(s: System, e: Event, l: Line, bound: nat)
    requires SystemOk(s) && AllEmptied(s) && Enabled(s, e) && forall p | p in s.procs :: p < bound
    ensures OnTheWay(s, l, bound) + (if Records(s, e, l) then 1 else 0) + multiset(s.handled)[l]
         == multiset(Apply(s, e).handled)[l] + OnTheWay(Apply(s, e), l, bound)
  {
    var s' := Apply(s, e);
    forall p: nat | p < bound
      ensures PendingTimes(s, l)(p) + RecordedTimes(s, e, l)(p) == ReadTimes(s, e, l)(p) + PendingTimes(s', l)(p)
    {
      PendingStep(s, e, p);
      MultisetsBalance(Pending(s, p), RecordedBy(s, e, p), ReadFrom(s, e, p), Pending(s', p), l);
    }
    SumBalances(PendingTimes(s, l), RecordedTimes(s, e, l), ReadTimes(s, e, l), PendingTimes(s', l), bound);
    ActorIsKnown(s, e);
    RecordedOnce(s, e, l, bound);
    ReadIsHandled(s, e, l, bound);
  }

  lemma MultisetsBalance(a: seq<Line>, b: seq<Line>, c: seq<Line>, d: seq<Line>, l: Line)
    requires a + b == c + d
    ensures multiset(a)[l] + multiset(b)[l] == multiset(c)[l] + multiset(d)[l]
  {
    assert multiset(a + b)[l] == multiset(a)[l] + multiset(b)[l];
    assert multiset(c + d)[l] == multiset(c)[l] + multiset(d)[l];
    assert multiset(a + b) == multiset(c + d);
  }

  /** At every point of every interleaving each line was recorded as often as it has
      been handled or is still on a wire, in a file or in memory. */
  lemma {:induction false} LinesAddUp(states: seq<System>, trace: seq<Event>, l: Line, n: nat, bound: nat)
    requires Interleaving(states, trace) && n <= |trace| && forall p | p in states[n].procs :: p < bound
    ensures Times(states, trace, l, n) == multiset(states[n].handled)[l] + OnTheWay(states[n], l, bound)
    decreases n
  {
    if n == 0 {
      forall p: nat | p < bound ensures Pending(states[0], p) == [] {}
      SumOfOne(PendingTimes(states[0], l), bound, bound);
    } else {
      StepHistory(states[n - 1], trace[n - 1]);
      LinesAddUp(states, trace, l, n - 1, bound);
      EmptiedAlways(states, trace, n - 1);
      OnTheWayStep(states[n - 1], trace[n - 1], l, bound);
    }
  }

  /** Once every process is gone the monitor has handled each line exactly as often
      as it was recorded: every action once, and one end for each exit. */
  lemma AllHandled(states: seq<System>, trace: seq<Event>, l: Line)
    requires Interleaving(states, trace)
    requires var s := states[|trace|]; forall p | p in s.procs :: s.procs[p].phase == Gone
    ensures Times(states, trace, l, |trace|) == multiset(states[|trace|].handled)[l]
  {
    var s := states[|trace|];
    var bound := Bound(s.procs.Keys);
    LinesAddUp(states, trace, l, |trace|, bound);
    EmptiedAlways(states, trace, |trace|);
    forall p: nat ensures Pending(s, p) == [] {
      assert p in s.procs ==> Emptied(s, p) && ProcessOk(s, p);
    }
    SumOfOne(PendingTimes(s, l), bound, bound);
  }

  /** Some number above all of a set. */
  lemma {:induction false} Bound(ids: set<nat>) returns (bound: nat)
    ensures forall p | p in ids :: p < bound
    decreases |ids|
  {
    bound := 0;
    if ids != {} {
      var p :| p in ids;
      var rest := Bound(ids - {p});
      bound := if p < rest then rest else p + 1;
      assert forall q | q in ids :: q == p || q in ids - {p};
    }
  }
}
