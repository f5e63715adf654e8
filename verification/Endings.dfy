/** How processes finish: each command's process sends one end line, about its last
    image, after everything else of it; when all are gone none is missing. */
module Endings {
  import opened AuditTable
  import opened Delivery
  import opened Handshake
  import opened Options

  /** The process `q` has sent its end. */
  predicate EndedIn(ls: seq<Line>, q: nat) {
    exists j :: 0 <= j < |ls| && ls[j].EndLine? && ls[j].key.cmdid == q
  }

  /** An end is about the last image of a process, and nothing starts in it afterwards. */
  ghost predicate EndPlaced(before: seq<Line>, l: Line) {
    match l
    case ActionLine(_) => true
    case EndLine(k) => !EndedIn(before, k.cmdid) && Below(before, k.cmdid, k.depth + 1)
    case StartLine(h) => !EndedIn(before, h.key.cmdid)
  }

  ghost predicate EndsOk(ls: seq<Line>) {
    forall i {:trigger EndPlaced(ls[..i], ls[i])} | 0 <= i < |ls| :: EndPlaced(ls[..i], ls[i])
  }

  lemma EndedInMore(ls: seq<Line>, l: Line, q: nat)
    ensures EndedIn(ls + [l], q) <==> EndedIn(ls, q) || (l.EndLine? && l.key.cmdid == q)
  {
    var more := ls + [l];
    if EndedIn(ls, q) {
      var j :| 0 <= j < |ls| && ls[j].EndLine? && ls[j].key.cmdid == q;
      assert more[j] == ls[j];
    }
    if EndedIn(more, q) {
      var j :| 0 <= j < |more| && more[j].EndLine? && more[j].key.cmdid == q;
      assert j < |ls| ==> ls[j] == more[j];
    }
    assert more[|ls|] == l;
  }

  lemma EndsMore(ls: seq<Line>, l: Line)
    requires EndsOk(ls) && EndPlaced(ls, l)
    ensures EndsOk(ls + [l])
  {
    var more := ls + [l];
    forall i | 0 <= i < |more| ensures EndPlaced(more[..i], more[i]) {
      assert more[..i] == if i < |ls| then ls[..i] else ls;
    }
  }

  /* The inductive invariant. */

  predicate NoEnd(ls: seq<Line>) {
    forall i | 0 <= i < |ls| :: !ls[i].EndLine?
  }

  /** All but the last, which is the end of `k`. */
  predicate EndsWith(ls: seq<Line>, k: Key) {
    ls != [] && NoEnd(ls[..|ls| - 1]) && ls[|ls| - 1] == EndLine(k)
  }

  /** Where the end line of a process is: nowhere until it exits, then last on its wire,
      then with the monitor. A process that announced no command sends none. */
  ghost predicate FinishOk(s: System, p: nat)
    requires p in s.procs
  {
    var a, wire, ended := s.procs[p], if p in s.wire then s.wire[p] else [], EndedIn(s.handled, p);
    && (a.started <==> a.image.key.cmdid == p)
    && NoEnd(a.memory) && NoEnd(a.file)
    && match a.phase
       case AwaitEnd => if a.started then (EndsWith(wire, a.image.key) && !ended) || (wire == [] && ended) else NoEnd(wire) && !ended
       case Gone => ended == a.started
       case _ => NoEnd(wire) && !ended
  }

  ghost predicate FinishesOk(s: System) {
    && (forall p {:trigger FinishOk(s, p)} | p in s.procs :: FinishOk(s, p))
    && (forall p | EndedIn(s.handled, p) :: p in s.procs)
  }

  /** A step that handles nothing, for the process it is taken by and for the others. */
  lemma ActorFinishes(s: System, e: Event)
    requires SystemOk(s) && FinishesOk(s) && Enabled(s, e) && !e.Handle?
    ensures FinishOk(Apply(s, e), e.p)
  {
    assert ProcessOk(s, e.p) && FinishOk(s, e.p);
    var a := s.procs[e.p];
    assert e.Exit? ==> NoEnd(a.file + a.memory);
  }

  lemma OthersFinish(s: System, e: Event, q: nat)
    requires SystemOk(s) && FinishesOk(s) && Enabled(s, e) && !e.Handle? && q in Apply(s, e).procs && q != e.p
    ensures FinishOk(Apply(s, e), q)
  {
    if q in s.procs {
      assert FinishOk(s, q);
    } else {
      assert ProcessOk(s, e.p);
    }
  }

  /** A line read by the monitor is in its place. */
  lemma HeadPlaced(s: System, p: nat)
    requires SystemOk(s) && FinishesOk(s) && Enabled(s, Handle(p))
    ensures p in s.procs && EndPlaced(s.handled, s.wire[p][0])
    ensures s.wire[p][0].EndLine? ==>
              s.wire[p] == [EndLine(s.procs[p].image.key)] && s.procs[p].started && s.procs[p].phase == AwaitEnd
    ensures s.procs[p].phase == AwaitEnd && s.procs[p].started ==> EndsWith(s.wire[p], s.procs[p].image.key)
  {
    assert ProcessOk(s, p) && FinishOk(s, p);
    var w := s.wire[p];
    assert |w| > 1 ==> w[..|w| - 1][0] == w[0];
  }

  lemma RestEnds(w: seq<Line>, k: Key)
    requires EndsWith(w, k)
    ensures if |w| == 1 then w[0] == EndLine(k) else !w[0].EndLine? && EndsWith(w[1..], k)
  {
    if |w| > 1 {
      assert w[..|w| - 1][0] == w[0];
      assert w[1..][..|w[1..]| - 1] == w[..|w| - 1][1..];
    }
  }

  lemma ReaderFinishes(s: System, p: nat)
    requires SystemOk(s) && FinishesOk(s) && Enabled(s, Handle(p)) && p in s.procs
    ensures FinishOk(Apply(s, Handle(p)), p)
  {
    var w, a := s.wire[p], s.procs[p];
    HeadPlaced(s, p);
    EndedInMore(s.handled, w[0], p);
    assert FinishOk(s, p) && ProcessOk(s, p);
    if a.phase == AwaitEnd && a.started {
      RestEnds(w, a.image.key);
    } else {
      assert NoEnd(w) && NoEnd(w[1..]);
    }
  }

  lemma HandleFinishes(s: System, p: nat, q: nat)
    requires SystemOk(s) && FinishesOk(s) && Enabled(s, Handle(p)) && q in s.procs
    ensures FinishOk(Apply(s, Handle(p)), q)
  {
    HeadPlaced(s, p);
    if q == p {
      ReaderFinishes(s, p);
    } else {
      assert FinishOk(s, q) && FinishOk(s, p);
      EndedInMore(s.handled, s.wire[p][0], q);
    }
  }

  lemma FinishStep(s: System, e: Event)
    requires SystemOk(s) && FinishesOk(s) && Enabled(s, e)
    ensures FinishesOk(Apply(s, e))
    ensures e.Handle? ==> EndPlaced(s.handled, s.wire[e.p][0])
  {
    var s' := Apply(s, e);
    StepHistory(s, e);
    forall q | q in s'.procs ensures FinishOk(s', q) {
      if e.Handle? {
        HandleFinishes(s, e.p, q);
      } else if q == e.p {
        ActorFinishes(s, e);
      } else {
        OthersFinish(s, e, q);
      }
    }
    if e.Handle? {
      HeadPlaced(s, e.p);
      forall q | EndedIn(s'.handled, q) ensures q in s'.procs {
        EndedInMore(s.handled, s.wire[e.p][0], q);
        assert FinishOk(s, e.p);
      }
    }
  }

  /** In every interleaving ends are in their place. */
  lemma {:induction false} EveryInterleavingFinishes(states: seq<System>, trace: seq<Event>, n: nat)
    requires Interleaving(states, trace) && n <= |trace|
    ensures SystemOk(states[n]) && FinishesOk(states[n]) && EndsOk(states[n].handled)
    decreases n
  {
    EmptiedAlways(states, trace, n);
    if n > 0 {
      var s, e := states[n - 1], trace[n - 1];
      EveryInterleavingFinishes(states, trace, n - 1);
      FinishStep(s, e);
      StepHistory(s, e);
      if e.Handle? {
        EndsMore(s.handled, s.wire[e.p][0]);
      }
    }
  }

  ghost predicate AllGone(s: System) {
    forall p | p in s.procs :: s.procs[p].phase == Gone
  }

  /** When every process is gone, every process in which a command was started has
      sent its end. */
  lemma AllEnded(states: seq<System>, trace: seq<Event>, k: Key)
    requires Interleaving(states, trace) && StartedIn(states[|trace|].handled, k)
    requires AllGone(states[|trace|])
    ensures EndedIn(states[|trace|].handled, k.cmdid)
  {
    var s := states[|trace|];
    EveryInterleavingFinishes(states, trace, |trace|);
    assert ProcessOk(s, k.cmdid) && FinishOk(s, k.cmdid);
  }

  /* No deadlock. */

  /** What a process does next on the shortest way to its end, or what the monitor does
      that it waits for. */
  function NextStep(s: System, p: nat): Event
    requires p in s.procs
  {
    match s.procs[p].phase
    case Booting => SendStart(p)
    case Running => Exit(p)
    case Execing => ExecFails(p)
    case _ => if p in s.wire && s.wire[p] != [] then Handle(p) else Acknowledge(p)
  }

  /** How many such steps are left, at most. */
  function StepsLeft(s: System, p: nat): nat
    requires p in s.procs
  {
    var a, w := s.procs[p], if p in s.wire then |s.wire[p]| else 0;
    match a.phase
    case Gone => 0
    case AwaitEnd => 1 + w
    case Running => 3 + |a.file| + |a.memory|
    case Execing => 4 + |a.file| + |a.memory|
    case AwaitStart => 5 + w + |a.file| + |a.memory|
    case AwaitFlush => 5 + w + |a.file| + |a.memory|
    case Booting => 7 + |a.file| + |a.memory|
  }

  lemma NextStepHelps(s: System, p: nat)
    requires SystemOk(s) && p in s.procs && s.procs[p].phase != Gone
    ensures var e := NextStep(s, p);
            && Enabled(s, e)
            && Apply(s, e).procs.Keys == s.procs.Keys && StepsLeft(Apply(s, e), p) < StepsLeft(s, p)
            && forall q | q in s.procs && q != p :: Apply(s, e).procs[q] == s.procs[q]
  {
    assert ProcessOk(s, p);
  }

  lemma OneStepMore(states: seq<System>, trace: seq<Event>, e: Event)
    requires Interleaving(states, trace) && Enabled(states[|trace|], e)
    ensures Interleaving(states + [Apply(states[|trace|], e)], trace + [e])
  {
  }

  /** A process can finish while no other does anything. */
  lemma {:induction false} CanFinish(states: seq<System>, trace: seq<Event>, p: nat) returns (states': seq<System>, trace': seq<Event>)
    requires Interleaving(states, trace) && p in states[|trace|].procs
    ensures Interleaving(states', trace') && states <= states' && trace <= trace'
    ensures var s, s' := states[|trace|], states'[|trace'|];
            && s'.procs.Keys == s.procs.Keys && s'.procs[p].phase == Gone
            && forall q | q in s.procs && q != p :: s'.procs[q] == s.procs[q]
    decreases StepsLeft(states[|trace|], p)
  {
    var s := states[|trace|];
    if s.procs[p].phase == Gone {
      states', trace' := states, trace;
    } else {
      EmptiedAlways(states, trace, |trace|);
      NextStepHelps(s, p);
      var e := NextStep(s, p);
      OneStepMore(states, trace, e);
      states', trace' := CanFinish(states + [Apply(s, e)], trace + [e], p);
    }
  }

  /** The processes that are not gone yet. */
  function Left(s: System): set<nat> {
    set p | p in s.procs && s.procs[p].phase != Gone
  }

  /** Nobody ever waits for something that cannot come: every interleaving can go on
      until all processes are gone. */
  lemma {:induction false} CanAllFinish(states: seq<System>, trace: seq<Event>) returns (states': seq<System>, trace': seq<Event>)
    requires Interleaving(states, trace)
    ensures Interleaving(states', trace') && states <= states' && trace <= trace' && AllGone(states'[|trace'|])
    decreases |Left(states[|trace|])|
  {
    var s := states[|trace|];
    if Left(s) == {} {
      assert forall p | p in s.procs :: p in Left(s) <==> s.procs[p].phase != Gone;
      states', trace' := states, trace;
    } else {
      var p :| p in Left(s);
      var more, events := CanFinish(states, trace, p);
      assert Left(more[|events|]) == Left(s) - {p};
      states', trace' := CanAllFinish(more, events);
    }
  }
}
