/** Auditor processes talking to the monitor: every interleaving of their steps
    delivers records in an order the monitor can rely on. */
module Handshake {
  import opened AuditTable
  import opened Options

  /** A line on the wire. */
  datatype Line = StartLine(header: Header) | ActionLine(key: Key) | EndLine(key: Key)

  /** Where a process stands. In the three waiting phases it has an open
      connection and is blocked until the monitor closes it. */
  datatype Phase = Booting | AwaitStart | Running | AwaitFlush | Execing | AwaitEnd | Gone

  /** `image` describes the command the process works for: its own after an
      exec, its parent's between fork and exec. `memory` is the list of actions
      not yet written to the temporary file `file`. */
  datatype Process = Process(image: Header, started: bool, memory: seq<Line>, file: seq<Line>, phase: Phase)

  /** `wire` holds the lines of each open connection the monitor has not read. */
  datatype System = System(procs: map<nat, Process>, wire: map<nat, seq<Line>>, handled: seq<Line>)

  datatype Event =
    | SendStart(p: nat)
    | Act(p: nat)
    | Fork(p: nat, child: nat)
    | PreExec(p: nat)
    | ExecFails(p: nat)
    | ExecWorks(p: nat, ccode: string)
    | Exit(p: nat)
    | Handle(p: nat)
    | Acknowledge(p: nat)

  function Boot(pid: nat, image: Header): Process {
    Process(image, true, [], [], Booting)
  }

  /** The build starts with one process at depth 0 without a parent command. */
  predicate Initial(s: System) {
    && s.wire == map[] && s.handled == []
    && exists p | p in s.procs ::
         p != 0 && s.procs.Keys == {p} && s.procs[p] == Boot(p, s.procs[p].image)
         && s.procs[p].image.key.cmdid == p && s.procs[p].image.key.depth == 0
  }

  predicate In(s: System, p: nat, phase: Phase) {
    p in s.procs && s.procs[p].phase == phase
  }

  predicate Waiting(phase: Phase) {
    phase == AwaitStart || phase == AwaitFlush || phase == AwaitEnd
  }

  predicate Enabled(s: System, e: Event) {
    match e
    case SendStart(p) => In(s, p, Booting)
    case Act(p) => In(s, p, Running)
    case Fork(p, child) => In(s, p, Running) && child !in s.procs && child != 0
    case PreExec(p) => In(s, p, Running)
    case ExecFails(p) => In(s, p, Execing)
    case ExecWorks(p, _) => In(s, p, Execing)
    case Exit(p) => In(s, p, Running)
    case Handle(p) => p in s.wire && s.wire[p] != []
    case Acknowledge(p) => p in s.procs && Waiting(s.procs[p].phase) && p in s.wire && s.wire[p] == []
  }

  function AfterAck(phase: Phase): Phase
    requires Waiting(phase)
  {
    match phase
    case AwaitStart => Running
    case AwaitFlush => Execing
    case AwaitEnd => Gone
  }

  function Apply(s: System, e: Event): System
    requires Enabled(s, e)
  {
    match e
    case SendStart(p) =>
      s.(procs := s.procs[p := s.procs[p].(phase := AwaitStart)], wire := s.wire[p := [StartLine(s.procs[p].image)]])
    case Act(p) =>
      var a := s.procs[p];
      s.(procs := s.procs[p := a.(memory := a.memory + [ActionLine(a.image.key)])])
    case Fork(p, child) =>
      var a := s.procs[p];
      var parent := a.(file := a.file + a.memory, memory := []);
      // The child has a copy of the parent's memory, and opens a file of its own.
      s.(procs := s.procs[p := parent][child := parent.(started := false, file := [])])
    case PreExec(p) =>
      var a := s.procs[p];
      s.(procs := s.procs[p := a.(memory := [], file := [], phase := AwaitFlush)], wire := s.wire[p := a.file + a.memory])
    case ExecFails(p) =>
      s.(procs := s.procs[p := s.procs[p].(phase := Running)])
    case ExecWorks(p, ccode) =>
      var was := s.procs[p].image;
      s.(procs := s.procs[p := Boot(p, Header(Key(ccode, was.key.depth + 1, p), was.key.ccode, was.key.cmdid))])
    case Exit(p) =>
      var a := s.procs[p];
      var end := if a.started then [EndLine(a.image.key)] else [];
      s.(procs := s.procs[p := a.(memory := [], file := [], phase := AwaitEnd)], wire := s.wire[p := a.file + a.memory + end])
    case Handle(p) =>
      s.(wire := s.wire[p := s.wire[p][1..]], handled := s.handled + [s.wire[p][0]])
    case Acknowledge(p) =>
      s.(procs := s.procs[p := s.procs[p].(phase := AfterAck(s.procs[p].phase))], wire := s.wire - {p})
  }

  /** `trace[i]` leads from `states[i]` to `states[i + 1]`. */
  predicate Interleaving(states: seq<System>, trace: seq<Event>) {
    && |states| == |trace| + 1 && Initial(states[0])
    && forall i | 0 <= i < |trace| :: Enabled(states[i], trace[i]) && states[i + 1] == Apply(states[i], trace[i])
  }

  /* What holds of the lines the monitor has handled. */

  predicate StartedIn(ls: seq<Line>, k: Key) {
    exists j :: 0 <= j < |ls| && ls[j].StartLine? && ls[j].header.key == k
  }

  /** The command a new image descends from. */
  function ParentKey(h: Header): Option<Key> {
    if h.key.depth > 0 then Some(Key(h.pccode, h.key.depth - 1, h.pcmdid)) else None
  }

  /** Every start handled so far for process id `p` was less deep than `depth`. */
  ghost predicate Below(ls: seq<Line>, p: nat, depth: nat) {
    forall j | 0 <= j < |ls| && ls[j].StartLine? && ls[j].header.key.cmdid == p :: ls[j].header.key.depth < depth
  }

  /** A line may be handled after `before`: actions and ends follow the start of
      their command; a start follows its parent's start and every start of an
      earlier image of its process, which was less deep; and if its parent is another
      process there is none. */
  ghost predicate LineOk(before: seq<Line>, l: Line) {
    match l
    case ActionLine(k) => StartedIn(before, k)
    case EndLine(k) => StartedIn(before, k)
    case StartLine(h) =>
      && h.key.cmdid != 0
      && (h.key.depth > 0 ==> h.pcmdid != 0 && StartedIn(before, ParentKey(h).value))
      && Below(before, h.key.cmdid, h.key.depth)
      && (h.pcmdid != h.key.cmdid ==> Below(before, h.key.cmdid, 0))
  }

  ghost predicate OrderOk(ls: seq<Line>) {
    forall i {:trigger LineOk(ls[..i], ls[i])} | 0 <= i < |ls| :: LineOk(ls[..i], ls[i])
  }

  /* The inductive invariant. */

  /** Lines a running or finishing process may hold: all about its own command. */
  ghost predicate OwnLines(ls: seq<Line>, k: Key) {
    forall i | 0 <= i < |ls| :: ls[i] == ActionLine(k) || ls[i] == EndLine(k)
  }

  /** A process about to announce its image, or waiting for that to be handled. */
  ghost predicate AnnounceOk(s: System, p: nat)
    requires p in s.procs
  {
    var h := s.procs[p].image;
    h.key.cmdid == p && LineOk(s.handled, StartLine(h)) && s.procs[p].memory == [] && s.procs[p].file == []
  }

  ghost predicate ProcessOk(s: System, p: nat)
    requires p in s.procs
  {
    var a, k := s.procs[p], s.procs[p].image.key;
    && p != 0 && k.cmdid in s.procs && k.cmdid != 0
    && (p in s.wire <==> Waiting(a.phase))
    && match a.phase
       case Booting => AnnounceOk(s, p)
       case AwaitStart =>
         (s.wire[p] == [StartLine(a.image)] && AnnounceOk(s, p))
         || (s.wire[p] == [] && a.memory == [] && a.file == [] && WorkOk(s, p))
       case AwaitFlush => OwnLines(s.wire[p], k) && WorkOk(s, p)
       case AwaitEnd => OwnLines(s.wire[p], k) && WorkOk(s, p)
       case _ => WorkOk(s, p)
  }

  /** A process past its announcement: its command is known to the monitor and
      any further image of this process id will be deeper than all before; while it
      still works for its parent's command it has announced none. */
  ghost predicate WorkOk(s: System, p: nat)
    requires p in s.procs
  {
    var a, k := s.procs[p], s.procs[p].image.key;
    && StartedIn(s.handled, k) && OwnLines(a.memory, k) && OwnLines(a.file, k)
    && Below(s.handled, p, k.depth + 1) && (k.cmdid != p ==> Below(s.handled, p, 0))
  }

  ghost predicate ProcessesOk(s: System) {
    s.wire.Keys <= s.procs.Keys && forall p {:trigger ProcessOk(s, p)} | p in s.procs :: ProcessOk(s, p)
  }

  /** Every process id a handled start names belongs to some process. */
  ghost predicate IdsKnown(s: System) {
    forall j | 0 <= j < |s.handled| && s.handled[j].StartLine? :: s.handled[j].header.key.cmdid in s.procs
  }

  ghost predicate SystemOk(s: System) {
    OrderOk(s.handled) && ProcessesOk(s) && IdsKnown(s)
  }

  lemma InitialOk(s: System)
    requires Initial(s)
    ensures SystemOk(s)
  {
  }

  /** What is known of a process does not depend on the other processes. */
  lemma ProcessFrame(s: System, s': System, q: nat)
    requires q in s.procs && ProcessOk(s, q) && s'.handled == s.handled && s.procs.Keys <= s'.procs.Keys
    requires q in s'.procs && s'.procs[q] == s.procs[q]
    requires (q in s.wire <==> q in s'.wire) && (q in s.wire ==> s.wire[q] == s'.wire[q])
    ensures ProcessOk(s', q)
  {
  }

  /** Steps that handle no line and leave other processes alone. */
  lemma LocalStep(s: System, s': System, p: nat)
    requires ProcessesOk(s) && p in s.procs && s'.handled == s.handled
    requires s.procs.Keys <= s'.procs.Keys && s'.wire.Keys <= s'.procs.Keys
    requires forall q | q in s.procs && q != p :: s'.procs[q] == s.procs[q]
    requires forall q | q in s.procs && q != p :: (q in s.wire <==> q in s'.wire) && (q in s.wire ==> s.wire[q] == s'.wire[q])
    requires ProcessOk(s', p)
    requires forall q | q in s'.procs && q !in s.procs :: ProcessOk(s', q)
    ensures ProcessesOk(s')
  {
    forall q | q in s'.procs ensures ProcessOk(s', q) {
      if q in s.procs && q != p {
        assert ProcessOk(s, q);
        ProcessFrame(s, s', q);
      }
    }
  }

  /** The steps a process takes by itself. */
  predicate IsLocal(e: Event) {
    e.SendStart? || e.Act? || e.PreExec? || e.ExecFails? || e.Exit? || e.Acknowledge?
  }

  /** The acting process after one of its own steps. */
  lemma ActorOk(s: System, e: Event, p: nat)
    requires p in s.procs && ProcessOk(s, p) && Enabled(s, e) && IsLocal(e) && e.p == p
    ensures ProcessOk(Apply(s, e), p)
  {
  }

  lemma ForkOk(s: System, p: nat, child: nat)
    requires ProcessesOk(s) && IdsKnown(s) && Enabled(s, Fork(p, child))
    ensures ProcessesOk(Apply(s, Fork(p, child)))
  {
    var s' := Apply(s, Fork(p, child));
    assert ProcessOk(s, p);
    assert ProcessOk(s', p);
    assert ProcessOk(s', child) by {
      assert child !in s.wire;
      assert Below(s.handled, child, s.procs[p].image.key.depth + 1) && Below(s.handled, child, 0);
    }
    LocalStep(s, s', p);
  }

  lemma ExecImageOk(s: System, p: nat, ccode: string)
    requires p in s.procs && ProcessOk(s, p) && Enabled(s, ExecWorks(p, ccode))
    ensures ProcessOk(Apply(s, ExecWorks(p, ccode)), p)
  {
    var s' := Apply(s, ExecWorks(p, ccode));
    var h := s'.procs[p].image;
    assert ParentKey(h).value == s.procs[p].image.key;
    assert LineOk(s'.handled, StartLine(h));
  }

  lemma ExecWorksOk(s: System, p: nat, ccode: string)
    requires ProcessesOk(s) && Enabled(s, ExecWorks(p, ccode))
    ensures ProcessesOk(Apply(s, ExecWorks(p, ccode)))
  {
    assert ProcessOk(s, p);
    ExecImageOk(s, p, ccode);
    LocalStep(s, Apply(s, ExecWorks(p, ccode)), p);
  }

  /** A longer history still knows everything it knew. */
  lemma StartedInMore(ls: seq<Line>, l: Line, k: Key)
    ensures StartedIn(ls + [l], k) <==> StartedIn(ls, k) || (l.StartLine? && l.header.key == k)
  {
    var more := ls + [l];
    if StartedIn(ls, k) {
      var j :| 0 <= j < |ls| && ls[j].StartLine? && ls[j].header.key == k;
      assert more[j] == ls[j];
    }
    if StartedIn(more, k) {
      var j :| 0 <= j < |more| && more[j].StartLine? && more[j].header.key == k;
      assert j < |ls| ==> ls[j] == more[j];
    }
    assert more[|ls|] == l;
  }

  lemma BelowMore(ls: seq<Line>, l: Line, p: nat, depth: nat)
    ensures Below(ls + [l], p, depth)
       <==> Below(ls, p, depth) && (l.StartLine? && l.header.key.cmdid == p ==> l.header.key.depth < depth)
  {
    var more := ls + [l];
    assert more[|ls|] == l;
    assert forall j | 0 <= j < |ls| :: more[j] == ls[j];
  }

  lemma OrderMore(ls: seq<Line>, l: Line)
    requires OrderOk(ls) && LineOk(ls, l)
    ensures OrderOk(ls + [l])
  {
    var more := ls + [l];
    forall i | 0 <= i < |more| ensures LineOk(more[..i], more[i]) {
      assert more[..i] == if i < |ls| then ls[..i] else ls;
    }
  }

  /** The line at the head of an open connection may be handled. */
  lemma HeadOk(s: System, p: nat)
    requires p in s.procs && ProcessOk(s, p) && Enabled(s, Handle(p))
    ensures LineOk(s.handled, s.wire[p][0])
    ensures s.wire[p][0].StartLine? ==> s.wire[p][0].header == s.procs[p].image && s.wire[p][0].header.key.cmdid == p
  {
  }

  /** The start line of one process says nothing about another's images. */
  lemma WorkMore(s: System, s': System, l: Line, q: nat)
    requires q in s.procs && WorkOk(s, q) && q in s'.procs && s'.procs[q] == s.procs[q] && s'.handled == s.handled + [l]
    requires l.StartLine? ==> l.header.key.cmdid != q || l.header == s.procs[q].image
    ensures WorkOk(s', q)
  {
    var k := s.procs[q].image.key;
    StartedInMore(s.handled, l, k);
    BelowMore(s.handled, l, q, k.depth + 1);
    BelowMore(s.handled, l, q, 0);
  }

  lemma AnnounceMore(s: System, s': System, l: Line, q: nat)
    requires q in s.procs && AnnounceOk(s, q) && q in s'.procs && s'.procs[q] == s.procs[q] && s'.handled == s.handled + [l]
    requires l.StartLine? ==> l.header.key.cmdid != q
    ensures AnnounceOk(s', q)
  {
    var h := s.procs[q].image;
    assert Below(s.handled, q, h.key.depth);
    BelowMore(s.handled, l, q, h.key.depth);
    BelowMore(s.handled, l, q, 0);
    if h.key.depth > 0 {
      StartedInMore(s.handled, l, ParentKey(h).value);
    }
  }

  /** Once its start is handled a process may work. */
  lemma AnnouncedOk(s: System, s': System, q: nat)
    requires q in s.procs && AnnounceOk(s, q) && q in s'.procs && s'.procs[q] == s.procs[q]
    requires s'.handled == s.handled + [StartLine(s.procs[q].image)]
    ensures WorkOk(s', q)
  {
    var h := s.procs[q].image;
    assert Below(s.handled, q, h.key.depth + 1);
    BelowMore(s.handled, StartLine(h), q, h.key.depth + 1);
    StartedInMore(s.handled, StartLine(h), h.key);
  }

  lemma HandleKeepsProcess(s: System, p: nat, q: nat)
    requires ProcessesOk(s) && Enabled(s, Handle(p)) && q in s.procs
    ensures ProcessOk(Apply(s, Handle(p)), q)
  {
    var s', l, a := Apply(s, Handle(p)), s.wire[p][0], s.procs[q];
    assert ProcessOk(s, p) && ProcessOk(s, q);
    HeadOk(s, p);
    if a.phase == Booting || (a.phase == AwaitStart && q != p && s.wire[q] != []) {
      AnnounceMore(s, s', l, q);
    } else if a.phase == AwaitStart && q == p {
      AnnouncedOk(s, s', q);
    } else {
      WorkMore(s, s', l, q);
    }
  }

  lemma HandleKeepsProcesses(s: System, p: nat)
    requires ProcessesOk(s) && Enabled(s, Handle(p))
    ensures ProcessesOk(Apply(s, Handle(p)))
  {
    var s' := Apply(s, Handle(p));
    forall q | q in s'.procs ensures ProcessOk(s', q) {
      HandleKeepsProcess(s, p, q);
    }
  }

  lemma HandleKeepsIds(s: System, p: nat)
    requires ProcessesOk(s) && IdsKnown(s) && Enabled(s, Handle(p))
    ensures IdsKnown(Apply(s, Handle(p)))
  {
    assert p in s.procs && ProcessOk(s, p);
    HeadOk(s, p);
  }

  lemma HandleOk(s: System, p: nat)
    requires SystemOk(s) && Enabled(s, Handle(p))
    ensures SystemOk(Apply(s, Handle(p)))
  {
    assert p in s.procs && ProcessOk(s, p);
    HeadOk(s, p);
    OrderMore(s.handled, s.wire[p][0]);
    HandleKeepsProcesses(s, p);
    HandleKeepsIds(s, p);
  }

  lemma LocalOk(s: System, e: Event)
    requires ProcessesOk(s) && Enabled(s, e) && IsLocal(e)
    ensures ProcessesOk(Apply(s, e))
  {
    assert ProcessOk(s, e.p);
    ActorOk(s, e, e.p);
    LocalStep(s, Apply(s, e), e.p);
  }

  /** Only the monitor's reading makes the history longer, and no process is forgotten. */
  lemma StepHistory(s: System, e: Event)
    requires Enabled(s, e)
    ensures !e.Handle? ==> Apply(s, e).handled == s.handled
    ensures s.procs.Keys <= Apply(s, e).procs.Keys
  {
  }

  lemma QuietStepOk(s: System, s': System)
    requires SystemOk(s) && ProcessesOk(s') && s'.handled == s.handled && s.procs.Keys <= s'.procs.Keys
    ensures SystemOk(s')
  {
  }

  lemma StepOk(s: System, e: Event)
    requires SystemOk(s) && Enabled(s, e)
    ensures SystemOk(Apply(s, e))
  {
    if e.Handle? {
      HandleOk(s, e.p);
    } else {
      if e.Fork? {
        ForkOk(s, e.p, e.child);
      } else if e.ExecWorks? {
        ExecWorksOk(s, e.p, e.ccode);
      } else {
        LocalOk(s, e);
      }
      StepHistory(s, e);
      QuietStepOk(s, Apply(s, e));
    }
  }

  /** In every interleaving every handled line comes after the start of its own
      command and, for a start, after the start of its parent and of every
      earlier image of its process. */
  lemma {:induction false} EveryInterleavingIsOrdered(states: seq<System>, trace: seq<Event>)
    requires Interleaving(states, trace)
    ensures SystemOk(states[|trace|]) && OrderOk(states[|trace|].handled)
    decreases |trace|
  {
    var n := |trace|;
    if n == 0 {
      InitialOk(states[0]);
    } else {
      assert Interleaving(states[..n], trace[..n - 1]);
      EveryInterleavingIsOrdered(states[..n], trace[..n - 1]);
      StepOk(states[n - 1], trace[n - 1]);
    }
  }
}
