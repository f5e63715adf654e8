/** A run of the auditors, from their first step on, in which a group's member
    outlives its leader and is then refused its own end. */
module Outlived {
  import opened AuditLaws
  import opened AuditRuns
  import opened AuditTable
  import opened Handshake
  import opened Moments
  import opened Options
  import opened Protocol
  import opened Skew

  const MAKE: Header := Header(Key("make", 0, 7), "-", 0)
  const CC: Header := Header(Key("cc", 1, 8), "make", 7)
  const LINES: seq<Line> := [StartLine(MAKE), StartLine(CC), EndLine(MAKE.key), EndLine(CC.key)]

  /** A system some interleaving leads to. */
  ghost predicate Reachable(s: System) {
    exists states, trace :: Interleaving(states, trace) && states[|trace|] == s
  }

  lemma ReachNext(s: System, e: Event)
    requires Reachable(s) && Enabled(s, e)
    ensures Reachable(Apply(s, e))
  {
    var states, trace :| Interleaving(states, trace) && states[|trace|] == s;
    var more, longer := states + [Apply(s, e)], trace + [e];
    forall i | 0 <= i < |longer| ensures Enabled(more[i], longer[i]) && more[i + 1] == Apply(more[i], longer[i]) {
      assert i < |trace| ==> more[i + 1] == states[i + 1] && longer[i] == trace[i];
    }
    assert more[|longer|] == Apply(s, e);
  }

  /** A process of which nothing is on the way. */
  predicate Quiet(s: System, p: nat, phase: Phase) {
    In(s, p, phase) && p !in s.wire && s.procs[p].memory == [] && s.procs[p].file == []
  }

  /** `p` has gone on to `phase`, and the monitor has handled `l`. */
  function Moved(s: System, p: nat, phase: Phase, l: Line): System
    requires p in s.procs
  {
    s.(procs := s.procs[p := s.procs[p].(phase := phase)], handled := s.handled + [l])
  }

  /** A process sends one line, the monitor handles it and hangs up. */
  lemma ReachDelivery(s: System, p: nat, l: Line)
    requires Reachable(s) && p in s.procs && Waiting(s.procs[p].phase) && p in s.wire && s.wire[p] == [l]
    ensures Reachable(Moved(s, p, AfterAck(s.procs[p].phase), l).(wire := s.wire - {p}))
  {
    ReachNext(s, Handle(p));
    var u := Apply(s, Handle(p));
    ReachNext(u, Acknowledge(p));
    assert Apply(u, Acknowledge(p)) == Moved(s, p, AfterAck(s.procs[p].phase), l).(wire := s.wire - {p});
  }

  lemma ReachStarted(s: System, p: nat)
    requires Reachable(s) && Quiet(s, p, Booting)
    ensures Reachable(Moved(s, p, Running, StartLine(s.procs[p].image)))
  {
    var u, l := Apply(s, SendStart(p)), StartLine(s.procs[p].image);
    ReachNext(s, SendStart(p));
    ReachDelivery(u, p, l);
    assert u.wire - {p} == s.wire;
    assert Moved(u, p, Running, l).procs == Moved(s, p, Running, l).procs;
  }

  lemma ReachEnded(s: System, p: nat)
    requires Reachable(s) && Quiet(s, p, Running) && s.procs[p].started
    ensures Reachable(Moved(s, p, Gone, EndLine(s.procs[p].image.key)))
  {
    var u, l := Apply(s, Exit(p)), EndLine(s.procs[p].image.key);
    ReachNext(s, Exit(p));
    assert u.wire[p] == [l];
    ReachDelivery(u, p, l);
    assert u.wire - {p} == s.wire;
    assert Moved(u, p, Gone, l).procs == Moved(s, p, Gone, l).procs;
  }

  /** The image the child of `p` runs. */
  function Spawned(was: Header, child: nat, ccode: string): Process {
    Boot(child, Header(Key(ccode, was.key.depth + 1, child), was.key.ccode, was.key.cmdid))
  }

  lemma ReachForked(s: System, p: nat, child: nat)
    requires Reachable(s) && Quiet(s, p, Running) && child !in s.procs && child != 0
    ensures Reachable(s.(procs := s.procs[child := Process(s.procs[p].image, false, [], [], Running)]))
  {
    ReachNext(s, Fork(p, child));
    var a := s.procs[p];
    assert a.(file := a.file + a.memory, memory := []) == a;
    assert Apply(s, Fork(p, child)).procs == s.procs[child := Process(a.image, false, [], [], Running)];
  }

  lemma SetAgain(m: map<nat, Process>, p: nat, a: Process, b: Process)
    ensures m[p := a][p := b] == m[p := b]
  {
  }

  lemma SetBack(m: map<nat, seq<Line>>, p: nat, ls: seq<Line>)
    requires p !in m
    ensures m[p := ls] - {p} == m
  {
  }

  lemma ReachFlushed(s: System, p: nat)
    requires Reachable(s) && Quiet(s, p, Running)
    ensures Reachable(s.(procs := s.procs[p := s.procs[p].(phase := Execing)]))
  {
    var u := Apply(s, PreExec(p));
    ReachNext(s, PreExec(p));
    assert s.procs[p].file + s.procs[p].memory == [];
    ReachNext(u, Acknowledge(p));
    SetBack(s.wire, p, []);
    SetAgain(s.procs, p, u.procs[p], s.procs[p].(phase := Execing));
  }

  lemma ReachExeced(s: System, p: nat, ccode: string)
    requires Reachable(s) && Quiet(s, p, Running)
    ensures Reachable(s.(procs := s.procs[p := Spawned(s.procs[p].image, p, ccode)]))
  {
    var u := s.(procs := s.procs[p := s.procs[p].(phase := Execing)]);
    ReachFlushed(s, p);
    ReachNext(u, ExecWorks(p, ccode));
    assert Apply(u, ExecWorks(p, ccode)).procs == s.procs[p := Spawned(s.procs[p].image, p, ccode)];
  }

  lemma ReachSpawned(s: System, p: nat, child: nat, ccode: string)
    requires Reachable(s) && Quiet(s, p, Running) && child !in s.procs && child !in s.wire && child != 0
    ensures var a := Spawned(s.procs[p].image, child, ccode);
            Reachable(s.(procs := s.procs[child := a.(phase := Running)], handled := s.handled + [StartLine(a.image)]))
  {
    var a, b := Spawned(s.procs[p].image, child, ccode), Process(s.procs[p].image, false, [], [], Running);
    var u, v := s.(procs := s.procs[child := b]), s.(procs := s.procs[child := a]);
    ReachForked(s, p, child);
    ReachExeced(u, child, ccode);
    SetAgain(s.procs, child, b, a);
    ReachStarted(v, child);
    SetAgain(s.procs, child, a, a.(phase := Running));
  }

  lemma ReachFirst(p: nat, image: Header)
    requires p != 0 && image.key.cmdid == p && image.key.depth == 0
    ensures Reachable(System(map[p := Boot(p, image).(phase := Running)], map[], [StartLine(image)]))
  {
    var s := System(map[p := Boot(p, image)], map[], []);
    assert p in s.procs && s.procs.Keys == {p};
    assert Interleaving([s], []);
    ReachStarted(s, p);
    assert Moved(s, p, Running, StartLine(image)) == System(map[p := Boot(p, image).(phase := Running)], map[], [StartLine(image)]);
  }

  /** The build's first process forks a compiler and exits before it. */
  lemma LinesAreDelivered()
    ensures exists s :: Reachable(s) && s.handled == LINES
  {
    var s := System(map[7 := Boot(7, MAKE).(phase := Running)], map[], [LINES[0]]);
    ReachFirst(7, MAKE);
    ReachSpawned(s, 7, 8, "cc");
    var u := s.(procs := s.procs[8 := Boot(8, CC).(phase := Running)], handled := s.handled + [LINES[1]]);
    assert Spawned(MAKE, 8, "cc") == Boot(8, CC);
    ReachEnded(u, 7);
    var v := Moved(u, 7, Gone, LINES[2]);
    ReachEnded(v, 8);
    assert Moved(v, 8, Gone, LINES[3]).handled == LINES;
  }

  /** The lines as the monitor takes them: only the first command matches a pattern. */
  const RECORDS: seq<Record> :=
    [Soa(MAKE, Patterns(false, false, true), Moment(0, 0)), Soa(CC, Patterns(false, false, false), Moment(0, 0)),
     Eoa(MAKE.key, Moment(0, 0)), Eoa(CC.key, Moment(0, 0))]

  /** What the table holds when the compiler has joined its parent's group. */
  lemma CompilerJoins()
    ensures var t := Run(ByPattern, EMPTY, RECORDS[..2]).table;
            && MAKE.key in t && t[MAKE.key].leader == Some(MAKE.key)
            && CC.key in t && t[CC.key].leader == Some(MAKE.key)
  {
    var rs := RECORDS;
    assert rs[..2][..1] == rs[..1] && rs[..1][..0] == [];
    assert Run(ByPattern, EMPTY, rs[..1][..0]) == EMPTY;
    var a := NewAudit(0, MAKE, Moment(0, 0)).(group := Some({}), leader := Some(MAKE.key));
    var s1 := Run(ByPattern, EMPTY, rs[..1]);
    assert s1 == SoaStep(ByPattern, EMPTY, MAKE, rs[0].patterns, Moment(0, 0));
    assert s1.table == map[MAKE.key := a];
    assert Predecessor(s1.table, CC) == Some(MAKE.key);
    assert Run(ByPattern, EMPTY, rs[..2]) == SoaStep(ByPattern, s1, CC, rs[1].patterns, Moment(0, 0));
  }

  lemma RecordsAreOrderly()
    ensures ParsesAll(LINES, RECORDS) && OrderlyRun(ByPattern, RECORDS)
  {
    LinesAreDelivered();
    var s :| Reachable(s) && s.handled == LINES;
    var states: seq<System>, trace: seq<Event> :| Interleaving(states, trace) && states[|trace|] == s;
    EveryInterleavingIsSafe(ByPattern, states, trace, RECORDS);
  }

  /** A run of the auditors that really happens, in which the compiler is refused
      its own end: the end of its group's leader has taken it away while it ran. */
  lemma RunningMemberIsRefused()
    ensures exists s :: Reachable(s) && s.handled == LINES
    ensures ParsesAll(LINES, RECORDS) && OrderlyRun(ByPattern, RECORDS)
    ensures RemovedAt(ByPattern, RECORDS, 2, CC.key)
    ensures ReplyTo(Run(ByPattern, EMPTY, RECORDS[..3]), RECORDS[3]) == Error
  {
    LinesAreDelivered();
    RecordsAreOrderly();
    CompilerJoins();
    var t := Run(ByPattern, EMPTY, RECORDS[..2]).table;
    assert InChain(t, MAKE.key, MAKE.key) && EndRemoves(t, MAKE.key, CC.key);
    RemovedIsGone(ByPattern, RECORDS, 2, CC.key);
  }
}
