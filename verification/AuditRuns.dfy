/** The monitor over whole streams of records. */
module AuditRuns {
  import opened AuditLaws
  import opened AuditOwners
  import opened AuditTable
  import opened Moments
  import opened Options

  /** Safety: after every prefix of an orderly stream the table is well formed
      and every accepted record has exactly one owner. */
  lemma {:induction false} RunKeepsAll(style: Style, rs: seq<Record>)
    requires OrderlyRun(style, rs)
    ensures var st := Run(style, EMPTY, rs); TableOk(st.table) && StyleOk(style, st.table) && Conserved(st)
    ensures Run(style, EMPTY, rs).clock == |rs|
    decreases |rs|
  {
    if rs == [] {
      assert forall o, i :: !OwnsSoa(EMPTY, o, i) && !OwnsAction(EMPTY, o, i);
    } else {
      var n := |rs| - 1;
      PrefixOrderly(style, rs, n);
      RunKeepsAll(style, rs[..n]);
      assert OrderlyAt(style, rs, n);
      StepKeepsTable(style, Run(style, EMPTY, rs[..n]), rs[n]);
      StepConserves(style, Run(style, EMPTY, rs[..n]), rs[n]);
      StepHistory(style, Run(style, EMPTY, rs[..n]), rs[n]);
    }
  }

  lemma RunNext(style: Style, rs: seq<Record>, n: nat, next: nat)
    requires n < |rs| && next == n + 1
    ensures Run(style, EMPTY, rs[..next]) == Step(style, Run(style, EMPTY, rs[..n]), rs[n])
  {
    assert rs[..next][..n] == rs[..n];
  }

  lemma PrefixOrderly(style: Style, rs: seq<Record>, n: nat)
    requires OrderlyRun(style, rs) && n <= |rs|
    ensures OrderlyRun(style, rs[..n])
  {
    forall i | 0 <= i < n ensures OrderlyAt(style, rs[..n], i) {
      assert OrderlyAt(style, rs, i);
      assert rs[..n][..i] == rs[..i];
    }
  }

  /** Whether the monitor answers the record with an error. */
  predicate Accepted(st: State, r: Record) {
    ReplyTo(st, r) != Error
  }

  /** One record: the clock ticks, an accepted start or action record is noted,
      and bundles once published stay published. */
  lemma StepHistory(style: Style, st: State, r: Record)
    requires TableOk(st.table) && StyleOk(style, st.table) && Acceptable(st, r)
    ensures var u := Step(style, st, r);
            && u.clock == st.clock + 1
            && u.soas == (if r.Soa? then st.soas + {st.clock} else st.soas)
            && u.actions == (if r.Action? && Accepted(st, r) then st.actions + {st.clock} else st.actions)
            && st.log <= u.log
  {
    match r
    case Soa(h, p, time) => SoaHistory(style, st, h, p, time);
    case Eoa(k, time) => if k in st.table { EoaHistory(st, k, time); }
    case _ =>
  }

  lemma SoaHistory(style: Style, st: State, h: Header, p: Patterns, time: Moment)
    ensures var u := SoaStep(style, st, h, p, time);
            u.clock == st.clock + 1 && u.soas == st.soas + {st.clock} && u.actions == st.actions && st.log <= u.log
  {
    var l := LeaderOf(st.table, Predecessor(st.table, h));
    if l.Some? {
      BreakHistory(Admit(st, h, time), h.key, l.value, AggregationLevel(style, true, st.table[l.value].strong, p));
    }
  }

  lemma BreakHistory(st: State, k: Key, l: Key, level: Level)
    requires k in st.table && l in st.table
    ensures var u := JoinOrBreak(st, k, l, level);
            u.clock == st.clock && u.soas == st.soas && u.actions == st.actions && st.log <= u.log
  {
    assert st.log <= Disband(st, l).log;
  }

  lemma EoaHistory(st: State, k: Key, time: Moment)
    requires TableOk(st.table) && k in st.table
    ensures var u := EoaStep(st, k, time);
            u.clock == st.clock && u.soas == st.soas && u.actions == st.actions && st.log <= u.log
  {
    OkIsClosable(st.table);
    CloseChainEffect(st, k, time);
    assert st.log <= CloseChain(st, k, time).log;
  }

  /** The last record of an orderly stream, seen from outside. */
  lemma LastRecord(style: Style, rs: seq<Record>)
    requires OrderlyRun(style, rs) && rs != []
    ensures var n := |rs| - 1;
            var st, u := Run(style, EMPTY, rs[..n]), Run(style, EMPTY, rs);
            && OrderlyRun(style, rs[..n])
            && u.soas == (if rs[n].Soa? then st.soas + {n} else st.soas)
            && u.actions == (if rs[n].Action? && Accepted(st, rs[n]) then st.actions + {n} else st.actions)
            && (forall i | i in st.soas || i in st.actions :: i < n)
            && st.log <= u.log
  {
    var n := |rs| - 1;
    PrefixOrderly(style, rs, n);
    RunKeepsAll(style, rs[..n]);
    assert OrderlyAt(style, rs, n);
    StepHistory(style, Run(style, EMPTY, rs[..n]), rs[n]);
  }

  /** The same for any record of the stream. */
  lemma RecordAt(style: Style, rs: seq<Record>, n: nat, next: nat)
    requires OrderlyRun(style, rs) && n < |rs| && next == n + 1
    ensures var st, u := Run(style, EMPTY, rs[..n]), Run(style, EMPTY, rs[..next]);
            && u.soas == (if rs[n].Soa? then st.soas + {n} else st.soas)
            && u.actions == (if rs[n].Action? && Accepted(st, rs[n]) then st.actions + {n} else st.actions)
            && (forall i | i in st.soas || i in st.actions :: i < n)
            && st.log <= u.log
  {
    PrefixOrderly(style, rs, next);
    LastRecord(style, rs[..next]);
    assert rs[..next][..n] == rs[..n];
  }

  /** The history in the final state is what the stream and the replies say. */
  lemma RunHistory(style: Style, rs: seq<Record>, i: nat)
    requires OrderlyRun(style, rs) && i < |rs|
    ensures i in Run(style, EMPTY, rs).soas <==> rs[i].Soa?
    ensures i in Run(style, EMPTY, rs).actions <==> AcceptedAction(style, rs, i)
  {
    HistoryUpTo(style, rs, i, |rs|);
    assert rs[..|rs|] == rs;
  }

  /** Record `i` is noted when it is seen and never afterwards. */
  lemma {:induction false} HistoryUpTo(style: Style, rs: seq<Record>, i: nat, n: nat)
    requires OrderlyRun(style, rs) && i < n <= |rs|
    ensures i in Run(style, EMPTY, rs[..n]).soas <==> rs[i].Soa?
    ensures i in Run(style, EMPTY, rs[..n]).actions <==> AcceptedAction(style, rs, i)
    decreases n
  {
    RecordAt(style, rs, n - 1, n);
    if i < n - 1 {
      HistoryUpTo(style, rs, i, n - 1);
    }
  }

  /** Bundles once published are never taken back or changed. */
  lemma LogGrows(style: Style, rs: seq<Record>, n: nat)
    requires OrderlyRun(style, rs) && n <= |rs|
    ensures Run(style, EMPTY, rs[..n]).log <= Run(style, EMPTY, rs).log
  {
    LogGrowsTo(style, rs, n, |rs|);
    assert rs[..|rs|] == rs;
  }

  lemma LogGrowsOnce(style: Style, rs: seq<Record>, n: nat, next: nat)
    requires OrderlyRun(style, rs) && n < |rs| && next == n + 1
    ensures Run(style, EMPTY, rs[..n]).log <= Run(style, EMPTY, rs[..next]).log
  {
    RecordAt(style, rs, n, next);
  }

  lemma {:induction false} LogGrowsTo(style: Style, rs: seq<Record>, n: nat, m: nat)
    requires OrderlyRun(style, rs) && n <= m <= |rs|
    ensures Run(style, EMPTY, rs[..n]).log <= Run(style, EMPTY, rs[..m]).log
    decreases m
  {
    if n < m {
      var k := m - 1;
      LogGrowsTo(style, rs, n, k);
      LogGrowsOnce(style, rs, k, m);
      Within(Run(style, EMPTY, rs[..n]).log, Run(style, EMPTY, rs[..k]).log, Run(style, EMPTY, rs[..m]).log);
    }
  }

  lemma Within(a: multiset<Bundle>, b: multiset<Bundle>, c: multiset<Bundle>)
    requires a <= b && b <= c
    ensures a <= c
  {
  }

  /** Exactly once: at the end of any orderly stream every command that started
      is either still live in exactly one audit, or in exactly one published
      bundle - as its leader or merged into it - and never both. */
  lemma EveryCommandExactlyOnce(style: Style, rs: seq<Record>, i: nat)
    requires OrderlyRun(style, rs) && i < |rs| && rs[i].Soa?
    ensures var st := Run(style, EMPTY, rs);
            exists o :: OwnsSoa(st, o, i) && forall o' | OwnsSoa(st, o', i) :: o' == o
  {
    RunKeepsAll(style, rs);
    RunHistory(style, rs, i);
  }

  /** The same for every file action the monitor did not reject. */
  lemma EveryActionExactlyOnce(style: Style, rs: seq<Record>, i: nat)
    requires OrderlyRun(style, rs) && AcceptedAction(style, rs, i)
    ensures var st := Run(style, EMPTY, rs);
            exists o :: OwnsAction(st, o, i) && forall o' | OwnsAction(st, o', i) :: o' == o
  {
    RunKeepsAll(style, rs);
    RunHistory(style, rs, i);
  }

  /** Record `i` is a file action the monitor accepted. */
  predicate AcceptedAction(style: Style, rs: seq<Record>, i: nat) {
    i < |rs| && rs[i].Action? && Accepted(Run(style, EMPTY, rs[..i]), rs[i])
  }

  ghost predicate InLog(log: multiset<Bundle>, i: nat) {
    exists b :: b in log && i in b.actions
  }

  ghost predicate Apart(b: Bundle, c: Bundle) {
    b.actions !! c.actions && b.id != c.id && forall s | s in c.subs :: s.id != b.id
  }

  /** Conservation: when no audit is left, the published bundles hold exactly
      the accepted actions, each in one bundle only. */
  lemma AllPublished(style: Style, rs: seq<Record>)
    requires OrderlyRun(style, rs) && Run(style, EMPTY, rs).table == map[]
    ensures forall i :: InLog(Run(style, EMPTY, rs).log, i) <==> AcceptedAction(style, rs, i)
    ensures forall b, c | b in Run(style, EMPTY, rs).log && c in Run(style, EMPTY, rs).log && b != c :: Apart(b, c)
    ensures forall b | b in Run(style, EMPTY, rs).log :: Run(style, EMPTY, rs).log[b] == 1
  {
    RunKeepsAll(style, rs);
    assert OncePublished(Run(style, EMPTY, rs));
    forall i ensures InLog(Run(style, EMPTY, rs).log, i) <==> AcceptedAction(style, rs, i) {
      PublishedAction(style, rs, i);
    }
    forall b, c | b in Run(style, EMPTY, rs).log && c in Run(style, EMPTY, rs).log && b != c ensures Apart(b, c) {
      PublishedApart(style, rs, b, c);
    }
  }

  lemma PublishedAction(style: Style, rs: seq<Record>, i: nat)
    requires OrderlyRun(style, rs) && Run(style, EMPTY, rs).table == map[]
    ensures InLog(Run(style, EMPTY, rs).log, i) <==> AcceptedAction(style, rs, i)
  {
    RunKeepsAll(style, rs);
    OnlyBundlesOwn(Run(style, EMPTY, rs), i);
    if i < |rs| {
      RunHistory(style, rs, i);
    }
  }

  lemma PublishedApart(style: Style, rs: seq<Record>, b: Bundle, c: Bundle)
    requires OrderlyRun(style, rs) && b != c
    requires b in Run(style, EMPTY, rs).log && c in Run(style, EMPTY, rs).log
    ensures Apart(b, c)
  {
    RunKeepsAll(style, rs);
    BundlesDisjoint(Run(style, EMPTY, rs), b, c);
  }

  lemma OnlyBundlesOwn(st: State, i: nat)
    requires Conserved(st) && st.table == map[]
    ensures InLog(st.log, i) <==> i in st.actions
    ensures i in st.actions ==> i < st.clock
  {
    if b :| b in st.log && i in b.actions {
      assert OwnsAction(st, Published(b), i);
    }
    if i in st.actions {
      var o :| OwnsAction(st, o, i);
      assert o.bundle in st.log;
    }
  }

  lemma BundlesDisjoint(st: State, b: Bundle, c: Bundle)
    requires Conserved(st) && b in st.log && c in st.log && b != c
    ensures Apart(b, c)
  {
    assert OwnsSoa(st, Published(b), b.id) && OwnsSoa(st, Published(c), c.id);
    assert forall s | s in c.subs :: OwnsSoa(st, Published(c), s.id);
    forall i | i in b.actions ensures i !in c.actions {
      assert OwnsAction(st, Published(b), i);
      assert i in c.actions ==> OwnsAction(st, Published(c), i);
    }
  }

  /** The callback never sees the same command twice: a call one record makes is
      made once, and its command was neither published nor merged before. */
  lemma NeverPublishedTwice(style: Style, rs: seq<Record>, n: nat, b: Bundle)
    requires OrderlyRun(style, rs) && n < |rs|
    requires Run(style, EMPTY, rs[..n + 1]).log[b] > Run(style, EMPTY, rs[..n]).log[b]
    ensures Run(style, EMPTY, rs).log[b] == 1 && b !in Run(style, EMPTY, rs[..n]).log
    ensures forall c | c in Run(style, EMPTY, rs[..n]).log :: c.id != b.id && forall s | s in c.subs :: s.id != b.id
  {
    PrefixOrderly(style, rs, n + 1);
    RunKeepsAll(style, rs[..n + 1]);
    RunKeepsAll(style, rs);
    LogGrowsTo(style, rs, n, n + 1);
    LogGrows(style, rs, n + 1);
    LoggedOnce(Run(style, EMPTY, rs[..n]).log, Run(style, EMPTY, rs[..n + 1]), b);
    LoggedOnce(Run(style, EMPTY, rs[..n]).log, Run(style, EMPTY, rs), b);
  }

  /** An entry that has come to the log since `before` was not in it, nor was its
      command in any other entry. */
  lemma LoggedOnce(before: multiset<Bundle>, st: State, b: Bundle)
    requires Conserved(st) && before <= st.log && st.log[b] > before[b]
    ensures st.log[b] == 1 && b !in before
    ensures forall c | c in before :: c.id != b.id && forall s | s in c.subs :: s.id != b.id
  {
    assert st.log[b] <= 1;
    forall c | c in before ensures c.id != b.id && forall s | s in c.subs :: s.id != b.id {
      BundlesDisjoint(st, b, c);
    }
  }

  /* Running times of an exec chain. */

  function ChainLength(t: Table, k: Key): nat
    requires k in t
    decreases k.depth
  {
    var up := ExecParent(k, t[k].pccode);
    1 + if up.Some? && up.value in t then ChainLength(t, up.value) else 0
  }

  /** The first image of the process. */
  function Origin(t: Table, k: Key): Key
    requires k in t
    decreases k.depth
  {
    var up := ExecParent(k, t[k].pccode);
    if up.Some? && up.value in t then Origin(t, up.value) else k
  }

  /** The durations recorded for the images of the chain, added up. */
  function TotalRecorded(t: Table, k: Key, end: Moment): int
    requires k in t
    decreases k.depth
  {
    var up := ExecParent(k, t[k].pccode);
    ClosedAs(t, k, end, k).duration + if up.Some? && up.value in t then TotalRecorded(t, up.value, t[k].start) else 0
  }

  /** The duration each image is closed with is its own term of the total. */
  lemma {:induction false} RecordedTerm(t: Table, k: Key, end: Moment, j: Key)
    requires k in t && InChain(t, k, j)
    ensures j in t
    ensures j != k ==> ClosedAs(t, k, end, j) == ClosedAs(t, ExecParent(k, t[k].pccode).value, t[k].start, j)
    decreases k.depth
  {
    if j != k {
      RecordedTerm(t, ExecParent(k, t[k].pccode).value, t[k].start, j);
    }
  }

  /** Images of one process start in order and the end comes last. */
  predicate InOrder(t: Table, k: Key, end: Moment)
    requires k in t
    decreases k.depth
  {
    && InRange(end) && InRange(t[k].start) && Nanos(t[k].start) <= Nanos(end)
    && var up := ExecParent(k, t[k].pccode);
       up.Some? && up.value in t ==> InOrder(t, up.value, t[k].start)
  }

  /** The recorded durations of an n-image chain add up to the elapsed time of
      the whole process in milliseconds, losing less than one per image. */
  lemma {:induction false} ChainDurationsAddUp(t: Table, k: Key, end: Moment)
    requires k in t && InOrder(t, k, end)
    ensures Origin(t, k) in t
    ensures var total := (Nanos(end) - Nanos(t[Origin(t, k)].start)) / NANOS_PER_MILLI;
            total - (ChainLength(t, k) - 1) <= TotalRecorded(t, k, end) <= total
    decreases k.depth
  {
    DurationIsElapsed(end, t[k].start);
    var up := ExecParent(k, t[k].pccode);
    if up.Some? && up.value in t {
      ChainDurationsAddUp(t, up.value, t[k].start);
      var x := Nanos(end) - Nanos(t[k].start);
      var y := Nanos(t[k].start) - Nanos(t[Origin(t, k)].start);
      assert (x + y) / NANOS_PER_MILLI - 1 <= x / NANOS_PER_MILLI + y / NANOS_PER_MILLI <= (x + y) / NANOS_PER_MILLI;
    }
  }

  /** The order the handshake enforces is needed: if an image announces itself
      after the image it exec-ed, its group's leader can be closed and left in
      the table for good. */
  lemma DisorderStrandsALeader()
    ensures var late, early := Key("make", 0, 7), Key("cc", 1, 7);
            var weak, t0 := Patterns(false, false, true), Moment(0, 0);
            var rs := [Soa(Header(early, "make", 7), weak, t0), Soa(Header(late, "-", 0), weak, t0), Eoa(early, t0)];
            var st := Run(ByPattern, EMPTY, rs);
            late in st.table && st.table[late].closed && st.table[late].leader == Some(late)
  {
    var late, early := Key("make", 0, 7), Key("cc", 1, 7);
    var weak, t0 := Patterns(false, false, true), Moment(0, 0);
    var r0, r1, r2 := Soa(Header(early, "make", 7), weak, t0), Soa(Header(late, "-", 0), weak, t0), Eoa(early, t0);
    assert [r0, r1, r2][..2] == [r0, r1] && [r0, r1][..1] == [r0] && [r0][..0] == [];
    var s1 := Run(ByPattern, EMPTY, [r0]);
    var s2 := Run(ByPattern, EMPTY, [r0, r1]);
    var a := NewAudit(0, r0.header, t0).(group := Some({}), leader := Some(early));
    var b := NewAudit(1, r1.header, t0).(group := Some({}), leader := Some(late));
    assert Run(ByPattern, EMPTY, [r0][..0]) == EMPTY;
    assert s1 == SoaStep(ByPattern, EMPTY, r0.header, weak, t0);
    assert s2 == SoaStep(ByPattern, s1, r1.header, weak, t0);
    assert s1.table == map[early := a];
    assert s2.table == map[early := a, late := b];
    StrandedStep(s2, early, late, a, b, t0);
  }

  lemma StrandedStep(st: State, early: Key, late: Key, a: Audit, b: Audit, t: Moment)
    requires early != late && st.table == map[early := a, late := b]
    requires ExecParent(early, a.pccode) == Some(late) && late.depth == 0
    requires a.leader == Some(early) && a.group == Some({}) && b.leader == Some(late) && !a.processed && !b.processed
    ensures var u := Step(ByPattern, st, Eoa(early, t)).table; late in u && u[late].closed && u[late].leader == Some(late)
  {
    var c1 := CloseOne(st, early, t);
    var c2 := CloseOne(c1, late, a.start);
    assert CloseChain(c1, late, a.start) == c2;
    assert CloseChain(st, early, t) == c2;
  }
}
