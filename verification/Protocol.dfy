/** The two sides together: whatever the auditors do and however their
    deliveries interleave, the monitor's guarantees hold. */
module Protocol {
  import opened AuditLaws
  import opened AuditOwners
  import opened AuditRuns
  import opened AuditTable
  import opened Handshake
  import opened Moments
  import opened Options

  /** The record the monitor parses from a line; pattern matches and the time
      of arrival are whatever they happen to be. */
  predicate Parses(l: Line, r: Record) {
    match l
    case StartLine(h) => r.Soa? && r.header == h
    case ActionLine(k) => r == Action(k)
    case EndLine(k) => r.Eoa? && r.key == k
  }

  predicate ParsesAll(ls: seq<Line>, rs: seq<Record>) {
    |ls| == |rs| && forall i | 0 <= i < |ls| :: Parses(ls[i], rs[i])
  }

  /** The live audit `k` is the one its start record in `rs` announced. */
  predicate Announced(rs: seq<Record>, t: Table, k: Key)
    requires k in t
  {
    var j := t[k].id;
    j < |rs| && rs[j].Soa? && rs[j].header.key == k && rs[j].header.pccode == t[k].pccode
  }

  /** Audits keep the identity their start record gave them. */
  predicate SameIdentity(a: Audit, b: Audit) {
    a.id == b.id && a.pccode == b.pccode
  }

  /** Audits that stay through a change are the same ones. */
  ghost predicate Inherits(u: Table, t: Table, k: Key) {
    k in u ==> k in t && SameIdentity(u[k], t[k])
  }

  lemma JoinOrigin(st: State, h: Key, l: Key, level: Level, k: Key)
    requires h in st.table && l in st.table
    ensures Inherits(JoinOrBreak(st, h, l, level).table, st.table, k)
  {
    assert Inherits(Disband(st, l).table, st.table, k);
    assert Inherits(Aggregate(st.table, l, h), st.table, k);
  }

  lemma SoaOrigin(style: Style, st: State, h: Header, p: Patterns, time: Moment, k: Key)
    requires k in SoaStep(style, st, h, p, time).table && h.key !in st.table
    ensures var u := SoaStep(style, st, h, p, time).table;
            if k == h.key then u[k].id == st.clock && u[k].pccode == h.pccode
            else k in st.table && SameIdentity(u[k], st.table[k])
  {
    var l := LeaderOf(st.table, Predecessor(st.table, h));
    var a := Admit(st, h, time);
    if l.Some? {
      JoinOrigin(a, h.key, l.value, AggregationLevel(style, true, st.table[l.value].strong, p), k);
    }
  }

  /** A record only adds the audit it announces and renames no audit. */
  lemma StepOrigin(style: Style, st: State, r: Record, k: Key)
    requires TableOk(st.table) && Acceptable(st, r) && k in Step(style, st, r).table
    ensures var u := Step(style, st, r).table;
            if r.Soa? && r.header.key == k then u[k].id == st.clock && u[k].pccode == r.header.pccode
            else k in st.table && SameIdentity(u[k], st.table[k])
  {
    match r
    case Soa(h, p, time) => SoaOrigin(style, st, h, p, time, k);
    case Eoa(j, time) =>
      if j in st.table {
        EoaEffect(st, j, time);
        assert EoaFate(st.table, EoaStep(st, j, time).table, j, time, k);
      }
    case _ =>
  }

  lemma {:induction false} TableIsAnnounced(style: Style, rs: seq<Record>, k: Key)
    requires OrderlyRun(style, rs) && k in Run(style, EMPTY, rs).table
    ensures Announced(rs, Run(style, EMPTY, rs).table, k)
    decreases |rs|
  {
    if rs != [] {
      var n := |rs| - 1;
      var st := Run(style, EMPTY, rs[..n]);
      PrefixOrderly(style, rs, n);
      RunKeepsAll(style, rs[..n]);
      assert OrderlyAt(style, rs, n);
      StepOrigin(style, st, rs[n], k);
      if !(rs[n].Soa? && rs[n].header.key == k) {
        TableIsAnnounced(style, rs[..n], k);
      }
    }
  }

  /** A start line in its proper place is a record the monitor can accept. */
  lemma NextIsAcceptable(style: Style, ls: seq<Line>, rs: seq<Record>, l: Line, r: Record)
    requires ParsesAll(ls, rs) && OrderlyRun(style, rs) && LineOk(ls, l) && Parses(l, r)
    ensures Acceptable(Run(style, EMPTY, rs), r)
  {
    if r.Soa? {
      var t := Run(style, EMPTY, rs).table;
      forall k | k in t ensures k != r.header.key && ExecParent(k, t[k].pccode) != Some(r.header.key) {
        TableIsAnnounced(style, rs, k);
        assert Parses(ls[t[k].id], rs[t[k].id]);
      }
    }
  }

  lemma OneMoreOrderly(style: Style, rs: seq<Record>, n: nat)
    requires n < |rs| && OrderlyRun(style, rs[..n]) && Acceptable(Run(style, EMPTY, rs[..n]), rs[n])
    ensures OrderlyRun(style, rs[..n + 1])
  {
    var more := rs[..n + 1];
    forall i | 0 <= i < |more| ensures OrderlyAt(style, more, i) {
      assert more[..i] == rs[..i];
      if i < n {
        assert OrderlyAt(style, rs[..n], i);
        assert rs[..n][..i] == rs[..i];
      }
    }
  }

  lemma LineIsAcceptable(style: Style, ls: seq<Line>, rs: seq<Record>, n: nat)
    requires ParsesAll(ls, rs) && OrderOk(ls) && n < |ls| && OrderlyRun(style, rs[..n])
    ensures Acceptable(Run(style, EMPTY, rs[..n]), rs[n])
  {
    assert LineOk(ls[..n], ls[n]);
    NextIsAcceptable(style, ls[..n], rs[..n], ls[n], rs[n]);
  }

  lemma {:induction false} OrderedLinesAreOrderly(style: Style, ls: seq<Line>, rs: seq<Record>, n: nat)
    requires ParsesAll(ls, rs) && OrderOk(ls) && n <= |ls|
    ensures OrderlyRun(style, rs[..n])
    decreases n
  {
    if n == 0 {
      assert rs[..n] == [];
    } else {
      var m := n - 1;
      OrderedLinesAreOrderly(style, ls, rs, m);
      LineIsAcceptable(style, ls, rs, m);
      OneMoreOrderly(style, rs, m);
      assert rs[..n] == rs[..m + 1];
    }
  }

  /** End to end: in every interleaving of auditors with the monitor, with any
      patterns and arrival times, the stream the monitor sees is orderly; so
      its table is well formed and every command and action has one owner. */
  lemma EveryInterleavingIsSafe(style: Style, states: seq<System>, trace: seq<Event>, rs: seq<Record>)
    requires Interleaving(states, trace) && ParsesAll(states[|trace|].handled, rs)
    ensures OrderlyRun(style, rs)
    ensures TableOk(Run(style, EMPTY, rs).table) && Conserved(Run(style, EMPTY, rs))
  {
    EveryInterleavingIsOrdered(states, trace);
    OrderedLinesAreOrderly(style, states[|trace|].handled, rs, |rs|);
    assert rs[..|rs|] == rs;
    RunKeepsAll(style, rs);
  }

  /** The predecessor the monitor finds for a start line is the command that ran it,
      as long as that is live, whether it forked or was replaced; once that has gone it
      is at most a later image of the same process. */
  lemma PredecessorIsParent(style: Style, ls: seq<Line>, rs: seq<Record>, h: Header)
    requires ParsesAll(ls, rs) && OrderOk(ls) && LineOk(ls, StartLine(h)) && h.key.depth > 0
    ensures var t, parent := Run(style, EMPTY, rs).table, Key(h.pccode, h.key.depth - 1, h.pcmdid);
            Predecessor(t, h) ==
              if parent in t then Some(parent)
              else if Key(h.pccode, h.key.depth, h.pcmdid) in t then Some(Key(h.pccode, h.key.depth, h.pcmdid)) else None
  {
    OrderedLinesAreOrderly(style, ls, rs, |rs|);
    assert rs[..|rs|] == rs;
    var t, exec := Run(style, EMPTY, rs).table, Key(h.pccode, h.key.depth - 1, h.key.cmdid);
    if exec in t {
      LiveWasStarted(style, ls, rs, exec);
    }
    if h.pcmdid != h.key.cmdid {
      NoneBelowZero(ls, exec);
    }
  }

  lemma LiveWasStarted(style: Style, ls: seq<Line>, rs: seq<Record>, k: Key)
    requires ParsesAll(ls, rs) && OrderlyRun(style, rs) && k in Run(style, EMPTY, rs).table
    ensures StartedIn(ls, k)
  {
    TableIsAnnounced(style, rs, k);
    var j := Run(style, EMPTY, rs).table[k].id;
    assert Parses(ls[j], rs[j]);
  }

  lemma NoneBelowZero(ls: seq<Line>, k: Key)
    requires Below(ls, k.cmdid, 0)
    ensures !StartedIn(ls, k)
  {
  }
}
