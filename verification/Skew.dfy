/** When the monitor refuses a line. An action or end line is answered with an
    error exactly when its command has left the table, which is exactly when it
    has been published; and what makes a command leave is said record by record. */
module Skew {
  import opened AuditLaws
  import opened AuditOwners
  import opened AuditRuns
  import opened AuditTable
  import opened Handshake
  import opened Moments
  import opened Options
  import opened Protocol

  /* Which record takes a command out of the table. */

  /** An end record for `k`: its chain has the command in it, in no group, or the
      chain has the leader of the command's group in it. */
  predicate EndRemoves(t: Table, k: Key, j: Key)
    requires k in t && j in t
  {
    (t[j].leader == None && InChain(t, k, j)) || (t[j].leader == t[k].leader && GroupEnds(t, k))
  }

  /** A start record that ends the group it finds itself in. */
  predicate BreaksGroup(style: Style, t: Table, h: Header, p: Patterns) {
    var l := LeaderOf(t, Predecessor(t, h));
    l.Some? &&
    var level := AggregationLevel(style, true, t[l.value].strong, p);
    level == Break || (!t[l.value].strong && (level == Strong || level == Weak))
  }

  /** The group it ends has the command in it, closed. */
  predicate StartRemoves(style: Style, t: Table, h: Header, p: Patterns, j: Key)
    requires j in t
  {
    BreaksGroup(style, t, h, p) && t[j].closed && t[j].leader == LeaderOf(t, Predecessor(t, h))
  }

  predicate Removes(style: Style, t: Table, r: Record, j: Key)
    requires j in t
  {
    match r
    case Soa(h, p, _) => StartRemoves(style, t, h, p, j)
    case Eoa(k, _) => k in t && EndRemoves(t, k, j)
    case _ => false
  }

  lemma EndGroupRemoves(st: State, k: Key, l: Key, level: Level, j: Key)
    requires Clean(st.table) && GroupsOk(st.table) && l in st.table && st.table[l].leader == Some(l)
    requires k in st.table && st.table[k].leader == None && j in st.table
    ensures j !in EndGroup(st, k, l, level).table <==> st.table[j].closed && st.table[j].leader == Some(l)
  {
    DisbandEffect(st, l);
    if level != Break {
      StartThenPurge(Disband(st, l), k, level == Strong);
    }
  }

  lemma StartRemovesExactly(style: Style, st: State, h: Header, p: Patterns, time: Moment, j: Key)
    requires TableOk(st.table) && Orderly(st.table, h) && j in st.table
    ensures j !in SoaStep(style, st, h, p, time).table <==> StartRemoves(style, st.table, h, p, j)
  {
    var l, a := LeaderOf(st.table, Predecessor(st.table, h)), Admit(st, h, time);
    if BreaksGroup(style, st.table, h, p) {
      AdmitKeeps(st, h, time);
      assert GroupOk(st.table, Predecessor(st.table, h).value);
      EndGroupRemoves(a, h.key, l.value, AggregationLevel(style, true, st.table[l.value].strong, p), j);
    }
  }

  /** A live command leaves the table exactly at the records that remove it. */
  lemma LeavesExactlyWhenRemoved(style: Style, st: State, r: Record, j: Key)
    requires TableOk(st.table) && Acceptable(st, r) && j in st.table
    ensures j !in Step(style, st, r).table <==> Removes(style, st.table, r, j)
  {
    match r
    case Soa(h, p, time) => StartRemovesExactly(style, st, h, p, time, j);
    case Eoa(k, time) =>
      if k in st.table {
        EoaEffect(st, k, time);
        assert EoaFate(st.table, EoaStep(st, k, time).table, k, time, j);
      }
    case _ =>
  }

  /** A live command other than the one that ends, of whose process it is no
      image, is refused its own end exactly if the leader of its group is closed
      with the one that ends, be it closed itself or still running. */
  lemma AbsorbedMemberIsSkew(style: Style, st: State, k: Key, time: Moment, j: Key, later: Moment)
    requires TableOk(st.table) && k in st.table && j in st.table && !InChain(st.table, k, j)
    ensures var u := Step(style, st, Eoa(k, time));
            && (ReplyTo(u, Eoa(j, later)) == Error <==> GroupEnds(st.table, k) && st.table[j].leader == st.table[k].leader)
            && (ReplyTo(u, Eoa(j, later)) == Error ==> Step(style, u, Eoa(j, later)) == Tick(u))
  {
    LeavesExactlyWhenRemoved(style, st, Eoa(k, time), j);
  }

  /* Over whole streams. */

  /** The start record of command `k` is in a published bundle of the run. */
  ghost predicate WasPublished(style: Style, rs: seq<Record>, k: Key) {
    exists i, b :: 0 <= i < |rs| && rs[i].Soa? && rs[i].header.key == k
                   && OwnsSoa(Run(style, EMPTY, rs), Published(b), i)
  }

  /** Record `n` took the live command `k` out of the table. */
  predicate RemovedAt(style: Style, rs: seq<Record>, n: nat, k: Key) {
    n < |rs| && k in Run(style, EMPTY, rs[..n]).table && Removes(style, Run(style, EMPTY, rs[..n]).table, rs[n], k)
  }

  lemma GoneWasPublished(style: Style, rs: seq<Record>, i: nat)
    requires OrderlyRun(style, rs) && i < |rs| && rs[i].Soa? && rs[i].header.key !in Run(style, EMPTY, rs).table
    ensures WasPublished(style, rs, rs[i].header.key)
  {
    EveryCommandExactlyOnce(style, rs, i);
    var o :| OwnsSoa(Run(style, EMPTY, rs), o, i);
    if o.Live? {
      TableIsAnnounced(style, rs, o.key);
    }
  }

  /** No key is announced twice: images of one process start one deeper each. */
  lemma KeyStartsOnce(ls: seq<Line>, i: nat, j: nat)
    requires OrderOk(ls) && i < |ls| && j < |ls| && ls[i].StartLine? && ls[j].StartLine?
    requires ls[i].header.key == ls[j].header.key
    ensures i == j
  {
    if i < j {
      LaterIsDeeper(ls, i, j);
    } else if j < i {
      LaterIsDeeper(ls, j, i);
    }
  }

  lemma LaterIsDeeper(ls: seq<Line>, i: nat, j: nat)
    requires OrderOk(ls) && i < j < |ls| && ls[i].StartLine? && ls[j].StartLine?
    requires ls[i].header.key.cmdid == ls[j].header.key.cmdid
    ensures ls[i].header.key.depth < ls[j].header.key.depth
  {
    assert LineOk(ls[..j], ls[j]);
    assert ls[..j][i] == ls[i];
  }

  lemma PublishedIsGone(style: Style, ls: seq<Line>, rs: seq<Record>, k: Key)
    requires ParsesAll(ls, rs) && OrderOk(ls) && OrderlyRun(style, rs) && WasPublished(style, rs, k)
    ensures k !in Run(style, EMPTY, rs).table
  {
    var st := Run(style, EMPTY, rs);
    if k in st.table {
      var i, b :| 0 <= i < |rs| && rs[i].Soa? && rs[i].header.key == k && OwnsSoa(st, Published(b), i);
      var j := st.table[k].id;
      TableIsAnnounced(style, rs, k);
      assert Parses(ls[i], rs[i]) && Parses(ls[j], rs[j]);
      KeyStartsOnce(ls, i, j);
      RunKeepsAll(style, rs);
      assert OwnsSoa(st, Live(k), i);
    }
  }

  /** Of all the lines a handshake lets through, the monitor answers with an error
      just the action and end lines of commands already published, alone or with
      their group. */
  lemma RefusedIffPublished(style: Style, ls: seq<Line>, rs: seq<Record>, l: Line, r: Record)
    requires ParsesAll(ls, rs) && OrderOk(ls) && LineOk(ls, l) && Parses(l, r)
    ensures ReplyTo(Run(style, EMPTY, rs), r) == Error <==> (r.Action? || r.Eoa?) && WasPublished(style, rs, r.key)
  {
    OrderedLinesAreOrderly(style, ls, rs, |rs|);
    assert rs[..|rs|] == rs;
    if r.Action? || r.Eoa? {
      var i :| 0 <= i < |ls| && ls[i].StartLine? && ls[i].header.key == r.key;
      assert Parses(ls[i], rs[i]);
      if r.key !in Run(style, EMPTY, rs).table {
        GoneWasPublished(style, rs, i);
      } else if WasPublished(style, rs, r.key) {
        PublishedIsGone(style, ls, rs, r.key);
      }
    }
  }

  /** A command that started and is gone was removed by some record. */
  lemma {:induction false} GoneWasRemoved(style: Style, rs: seq<Record>, i: nat, m: nat) returns (n: nat)
    requires OrderlyRun(style, rs) && i < m <= |rs| && rs[i].Soa? && rs[i].header.key !in Run(style, EMPTY, rs[..m]).table
    ensures i < n && RemovedAt(style, rs, n, rs[i].header.key)
    decreases m
  {
    n := m - 1;
    if rs[i].header.key in Run(style, EMPTY, rs[..n]).table || i == n {
      RemovedNow(style, rs, i, n, m);
    } else {
      n := GoneWasRemoved(style, rs, i, n);
    }
  }

  lemma RemovedNow(style: Style, rs: seq<Record>, i: nat, n: nat, m: nat)
    requires OrderlyRun(style, rs) && i <= n < |rs| && m == n + 1 && rs[i].Soa?
    requires rs[i].header.key !in Run(style, EMPTY, rs[..m]).table
    requires rs[i].header.key in Run(style, EMPTY, rs[..n]).table || i == n
    ensures i < n && RemovedAt(style, rs, n, rs[i].header.key)
  {
    PrefixOrderly(style, rs, n);
    RunKeepsAll(style, rs[..n]);
    assert OrderlyAt(style, rs, n);
    RunNext(style, rs, n, m);
    if i == n {
      StartIsLive(style, Run(style, EMPTY, rs[..n]), rs[n]);
    } else {
      LeavesExactlyWhenRemoved(style, Run(style, EMPTY, rs[..n]), rs[n], rs[i].header.key);
    }
  }

  lemma StartIsLive(style: Style, st: State, r: Record)
    requires TableOk(st.table) && Acceptable(st, r) && r.Soa?
    ensures r.header.key in Step(style, st, r).table
  {
    var h := r.header;
    var l, a := LeaderOf(st.table, Predecessor(st.table, h)), Admit(st, h, r.time);
    if BreaksGroup(style, st.table, h, r.patterns) {
      AdmitKeeps(st, h, r.time);
      assert GroupOk(st.table, Predecessor(st.table, h).value);
      EndGroupRemoves(a, h.key, l.value, AggregationLevel(style, true, st.table[l.value].strong, r.patterns), h.key);
    }
  }

  lemma RemovedIsGone(style: Style, rs: seq<Record>, n: nat, k: Key)
    requires OrderlyRun(style, rs) && RemovedAt(style, rs, n, k)
    ensures k !in Run(style, EMPTY, rs[..n + 1]).table
  {
    PrefixOrderly(style, rs, n);
    RunKeepsAll(style, rs[..n]);
    assert OrderlyAt(style, rs, n);
    LeavesExactlyWhenRemoved(style, Run(style, EMPTY, rs[..n]), rs[n], k);
    RunNext(style, rs, n, n + 1);
  }

  lemma RemovedWasPublished(style: Style, rs: seq<Record>, n: nat, k: Key)
    requires OrderlyRun(style, rs) && RemovedAt(style, rs, n, k)
    ensures WasPublished(style, rs, k)
  {
    var some := rs[..n + 1];
    PrefixOrderly(style, rs, n);
    PrefixOrderly(style, rs, n + 1);
    TableIsAnnounced(style, rs[..n], k);
    var j := Run(style, EMPTY, rs[..n]).table[k].id;
    assert some[j] == rs[..n][j];
    RemovedIsGone(style, rs, n, k);
    GoneWasPublished(style, some, j);
    LogGrows(style, rs, n + 1);
    var i, b :| 0 <= i < |some| && some[i].Soa? && some[i].header.key == k && OwnsSoa(Run(style, EMPTY, some), Published(b), i);
    assert OwnsSoa(Run(style, EMPTY, rs), Published(b), i);
  }

  /** So a line is refused exactly if an earlier record of the stream removed its
      command: an end record that closed it in no group or that closed its group's
      leader, or a start record that ended its group when it was closed. */
  lemma RefusedIffRemoved(style: Style, ls: seq<Line>, rs: seq<Record>, l: Line, r: Record)
    requires ParsesAll(ls, rs) && OrderOk(ls) && LineOk(ls, l) && Parses(l, r)
    ensures ReplyTo(Run(style, EMPTY, rs), r) == Error
       <==> (r.Action? || r.Eoa?) && exists n: nat :: RemovedAt(style, rs, n, r.key)
  {
    OrderedLinesAreOrderly(style, ls, rs, |rs|);
    assert rs[..|rs|] == rs;
    RefusedIffPublished(style, ls, rs, l, r);
    if r.Action? || r.Eoa? {
      if ReplyTo(Run(style, EMPTY, rs), r) == Error {
        var i :| 0 <= i < |ls| && ls[i].StartLine? && ls[i].header.key == r.key;
        assert Parses(ls[i], rs[i]);
        var n := GoneWasRemoved(style, rs, i, |rs|);
      }
      if n: nat :| RemovedAt(style, rs, n, r.key) {
        RemovedWasPublished(style, rs, n, r.key);
      }
    }
  }
}
