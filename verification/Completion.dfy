/** Nothing is left behind: once every process is gone the monitor's table is empty,
    so everything it accepted is published. */
module Completion {
  import opened AuditGroups
  import opened AuditLaws
  import opened AuditOwners
  import opened AuditRuns
  import opened AuditTable
  import opened Delivery
  import opened Endings
  import opened Handshake
  import opened Moments
  import opened Options
  import opened Protocol

  /* The images of one process, in the order they started. */

  /** The start line `h` is among the lines. */
  predicate Has(ls: seq<Line>, h: Header) {
    StartLine(h) in ls
  }

  lemma Prefix(ls: seq<Line>, i: nat, j: nat)
    requires i < j <= |ls|
    ensures ls[..j][i] == ls[i]
  {
  }

  /** Images start deeper and deeper. */
  lemma Deeper(ls: seq<Line>, i: nat, j: nat)
    requires OrderOk(ls) && i < j < |ls| && ls[i].StartLine? && ls[j].StartLine?
    requires ls[i].header.key.cmdid == ls[j].header.key.cmdid
    ensures ls[i].header.key.depth < ls[j].header.key.depth
  {
    assert LineOk(ls[..j], ls[j]);
    Prefix(ls, i, j);
    assert ls[..j][i].StartLine?;
  }

  /** A process starts one image of each depth. */
  lemma OneOfDepth(ls: seq<Line>, g: Header, h: Header)
    requires OrderOk(ls) && Has(ls, g) && Has(ls, h) && g.key.cmdid == h.key.cmdid && g.key.depth == h.key.depth
    ensures g == h
  {
    var i :| 0 <= i < |ls| && ls[i] == StartLine(g);
    var j :| 0 <= j < |ls| && ls[j] == StartLine(h);
    if i < j {
      Deeper(ls, i, j);
    } else if j < i {
      Deeper(ls, j, i);
    }
  }

  /** Behind an image that started earlier in the same process stands the one that
      replaced it. */
  lemma {:induction false} Replaced(ls: seq<Line>, g: Header, h: Header) returns (s: Header)
    requires OrderOk(ls) && Has(ls, g) && Has(ls, h) && g.key.cmdid == h.key.cmdid && g.key.depth < h.key.depth
    ensures Has(ls, s) && s.key.cmdid == g.key.cmdid && s.key.depth == g.key.depth + 1
    ensures ExecParent(s.key, s.pccode) == Some(g.key)
    decreases h.key.depth
  {
    var up := ImageBefore(ls, g, h);
    if up.key.depth == g.key.depth {
      OneOfDepth(ls, g, up);
      s := h;
    } else {
      s := Replaced(ls, g, up);
    }
  }

  /** The image that `h` replaced. */
  lemma ImageBefore(ls: seq<Line>, g: Header, h: Header) returns (up: Header)
    requires OrderOk(ls) && Has(ls, g) && Has(ls, h) && g.key.cmdid == h.key.cmdid && g.key.depth < h.key.depth
    ensures Has(ls, up) && up.key == Key(h.pccode, h.key.depth - 1, h.key.cmdid)
  {
    var i :| 0 <= i < |ls| && ls[i] == StartLine(g);
    var j :| 0 <= j < |ls| && ls[j] == StartLine(h);
    if j < i {
      Deeper(ls, j, i);
    }
    assert LineOk(ls[..j], ls[j]);
    Prefix(ls, i, j);
    assert h.pcmdid == h.key.cmdid;
    var n :| 0 <= n < |ls[..j]| && ls[..j][n].StartLine? && ls[..j][n].header.key == ParentKey(h).value;
    Prefix(ls, n, j);
    up := ls[n].header;
    assert ls[n] == StartLine(up);
  }

  /* What holds of the table while processes run. */

  /** An audit is closed just if its process has ended. */
  ghost predicate ClosedOk(ls: seq<Line>, t: Table, j: Key)
    requires j in t
  {
    t[j].closed <==> EndedIn(ls, j.cmdid)
  }

  /** As long as a process runs, whatever replaced a live image of it is live. */
  ghost predicate HeirOk(ls: seq<Line>, t: Table, h: Header) {
    Has(ls, h) && !EndedIn(ls, h.key.cmdid) && ExecParent(h.key, h.pccode).Some? && ExecParent(h.key, h.pccode).value in t
    ==> h.key in t
  }

  /** An image that replaced one outside groups is outside as well, or leads its own. */
  ghost predicate FreeOk(t: Table, s: Key)
    requires s in t
  {
    var up := ExecParent(s, t[s].pccode);
    up.Some? && up.value in t && t[up.value].leader == None ==> t[s].leader == None || t[s].leader == Some(s)
  }

  /** Every live audit is the one its start line announced. */
  ghost predicate KnownOk(ls: seq<Line>, t: Table, j: Key)
    requires j in t
  {
    exists h :: Has(ls, h) && h.key == j && h.pccode == t[j].pccode
  }

  ghost predicate StandingOk(ls: seq<Line>, t: Table) {
    && (forall j {:trigger ClosedOk(ls, t, j)} | j in t :: ClosedOk(ls, t, j))
    && (forall h {:trigger HeirOk(ls, t, h)} :: HeirOk(ls, t, h))
    && (forall s {:trigger FreeOk(t, s)} | s in t :: FreeOk(t, s))
    && (forall j {:trigger KnownOk(ls, t, j)} | j in t :: KnownOk(ls, t, j))
  }

  lemma HasMore(ls: seq<Line>, l: Line, h: Header)
    ensures Has(ls + [l], h) <==> Has(ls, h) || l == StartLine(h)
  {
  }

  /** From a live image of a running process the chain of the last one leads back to it. */
  lemma {:induction false} ReachesBack(ls: seq<Line>, t: Table, k: Header, j: Key)
    requires OrderOk(ls) && StandingOk(ls, t) && Has(ls, k) && !EndedIn(ls, k.key.cmdid)
    requires j in t && j.cmdid == k.key.cmdid && j.depth <= k.key.depth
    ensures k.key in t && InChain(t, k.key, j)
    decreases k.key.depth - j.depth
  {
    assert KnownOk(ls, t, j);
    var g :| Has(ls, g) && g.key == j && g.pccode == t[j].pccode;
    if j.depth == k.key.depth {
      OneOfDepth(ls, g, k);
    } else {
      var s := Replaced(ls, g, k);
      assert HeirOk(ls, t, s);
      ReachesBack(ls, t, k, s.key);
      assert KnownOk(ls, t, s.key);
      var s' :| Has(ls, s') && s'.key == s.key && s'.pccode == t[s.key].pccode;
      OneOfDepth(ls, s, s');
      ChainGoesOn(t, k.key, s.key, j);
    }
  }

  lemma {:induction false} ChainGoesOn(t: Table, k: Key, s: Key, j: Key)
    requires k in t && InChain(t, k, s) && s in t && ExecParent(s, t[s].pccode) == Some(j) && j in t
    ensures InChain(t, k, j)
    decreases k.depth
  {
    if k != s {
      ChainGoesOn(t, ExecParent(k, t[k].pccode).value, s, j);
    } else {
      assert InChain(t, j, j);
    }
  }

  /* An end record. */

  /** The end of the last image of a process that still runs. */
  ghost predicate Ending(ls: seq<Line>, t: Table, k: Key) {
    && OrderOk(ls) && TableOk(t) && StandingOk(ls, t)
    && LineOk(ls, EndLine(k)) && EndPlaced(ls, EndLine(k))
  }

  lemma KnownStays(ls: seq<Line>, l: Line, t: Table, u: Table, j: Key)
    requires j in t && j in u && u[j].pccode == t[j].pccode && KnownOk(ls, t, j)
    ensures KnownOk(ls + [l], u, j)
  {
    var h :| Has(ls, h) && h.key == j && h.pccode == t[j].pccode;
    HasMore(ls, l, h);
  }

  /** Every live image of the process is in the chain. */
  lemma AllInChain(ls: seq<Line>, t: Table, k: Key, j: Key)
    requires Ending(ls, t, k) && j in t && j.cmdid == k.cmdid
    ensures k in t && InChain(t, k, j)
  {
    var n :| 0 <= n < |ls| && ls[n].StartLine? && ls[n].header.key == k;
    assert Has(ls, ls[n].header);
    assert KnownOk(ls, t, j);
    var g :| Has(ls, g) && g.key == j && g.pccode == t[j].pccode;
    var m :| 0 <= m < |ls| && ls[m] == StartLine(g);
    assert Below(ls, k.cmdid, k.depth + 1);
    ReachesBack(ls, t, ls[n].header, j);
  }

  lemma EndCloses(ls: seq<Line>, t: Table, u: Table, k: Key, time: Moment, j: Key)
    requires Ending(ls, t, k) && j in u && if k in t then EoaFate(t, u, k, time, j) else u == t
    ensures ClosedOk(ls + [EndLine(k)], u, j)
  {
    assert ClosedOk(ls, t, j);
    EndedInMore(ls, EndLine(k), j.cmdid);
    if j.cmdid == k.cmdid {
      AllInChain(ls, t, k, j);
    } else if k in t && InChain(t, k, j) {
      ChainIsOneProcess(t, k, j);
    }
  }

  lemma {:induction false} ChainIsOneProcess(t: Table, k: Key, j: Key)
    requires k in t && InChain(t, k, j)
    ensures j.cmdid == k.cmdid
    decreases k.depth
  {
    if j != k {
      ChainIsOneProcess(t, ExecParent(k, t[k].pccode).value, j);
    }
  }

  /** What another process ends takes an image along only with those it replaced. */
  lemma EndKeepsHeirs(ls: seq<Line>, t: Table, u: Table, k: Key, time: Moment, h: Header)
    requires Ending(ls, t, k)
    requires if k in t then (forall j :: EoaFate(t, u, k, time, j)) else u == t
    ensures HeirOk(ls + [EndLine(k)], u, h)
  {
    HasMore(ls, EndLine(k), h);
    EndedInMore(ls, EndLine(k), h.key.cmdid);
    var s, up := h.key, ExecParent(h.key, h.pccode);
    assert HeirOk(ls, t, h);
    if Has(ls, h) && s.cmdid != k.cmdid && !EndedIn(ls, s.cmdid) && up.Some? && up.value in u && k in t {
      var j := up.value;
      assert EoaFate(t, u, k, time, j) && EoaFate(t, u, k, time, s);
      SameParent(ls, t, h);
      if InChain(t, k, s) {
        ChainIsOneProcess(t, k, s);
      }
      assert LinkOk(t, s) && FreeOk(t, s);
      if GroupEnds(t, k) {
        ChainIsOneProcess(t, k, t[k].leader.value);
      }
    }
  }

  /** A live audit's parent is the one in any start line with its key. */
  lemma SameParent(ls: seq<Line>, t: Table, h: Header)
    requires OrderOk(ls) && StandingOk(ls, t) && Has(ls, h) && h.key in t
    ensures t[h.key].pccode == h.pccode
  {
    assert KnownOk(ls, t, h.key);
    var g :| Has(ls, g) && g.key == h.key && g.pccode == t[h.key].pccode;
    OneOfDepth(ls, g, h);
  }

  lemma EndKeepsFree(t: Table, u: Table, k: Key, time: Moment, s: Key)
    requires k in t && s in t && s in u && FreeOk(t, s) && forall j :: EoaFate(t, u, k, time, j)
    ensures FreeOk(u, s)
  {
    assert EoaFate(t, u, k, time, s);
    var up := ExecParent(s, t[s].pccode);
    if up.Some? {
      assert EoaFate(t, u, k, time, up.value);
    }
  }

  lemma EndKeepsStanding(ls: seq<Line>, st: State, k: Key, time: Moment)
    requires Ending(ls, st.table, k)
    ensures StandingOk(ls + [EndLine(k)], if k in st.table then EoaStep(st, k, time).table else st.table)
  {
    var t, u, more := st.table, if k in st.table then EoaStep(st, k, time).table else st.table, ls + [EndLine(k)];
    if k in t {
      EoaEffect(st, k, time);
      forall j ensures EoaFate(t, u, k, time, j) {}
    }
    forall j | j in u ensures ClosedOk(more, u, j) && KnownOk(more, u, j) && FreeOk(u, j) {
      assert k in t ==> EoaFate(t, u, k, time, j);
      EndCloses(ls, t, u, k, time, j);
      assert KnownOk(ls, t, j) && FreeOk(t, j);
      KnownStays(ls, EndLine(k), t, u, j);
      if k in t {
        EndKeepsFree(t, u, k, time, j);
      }
    }
    forall h ensures HeirOk(more, u, h) {
      EndKeepsHeirs(ls, t, u, k, time, h);
    }
  }

  /* A start record. */

  /** A newcomer leaves others as they are, but for the leader of a group that it ends;
      and it makes nobody leave who still runs. */
  ghost predicate StartFate(t: Table, u: Table, k: Key, l: Option<Key>, ends: bool, j: Key) {
    j != k ==>
      && (j in u ==> j in t && u[j].closed == t[j].closed && u[j].pccode == t[j].pccode
                     && u[j].leader == if ends && t[j].leader == l then None else t[j].leader)
      && (j in t && !t[j].closed ==> j in u)
  }

  ghost predicate StartFates(t: Table, u: Table, h: Header, l: Option<Key>, ends: bool) {
    && (forall j {:trigger StartFate(t, u, h.key, l, ends, j)} :: StartFate(t, u, h.key, l, ends, j))
    && h.key in u && !u[h.key].closed && u[h.key].pccode == h.pccode
    && if ends then l.Some? && Unled(u, h.key) else if l.Some? then u[h.key].leader == l else Unled(u, h.key)
  }

  ghost predicate Unled(u: Table, k: Key)
    requires k in u
  {
    u[k].leader == None || u[k].leader == Some(k)
  }

  lemma StartIs(style: Style, st: State, h: Header, p: Patterns, time: Moment) returns (ends: bool)
    requires TableOk(st.table) && StyleOk(style, st.table) && Orderly(st.table, h)
    ensures StartFates(st.table, SoaStep(style, st, h, p, time).table, h, LeaderOf(st.table, Predecessor(st.table, h)), ends)
  {
    var t, u, l := st.table, SoaStep(style, st, h, p, time), LeaderOf(st.table, Predecessor(st.table, h));
    StartMeans(style, st, h, p, time);
    ends := l.Some? && !Joins(t, u.table, h.key, l.value);
    forall j ensures StartFate(t, u.table, h.key, l, ends, j) {
      if l.Some? && j in t {
        assert GroupOk(t, j);
      }
    }
  }

  /** The start line of an image in its place. */
  ghost predicate Starting(ls: seq<Line>, t: Table, h: Header) {
    && OrderOk(ls) && TableOk(t) && StandingOk(ls, t) && Orderly(t, h)
    && LineOk(ls, StartLine(h)) && EndPlaced(ls, StartLine(h))
  }

  lemma StartKeepsHeirs(ls: seq<Line>, t: Table, u: Table, h: Header, l: Option<Key>, ends: bool, g: Header)
    requires Starting(ls, t, h) && StartFates(t, u, h, l, ends)
    ensures HeirOk(ls + [StartLine(h)], u, g)
  {
    HasMore(ls, StartLine(h), g);
    EndedInMore(ls, StartLine(h), g.key.cmdid);
    var up := ExecParent(g.key, g.pccode);
    if Has(ls, g) && !EndedIn(ls, g.key.cmdid) && up.Some? && up.value in u {
      var i :| 0 <= i < |ls| && ls[i] == StartLine(g);
      assert Below(ls, h.key.cmdid, h.key.depth);
      assert up.value != h.key;
      assert StartFate(t, u, h.key, l, ends, up.value) && StartFate(t, u, h.key, l, ends, g.key);
      assert HeirOk(ls, t, g) && ClosedOk(ls, t, g.key);
    }
  }

  lemma StartKeepsFree(ls: seq<Line>, t: Table, u: Table, h: Header, ends: bool, s: Key)
    requires Starting(ls, t, h) && StartFates(t, u, h, LeaderOf(t, Predecessor(t, h)), ends) && s in u
    ensures FreeOk(u, s)
  {
    var l, up := LeaderOf(t, Predecessor(t, h)), ExecParent(s, u[s].pccode);
    assert StartFate(t, u, h.key, l, ends, s);
    if up.Some? && up.value in u && u[up.value].leader == None {
      assert StartFate(t, u, h.key, l, ends, up.value);
      if s == h.key {
        assert Predecessor(t, h) == up && GroupOk(t, up.value);
      } else {
        assert FreeOk(t, s) && LinkOk(t, s);
      }
    }
  }

  lemma StartKeepsStanding(style: Style, ls: seq<Line>, st: State, h: Header, p: Patterns, time: Moment)
    requires Starting(ls, st.table, h) && StyleOk(style, st.table)
    ensures StandingOk(ls + [StartLine(h)], SoaStep(style, st, h, p, time).table)
  {
    var t, u, l, more := st.table, SoaStep(style, st, h, p, time).table, LeaderOf(st.table, Predecessor(st.table, h)), ls + [StartLine(h)];
    var ends := StartIs(style, st, h, p, time);
    forall j | j in u ensures ClosedOk(more, u, j) && KnownOk(more, u, j) && FreeOk(u, j) {
      assert StartFate(t, u, h.key, l, ends, j);
      EndedInMore(ls, StartLine(h), j.cmdid);
      StartKeepsFree(ls, t, u, h, ends, j);
      if j == h.key {
        HasMore(ls, StartLine(h), h);
      } else {
        assert ClosedOk(ls, t, j) && KnownOk(ls, t, j);
        KnownStays(ls, StartLine(h), t, u, j);
      }
    }
    forall g ensures HeirOk(more, u, g) {
      StartKeepsHeirs(ls, t, u, h, l, ends, g);
    }
  }

  /* Whole runs. */

  lemma ActionKeepsStanding(ls: seq<Line>, t: Table, u: Table, k: Key)
    requires StandingOk(ls, t) && u.Keys == t.Keys
    requires forall j | j in t :: u[j].closed == t[j].closed && u[j].pccode == t[j].pccode && u[j].leader == t[j].leader
    ensures StandingOk(ls + [ActionLine(k)], u)
  {
    var l := ActionLine(k);
    forall j | j in u ensures ClosedOk(ls + [l], u, j) && KnownOk(ls + [l], u, j) && FreeOk(u, j) {
      assert ClosedOk(ls, t, j) && KnownOk(ls, t, j) && FreeOk(t, j);
      EndedInMore(ls, l, j.cmdid);
      KnownStays(ls, l, t, u, j);
    }
    forall h ensures HeirOk(ls + [l], u, h) {
      assert HeirOk(ls, t, h);
      HasMore(ls, l, h);
      EndedInMore(ls, l, h.key.cmdid);
    }
  }

  lemma StepKeepsStanding(style: Style, ls: seq<Line>, st: State, l: Line, r: Record)
    requires OrderOk(ls) && TableOk(st.table) && StyleOk(style, st.table) && StandingOk(ls, st.table)
    requires Parses(l, r) && Acceptable(st, r) && LineOk(ls, l) && EndPlaced(ls, l)
    ensures StandingOk(ls + [l], Step(style, st, r).table)
  {
    match l
    case StartLine(h) => StartKeepsStanding(style, ls, st, h, r.patterns, r.time);
    case EndLine(k) => EndKeepsStanding(ls, st, k, r.time);
    case ActionLine(k) => ActionKeepsStanding(ls, st.table, Step(style, st, r).table, k);
  }

  lemma RunStep(style: Style, ls: seq<Line>, rs: seq<Record>, m: nat)
    requires ParsesAll(ls, rs) && OrderOk(ls) && EndsOk(ls) && OrderlyRun(style, rs) && m < |ls|
    requires StandingOk(ls[..m], Run(style, EMPTY, rs[..m]).table)
    ensures StandingOk(ls[..m] + [ls[m]], Step(style, Run(style, EMPTY, rs[..m]), rs[m]).table)
  {
    PrefixOrderly(style, rs, m);
    RunKeepsAll(style, rs[..m]);
    assert OrderlyAt(style, rs, m) && LineOk(ls[..m], ls[m]) && EndPlaced(ls[..m], ls[m]);
    PrefixInOrder(ls, m);
    StepKeepsStanding(style, ls[..m], Run(style, EMPTY, rs[..m]), ls[m], rs[m]);
  }

  lemma EmptyStands()
    ensures StandingOk([], map[])
  {
  }

  lemma OneMoreRecord(style: Style, rs: seq<Record>, m: nat, n: nat)
    requires n == m + 1 && n <= |rs|
    ensures Run(style, EMPTY, rs[..n]) == Step(style, Run(style, EMPTY, rs[..m]), rs[m])
  {
    assert rs[..n][..m] == rs[..m];
  }

  lemma {:induction false} RunStands(style: Style, ls: seq<Line>, rs: seq<Record>, n: nat)
    requires ParsesAll(ls, rs) && OrderOk(ls) && EndsOk(ls) && OrderlyRun(style, rs) && n <= |ls|
    ensures StandingOk(ls[..n], Run(style, EMPTY, rs[..n]).table)
    decreases n
  {
    if n == 0 {
      assert rs[..n] == [] && ls[..n] == [];
      EmptyStands();
    } else {
      var m := n - 1;
      RunStands(style, ls, rs, m);
      RunStep(style, ls, rs, m);
      OneMoreRecord(style, rs, m, n);
      assert ls[..n] == ls[..m] + [ls[m]];
    }
  }

  lemma PrefixInOrder(ls: seq<Line>, n: nat)
    requires OrderOk(ls) && n <= |ls|
    ensures OrderOk(ls[..n])
  {
    forall i | 0 <= i < n ensures LineOk(ls[..n][..i], ls[..n][i]) {
      assert ls[..n][..i] == ls[..i];
      assert LineOk(ls[..i], ls[i]);
    }
  }

  /** At every point of every interleaving, under every style and for any patterns and
      times: an audit is closed exactly if its process has sent its end. */
  lemma ClosedIfEnded(style: Style, states: seq<System>, trace: seq<Event>, rs: seq<Record>, k: Key)
    requires Interleaving(states, trace) && ParsesAll(states[|trace|].handled, rs)
    requires k in Run(style, EMPTY, rs).table
    ensures Run(style, EMPTY, rs).table[k].closed <==> EndedIn(states[|trace|].handled, k.cmdid)
  {
    Standing(style, states, trace, rs);
    assert ClosedOk(states[|trace|].handled, Run(style, EMPTY, rs).table, k);
  }

  lemma Standing(style: Style, states: seq<System>, trace: seq<Event>, rs: seq<Record>)
    requires Interleaving(states, trace) && ParsesAll(states[|trace|].handled, rs)
    ensures OrderlyRun(style, rs) && TableOk(Run(style, EMPTY, rs).table)
    ensures StandingOk(states[|trace|].handled, Run(style, EMPTY, rs).table)
  {
    var ls := states[|trace|].handled;
    EveryInterleavingIsSafe(style, states, trace, rs);
    EveryInterleavingIsOrdered(states, trace);
    EveryInterleavingFinishes(states, trace, |trace|);
    RunStands(style, ls, rs, |ls|);
    assert ls[..|ls|] == ls && rs[..|ls|] == rs;
  }

  lemma LeaderIsOpen(t: Table, k: Key)
    requires GroupsOk(t) && k in t
    ensures exists j | j in t :: !t[j].closed
  {
    assert GroupOk(t, k);
    if t[k].closed {
      assert GroupOk(t, t[k].leader.value);
    }
  }

  /** Nothing is stranded: once every process is gone the table is empty. */
  lemma NothingStranded(style: Style, states: seq<System>, trace: seq<Event>, rs: seq<Record>)
    requires Interleaving(states, trace) && ParsesAll(states[|trace|].handled, rs) && AllGone(states[|trace|])
    ensures OrderlyRun(style, rs) && Run(style, EMPTY, rs).table == map[]
  {
    var ls, t := states[|trace|].handled, Run(style, EMPTY, rs).table;
    Standing(style, states, trace, rs);
    forall k | k in t ensures t[k].closed {
      assert KnownOk(ls, t, k) && ClosedOk(ls, t, k);
      LiveWasStarted(style, ls, rs, k);
      AllEnded(states, trace, k);
    }
    if k :| k in t {
      LeaderIsOpen(t, k);
      assert false;
    }
  }

  /** The bundle is about the command that start record `i` announced: as its leader or
      as one merged into it. */
  ghost predicate IsAbout(b: Bundle, i: nat) {
    b.id == i || exists s :: s in b.subs && s.id == i
  }

  /** Then every command that was started is in exactly one bundle, and each bundle was
      published once. */
  lemma EveryCommandPublished(style: Style, states: seq<System>, trace: seq<Event>, rs: seq<Record>, i: nat)
    requires Interleaving(states, trace) && ParsesAll(states[|trace|].handled, rs) && AllGone(states[|trace|])
    requires i < |rs| && rs[i].Soa?
    ensures var log := Run(style, EMPTY, rs).log;
            exists b | b in log && IsAbout(b, i) :: log[b] == 1 && forall c | c in log && IsAbout(c, i) :: c == b
  {
    var st := Run(style, EMPTY, rs);
    NothingStranded(style, states, trace, rs);
    EveryCommandExactlyOnce(style, rs, i);
    AllPublished(style, rs);
    var o :| OwnsSoa(st, o, i) && forall o' | OwnsSoa(st, o', i) :: o' == o;
    forall c | c in st.log && IsAbout(c, i) ensures c == o.bundle {
      assert OwnsSoa(st, Published(c), i);
    }
  }

  /** So is every action the monitor accepted. */
  lemma EveryActionPublished(style: Style, states: seq<System>, trace: seq<Event>, rs: seq<Record>, i: nat)
    requires Interleaving(states, trace) && ParsesAll(states[|trace|].handled, rs) && AllGone(states[|trace|])
    requires AcceptedAction(style, rs, i)
    ensures var log := Run(style, EMPTY, rs).log;
            exists b | b in log && i in b.actions :: log[b] == 1 && forall c | c in log && i in c.actions :: c == b
  {
    var st := Run(style, EMPTY, rs);
    NothingStranded(style, states, trace, rs);
    EveryActionExactlyOnce(style, rs, i);
    AllPublished(style, rs);
    var o :| OwnsAction(st, o, i) && forall o' | OwnsAction(st, o', i) :: o' == o;
    forall c | c in st.log && i in c.actions ensures c == o.bundle {
      assert OwnsAction(st, Published(c), i);
    }
  }
}
