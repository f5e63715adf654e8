/** What every record keeps: well-formed groups, exec links, and exactly one
    owner for every accepted command and action. */
module AuditLaws {
  import opened AuditTable
  import opened Moments
  import opened Options

  /* Well-formed tables. */

  /** Between records nothing processed or coalesced stays in the table. */
  ghost predicate Clean(t: Table) {
    forall k | k in t :: !t[k].processed && !t[k].cooked && t[k].subs == {} && k.cmdid != 0
  }

  /** The audits other than `k` that point at `k` as their leader. */
  ghost function Members(t: Table, k: Key): set<Key> {
    set j | j in t && j != k && t[j].leader == Some(k)
  }

  /** A leader is live, leads itself, is still open, and its group holds exactly
      the other audits that point at it; whatever is closed belongs to a group. */
  ghost predicate GroupOk(t: Table, k: Key)
    requires k in t
  {
    && (t[k].leader.Some? ==> t[k].leader.value in t && t[t[k].leader.value].leader == t[k].leader)
    && (t[k].group.Some? <==> t[k].leader == Some(k))
    && (t[k].group.Some? ==> t[k].group.value == Members(t, k) && !t[k].closed)
    && (t[k].closed ==> t[k].leader.Some?)
  }

  ghost predicate GroupsOk(t: Table) {
    forall k {:trigger GroupOk(t, k)} | k in t :: GroupOk(t, k)
  }

  /** An image that is in a group shares it with the image it was replaced by. */
  ghost predicate LinksOk(t: Table) {
    forall k {:trigger LinkOk(t, k)} | k in t :: LinkOk(t, k)
  }

  ghost predicate LinkOk(t: Table, k: Key)
    requires k in t
  {
    var up := ExecParent(k, t[k].pccode);
    up.Some? && up.value in t && t[up.value].leader.Some? ==> t[k].leader == t[up.value].leader
  }

  ghost predicate TableOk(t: Table) {
    Clean(t) && GroupsOk(t) && LinksOk(t)
  }

  /** With aggregation switched off no group ever forms. */
  ghost predicate StyleOk(style: Style, t: Table) {
    style == AggregateNothing ==> forall k | k in t :: t[k].leader == None
  }

  /* A start record. */

  /** `k` has just been admitted: alone, open, nobody's exec parent, and not
      yet placed in the group `l` of its own exec parent. */
  ghost predicate Arriving(t: Table, k: Key, l: Option<Key>) {
    && Clean(t) && GroupsOk(t)
    && (forall j {:trigger LinkOk(t, j)} | j in t && j != k :: LinkOk(t, j))
    && k in t && t[k].leader == None && !t[k].closed && t[k].group == None
    && (forall j | j in t :: ExecParent(j, t[j].pccode) != Some(k))
    && var up := ExecParent(k, t[k].pccode);
       up.Some? && up.value in t && t[up.value].leader.Some? ==> t[up.value].leader == l
  }

  lemma AdmitKeeps(st: State, h: Header, time: Moment)
    requires TableOk(st.table) && Orderly(st.table, h)
    ensures Arriving(Admit(st, h, time).table, h.key, LeaderOf(st.table, Predecessor(st.table, h)))
  {
    var t, u := st.table, Admit(st, h, time).table;
    forall k | k in t ensures GroupOk(u, k) && LinkOk(u, k) {
      assert GroupOk(t, k) && LinkOk(t, k);
      assert Members(u, k) == Members(t, k);
    }
  }

  lemma ArrivedAlone(t: Table, k: Key)
    requires Arriving(t, k, None)
    ensures TableOk(t)
  {
    assert LinkOk(t, k);
  }

  lemma AggregateMembers(t: Table, l: Key, k: Key, j: Key)
    requires l in t && k in t && k != l && t[k].leader == None && t[l].leader == Some(l)
    ensures Members(Aggregate(t, l, k), j) == if j == l then Members(t, j) + {k} else Members(t, j)
  {
  }

  lemma AggregateKeeps(t: Table, l: Key, k: Key)
    requires Arriving(t, k, Some(l)) && l in t && t[l].leader == Some(l)
    ensures TableOk(Aggregate(t, l, k))
  {
    var u := Aggregate(t, l, k);
    assert k != l && GroupOk(t, l);
    forall j | j in u ensures GroupOk(u, j) {
      assert GroupOk(t, j);
      AggregateMembers(t, l, k, j);
    }
    forall j | j in u ensures LinkOk(u, j) {
      assert j != k ==> LinkOk(t, j);
    }
  }

  lemma StartGroupKeeps(t: Table, k: Key, strong: bool)
    requires Arriving(t, k, None)
    ensures TableOk(StartGroup(t, k, strong))
  {
    var u := StartGroup(t, k, strong);
    forall j | j in u ensures GroupOk(u, j) && LinkOk(u, j) {
      assert GroupOk(t, j) && (j != k ==> LinkOk(t, j));
      assert Members(u, j) == Members(t, j);
      assert j == k ==> Members(t, j) == {} by {
        assert forall i | i in t :: GroupOk(t, i);
      }
    }
  }

  /** Disbanding removes the closed members and sets the open ones free. */
  lemma DisbandEffect(st: State, l: Key)
    requires Clean(st.table) && GroupsOk(st.table) && l in st.table && st.table[l].leader == Some(l)
    ensures var t, u := st.table, Purge(Disband(st, l)).table;
            && (forall k :: k in u <==> k in t && !(t[k].leader == Some(l) && t[k].closed))
            && (forall k | k in u :: u[k] == if t[k].leader == Some(l) then t[k].(leader := None, group := None) else t[k])
  {
    var t := st.table;
    assert GroupOk(t, l);
    forall k | k in t ensures k == l || k in GroupOf(t[l]) <==> t[k].leader == Some(l)
      ensures t[k].group.Some? ==> t[k].leader == Some(k)
    {
      assert GroupOk(t, k);
    }
  }

  /** Other groups do not notice a disband. */
  lemma DisbandMembers(st: State, l: Key, j: Key)
    requires Clean(st.table) && GroupsOk(st.table) && l in st.table && st.table[l].leader == Some(l) && j != l
    ensures Members(Purge(Disband(st, l)).table, j) == Members(st.table, j)
  {
    DisbandEffect(st, l);
  }

  lemma DisbandGroupOk(st: State, l: Key, j: Key)
    requires Clean(st.table) && GroupsOk(st.table) && l in st.table && st.table[l].leader == Some(l)
    requires j in Purge(Disband(st, l)).table
    ensures GroupOk(Purge(Disband(st, l)).table, j)
  {
    DisbandEffect(st, l);
    assert GroupOk(st.table, j);
    if j != l {
      DisbandMembers(st, l, j);
    }
  }

  lemma DisbandLinkOk(st: State, l: Key, j: Key)
    requires Clean(st.table) && GroupsOk(st.table) && l in st.table && st.table[l].leader == Some(l)
    requires j in Purge(Disband(st, l)).table && j in st.table && LinkOk(st.table, j)
    ensures LinkOk(Purge(Disband(st, l)).table, j)
  {
    DisbandEffect(st, l);
  }

  lemma DisbandKeeps(st: State, l: Key, k: Key)
    requires Arriving(st.table, k, Some(l)) && l in st.table && st.table[l].leader == Some(l)
    ensures Arriving(Purge(Disband(st, l)).table, k, None)
  {
    var t, u := st.table, Purge(Disband(st, l)).table;
    forall j | j in u ensures GroupOk(u, j) {
      DisbandGroupOk(st, l, j);
    }
    forall j | j in u && j != k ensures LinkOk(u, j) {
      assert LinkOk(t, j);
      DisbandLinkOk(st, l, j);
    }
    DisbandEffect(st, l);
  }

  /** Starting a group right after a disband: the clean-up in between the two
      does not notice the new group. */
  lemma StartThenPurge(st: State, k: Key, strong: bool)
    requires k in st.table && !st.table[k].processed
    ensures Purge(st.(table := StartGroup(st.table, k, strong)))
         == Purge(st).(table := StartGroup(Purge(st).table, k, strong))
  {
    assert Purge(st.(table := StartGroup(st.table, k, strong))).table == StartGroup(Purge(st).table, k, strong);
  }

  lemma JoinOrBreakKeeps(st: State, k: Key, l: Key, level: Level)
    requires Arriving(st.table, k, Some(l)) && l in st.table && st.table[l].leader == Some(l)
    requires level != Unaggregated
    ensures TableOk(JoinOrBreak(st, k, l, level).table)
  {
    if (level != Break && st.table[l].strong) || level == Neutral {
      AggregateKeeps(st.table, l, k);
    } else {
      DisbandKeeps(st, l, k);
      var u := Purge(Disband(st, l));
      if level != Break {
        StartThenPurge(Disband(st, l), k, level == Strong);
        StartGroupKeeps(u.table, k, level == Strong);
      } else {
        ArrivedAlone(u.table, k);
      }
    }
  }

  lemma SoaKeepsTable(style: Style, st: State, h: Header, p: Patterns, time: Moment)
    requires TableOk(st.table) && StyleOk(style, st.table) && Orderly(st.table, h)
    ensures TableOk(SoaStep(style, st, h, p, time).table)
    ensures StyleOk(style, SoaStep(style, st, h, p, time).table)
  {
    AdmitKeeps(st, h, time);
    var l := LeaderOf(st.table, Predecessor(st.table, h));
    var a := Admit(st, h, time);
    var level := AggregationLevel(style, l.Some?, l.Some? && st.table[l.value].strong, p);
    LevelIsPossible(style, st.table, h, p);
    if l.Some? {
      assert GroupOk(st.table, Predecessor(st.table, h).value);
      JoinOrBreakKeeps(a, h.key, l.value, level);
    } else if level == Strong || level == Weak {
      StartGroupKeeps(a.table, h.key, level == Strong);
    } else {
      ArrivedAlone(a.table, h.key);
    }
  }

  /** The source's "impossible" aggregation level never occurs inside a group. */
  lemma LevelIsPossible(style: Style, t: Table, h: Header, p: Patterns)
    requires StyleOk(style, t)
    ensures var l := LeaderOf(t, Predecessor(t, h));
            l.Some? ==> style != AggregateNothing && AggregationLevel(style, true, t[l.value].strong, p) != Unaggregated
  {
    var l := LeaderOf(t, Predecessor(t, h));
    if l.Some? {
      var k := Predecessor(t, h).value;
      assert t[k].leader == l;
    }
  }

  /* An end record. */

  /** `j` is `k` or an earlier image of the same process. */
  predicate InChain(t: Table, k: Key, j: Key)
    requires k in t
    decreases k.depth
  {
    j == k || (var up := ExecParent(k, t[k].pccode); up.Some? && up.value in t && InChain(t, up.value, j))
  }

  /** The chain below a key, and when its images ended, only depends on
      shallower audits. */
  lemma {:induction false} ChainFrame(t: Table, u: Table, k: Key, j: Key, end: Moment)
    requires k in t && k in u && t[k].pccode == u[k].pccode && t[k].start == u[k].start
    requires forall i: Key | i.depth < k.depth :: (i in t <==> i in u) && (i in t ==> t[i].pccode == u[i].pccode && t[i].start == u[i].start)
    ensures InChain(t, k, j) == InChain(u, k, j)
    ensures InChain(t, k, j) ==> j in t && j.depth <= k.depth && j.cmdid == k.cmdid
    ensures InChain(t, k, j) ==> EndOf(t, k, end, j) == EndOf(u, k, end, j)
    decreases k.depth
  {
    var up := ExecParent(k, t[k].pccode);
    if up.Some? && up.value in t {
      ChainFrame(t, u, up.value, j, t[k].start);
    }
  }

  lemma {:induction false} TopFrame(t: Table, u: Table, k: Key)
    requires k in t && k in u && t[k].pccode == u[k].pccode
    requires forall i: Key | i.depth < k.depth :: (i in t <==> i in u) && (i in t ==> t[i].pccode == u[i].pccode)
    ensures ReachesTop(t, k) == ReachesTop(u, k)
    decreases k.depth
  {
    var up := ExecParent(k, t[k].pccode);
    if up.Some? && up.value in t {
      TopFrame(t, u, up.value);
    }
  }

  /** The end record's top-level flag covers every image of the chain: it is raised if
      one of them has no parent command. */
  lemma {:induction false} TopIsInChain(t: Table, k: Key)
    requires k in t
    ensures ReachesTop(t, k) <==> exists j | j in t :: InChain(t, k, j) && t[j].pccode in ["", "-"]
    decreases k.depth
  {
    assert InChain(t, k, k);
    var up := ExecParent(k, t[k].pccode);
    if up.Some? && up.value in t {
      TopIsInChain(t, up.value);
    }
  }

  lemma {:induction false} ChainLeader(t: Table, k: Key, j: Key)
    requires LinksOk(t) && k in t && InChain(t, k, j)
    ensures j in t && (t[j].leader.Some? ==> t[j].leader == t[k].leader)
    decreases k.depth
  {
    assert LinkOk(t, k);
    if j != k {
      ChainLeader(t, ExecParent(k, t[k].pccode).value, j);
    }
  }

  /** Enough order to close audits one by one: only led audits lead a group. */
  ghost predicate Closable(t: Table) {
    Clean(t) && forall k | k in t && t[k].group.Some? :: t[k].leader.Some?
  }

  lemma OkIsClosable(t: Table)
    requires Clean(t) && GroupsOk(t)
    ensures Closable(t)
  {
    forall k | k in t && t[k].group.Some? ensures t[k].leader.Some? {
      assert GroupOk(t, k);
    }
  }

  /** No pointer leads out of the table. */
  ghost predicate SelfContained(t: Table) {
    forall k | k in t ::
      (t[k].leader.Some? ==> t[k].leader.value in t) && (t[k].group.Some? ==> t[k].group.value <= t.Keys)
  }

  /** Pointers lead to audits that are themselves in a group. */
  ghost predicate AnchoredAt(t: Table, k: Key)
    requires k in t
  {
    && (t[k].leader.Some? ==> t[k].leader.value in t && t[t[k].leader.value].leader.Some?)
    && (t[k].group.Some? ==> forall j | j in t[k].group.value :: j in t && t[j].leader.Some?)
  }

  ghost predicate Anchored(t: Table) {
    forall k {:trigger AnchoredAt(t, k)} | k in t :: AnchoredAt(t, k)
  }

  lemma OkIsAnchored(t: Table)
    requires Clean(t) && GroupsOk(t)
    ensures Anchored(t)
  {
    forall k | k in t ensures AnchoredAt(t, k) {
      assert GroupOk(t, k);
    }
  }

  lemma AnchoredIsSelfContained(t: Table)
    requires Anchored(t)
    ensures SelfContained(t)
  {
    forall k | k in t
      ensures t[k].leader.Some? ==> t[k].leader.value in t
      ensures t[k].group.Some? ==> t[k].group.value <= t.Keys
    {
      assert AnchoredAt(t, k);
    }
  }

  lemma CloseOneAnchored(st: State, k: Key, end: Moment)
    requires Closable(st.table) && Anchored(st.table) && k in st.table
    ensures Anchored(CloseOne(st, k, end).table)
  {
    CloseOneEffect(st, k, end);
    var t, u := st.table, CloseOne(st, k, end).table;
    forall j | j in u ensures AnchoredAt(u, j) {
      assert AnchoredAt(t, j);
    }
  }

  lemma MergedAlone(t: Table, k: Key)
    requires k in t && t[k].group == None
    ensures Merged(t, k) == t[k]
  {
    assert GroupOf(t[k]) - {k} == {};
    assert Merged(t, k).raw == t[k].raw && Merged(t, k).subs == t[k].subs;
  }

  /** Closing an audit outside any group publishes just that audit. */
  lemma CloseOneEffect(st: State, k: Key, end: Moment)
    requires Closable(st.table) && k in st.table
    ensures var u, a := CloseOne(st, k, end), st.table[k].(duration := Duration(end, st.table[k].start), closed := true);
            && Closable(u.table)
            && u == if a.leader.Some? then st.(table := st.table[k := a])
                    else st.(table := st.table - {k}, log := st.log + multiset{BundleOf(k, a)})
  {
    var a := st.table[k].(duration := Duration(end, st.table[k].start), closed := true);
    if !a.leader.Some? {
      var v := st.(table := st.table[k := a]);
      MergedAlone(v.table, k);
      assert Purge(Publish(v, k)).table == st.table - {k};
    }
  }

  /** When the image `j` of the chain ending in `k` stopped running: at `end`
      for `k` itself, at the start of its successor for the others. */
  function EndOf(t: Table, k: Key, end: Moment, j: Key): Moment
    requires k in t && InChain(t, k, j)
    decreases k.depth
  {
    if j == k then end else EndOf(t, ExecParent(k, t[k].pccode).value, t[k].start, j)
  }

  /** The audit `j` once its process has ended at `end`. */
  function ClosedAs(t: Table, k: Key, end: Moment, j: Key): Audit
    requires k in t && j in t && InChain(t, k, j)
  {
    t[j].(duration := Duration(EndOf(t, k, end, j), t[j].start), closed := true)
  }

  /** What closing a chain leaves: ungrouped images are gone, grouped ones are
      marked closed with their own running time, and nothing else changes. */
  ghost predicate ChainClosed(t: Table, u: Table, k: Key, end: Moment)
    requires k in t
  {
    forall j {:trigger FateOk(t, u, k, end, j)} :: FateOk(t, u, k, end, j)
  }

  ghost predicate FateOk(t: Table, u: Table, k: Key, end: Moment, j: Key)
    requires k in t
  {
    && (j in u <==> j in t && !(InChain(t, k, j) && t[j].leader == None))
    && (j in u ==> u[j] == if InChain(t, k, j) then ClosedAs(t, k, end, j) else t[j])
  }

  /** The audits of the chain that no group holds back. */
  ghost function Released(t: Table, k: Key, end: Moment): set<Bundle>
    requires k in t
  {
    set j | j in t && InChain(t, k, j) && t[j].leader == None :: BundleOf(j, ClosedAs(t, k, end, j))
  }

  /** The bundle of one of them. */
  predicate IsReleased(t: Table, k: Key, end: Moment, b: Bundle)
    requires k in t
  {
    && b.key in t && InChain(t, k, b.key) && t[b.key].leader == None
    && b == BundleOf(b.key, ClosedAs(t, k, end, b.key))
  }

  /** Unrolling a chain by its newest image, in the table that image has left. */
  lemma ChainUnroll(t: Table, u: Table, k: Key, end: Moment, j: Key)
    requires k in t
    requires var up := ExecParent(k, t[k].pccode); up.Some? && up.value in t && up.value in u
    requires forall i: Key | i != k :: (i in t <==> i in u) && (i in t ==> t[i] == u[i])
    ensures var up := ExecParent(k, t[k].pccode).value;
            && (InChain(t, k, j) <==> j == k || InChain(u, up, j))
            && (InChain(u, up, j) ==> j != k && j in t && j in u && ClosedAs(t, k, end, j) == ClosedAs(u, up, t[k].start, j))
  {
    ChainFrame(t, u, ExecParent(k, t[k].pccode).value, j, t[k].start);
  }

  lemma {:induction false} CloseChainEffect(st: State, k: Key, end: Moment)
    requires Closable(st.table) && k in st.table
    ensures ChainClosed(st.table, CloseChain(st, k, end).table, k, end)
    ensures CloseChain(st, k, end) == st.(table := CloseChain(st, k, end).table, log := st.log + multiset(Released(st.table, k, end)))
    ensures Closable(CloseChain(st, k, end).table)
    decreases k.depth
  {
    var t := st.table;
    CloseOneEffect(st, k, end);
    var u := CloseOne(st, k, end);
    var up := ExecParent(k, t[k].pccode);
    if up.Some? && up.value in t {
      assert up.value in u.table;
      CloseChainEffect(u, up.value, t[k].start);
      CloseOneThenRest(st, k, end);
    } else {
      forall j ensures FateOk(t, u.table, k, end, j) {}
      assert Released(t, k, end) == if t[k].leader == None then {BundleOf(k, ClosedAs(t, k, end, k))} else {};
    }
  }

  lemma CloseOneThenRest(st: State, k: Key, end: Moment)
    requires Closable(st.table) && k in st.table
    requires var up := ExecParent(k, st.table[k].pccode); up.Some? && up.value in st.table
    requires var u, up := CloseOne(st, k, end), ExecParent(k, st.table[k].pccode).value;
             var w := CloseChain(u, up, st.table[k].start);
             && up in u.table && ChainClosed(u.table, w.table, up, st.table[k].start)
             && w == u.(table := w.table, log := u.log + multiset(Released(u.table, up, st.table[k].start)))
    ensures ChainClosed(st.table, CloseChain(st, k, end).table, k, end)
    ensures CloseChain(st, k, end) == st.(table := CloseChain(st, k, end).table, log := st.log + multiset(Released(st.table, k, end)))
  {
    var t, u, up := st.table, CloseOne(st, k, end), ExecParent(k, st.table[k].pccode).value;
    var w := CloseChain(u, up, t[k].start);
    CloseOneEffect(st, k, end);
    assert CloseChain(st, k, end) == w;
    forall j ensures FateOk(t, w.table, k, end, j) {
      OneFate(t, u.table, w.table, k, end, j);
    }
    var one := if t[k].leader == None then multiset{BundleOf(k, ClosedAs(t, k, end, k))} else multiset{};
    assert u.log == st.log + one;
    ReleasedUnroll(t, u.table, k, end);
  }

  lemma OneFate(t: Table, u: Table, w: Table, k: Key, end: Moment, j: Key)
    requires k in t
    requires var up := ExecParent(k, t[k].pccode);
             up.Some? && up.value in t && up.value in u && FateOk(u, w, up.value, t[k].start, j)
    requires u == if t[k].leader.Some? then t[k := ClosedAs(t, k, end, k)] else t - {k}
    ensures FateOk(t, w, k, end, j)
  {
    ChainUnroll(t, u, k, end, j);
  }

  lemma ReleasedUnroll(t: Table, u: Table, k: Key, end: Moment)
    requires k in t
    requires var up := ExecParent(k, t[k].pccode); up.Some? && up.value in t && up.value in u
    requires u == if t[k].leader.Some? then t[k := ClosedAs(t, k, end, k)] else t - {k}
    ensures multiset(Released(t, k, end))
            == (if t[k].leader == None then multiset{BundleOf(k, ClosedAs(t, k, end, k))} else multiset{})
               + multiset(Released(u, ExecParent(k, t[k].pccode).value, t[k].start))
  {
    var up := ExecParent(k, t[k].pccode).value;
    var all, rest := Released(t, k, end), Released(u, up, t[k].start);
    forall b
      ensures b in rest ==> b.key != k
      ensures b in all <==> (t[k].leader == None && b == BundleOf(k, ClosedAs(t, k, end, k))) || b in rest
    {
      UnrollOne(t, u, k, end, b);
      assert b in all <==> IsReleased(t, k, end, b);
      assert b in rest <==> IsReleased(u, up, t[k].start, b);
    }
  }

  lemma UnrollOne(t: Table, u: Table, k: Key, end: Moment, b: Bundle)
    requires k in t
    requires var up := ExecParent(k, t[k].pccode); up.Some? && up.value in t && up.value in u
    requires u == if t[k].leader.Some? then t[k := ClosedAs(t, k, end, k)] else t - {k}
    ensures var rest := IsReleased(u, ExecParent(k, t[k].pccode).value, t[k].start, b);
            && (rest ==> b.key != k)
            && (IsReleased(t, k, end, b) <==> (t[k].leader == None && b == BundleOf(k, ClosedAs(t, k, end, k))) || rest)
  {
    ChainUnroll(t, u, k, end, b.key);
  }

  /** Publishing a leader takes its whole group out of the table, members that
      are still open included. */
  lemma PublishPurge(st: State, l: Key)
    requires Clean(st.table) && l in st.table
    ensures Purge(Publish(st, l)).table == st.table - (GroupOf(st.table[l]) + {l})
  {
    var u := Purge(Publish(st, l)).table;
    assert forall k :: k in u <==> k in st.table - (GroupOf(st.table[l]) + {l});
  }

  /** Whether ending `k` ends the leader of its group. */
  predicate GroupEnds(t: Table, k: Key)
    requires k in t
  {
    t[k].leader.Some? && InChain(t, k, t[k].leader.value)
  }

  /** What an end record leaves: when the chain closes its group's leader the
      whole group goes, and every ungrouped image of the chain goes. */
  ghost predicate EoaFate(t: Table, w: Table, k: Key, time: Moment, j: Key)
    requires k in t
  {
    && (j in w <==> j in t && !(InChain(t, k, j) && t[j].leader == None) && !(GroupEnds(t, k) && t[j].leader == t[k].leader))
    && (j in w ==> w[j] == if InChain(t, k, j) then ClosedAs(t, k, time, j) else t[j])
    && (InChain(t, k, j) ==> j in t && (t[j].leader.Some? ==> t[j].leader == t[k].leader))
  }

  lemma EoaEffect(st: State, k: Key, time: Moment)
    requires TableOk(st.table) && k in st.table
    ensures forall j {:trigger EoaFate(st.table, EoaStep(st, k, time).table, k, time, j)} ::
              EoaFate(st.table, EoaStep(st, k, time).table, k, time, j)
  {
    var t, l, u, w := st.table, st.table[k].leader, CloseChain(st, k, time), EoaStep(st, k, time).table;
    OkIsClosable(st.table);
    CloseChainEffect(st, k, time);
    assert GroupOk(t, k);
    if GroupEnds(t, k) {
      assert FateOk(t, u.table, k, time, l.value) && GroupOk(t, l.value);
      PublishPurge(u, l.value);
      assert w == u.table - (Members(t, l.value) + {l.value});
    } else {
      assert l.Some? ==> FateOk(t, u.table, k, time, l.value) && GroupOk(t, l.value);
      assert w == u.table;
    }
    forall j ensures EoaFate(t, w, k, time, j) {
      assert FateOk(t, u.table, k, time, j);
      if InChain(t, k, j) {
        ChainLeader(t, k, j);
      }
    }
  }

  /** What an end record publishes: each ungrouped image of the chain alone, and,
      when the leader ends, the leader with the records of its whole group. */
  lemma EoaPublishes(st: State, k: Key, time: Moment)
    requires TableOk(st.table) && k in st.table
    ensures var t, u := st.table, CloseChain(st, k, time).table;
            ChainClosed(t, u, k, time) &&
            EoaStep(st, k, time).log == st.log + multiset(Released(t, k, time)) +
              if GroupEnds(t, k) then multiset{GroupBundle(u, t[k].leader.value)} else multiset{}
  {
    var t, l, u := st.table, st.table[k].leader, CloseChain(st, k, time);
    assert GroupOk(t, k);
    OkIsClosable(st.table);
    CloseChainEffect(st, k, time);
    if l.Some? {
      assert GroupOk(t, l.value) && FateOk(t, u.table, k, time, l.value);
      if GroupEnds(t, k) {
        ChainLeader(t, k, l.value);
        MergedIsGroup(t, u.table, k, time, l.value);
      }
    }
  }

  /** The bundle for the group led by `l`: all of its action records, and a
      header for every other member. */
  ghost function GroupBundle(u: Table, l: Key): Bundle {
    var all := Members(u, l) + {l};
    Bundle(l, if l in u then u[l].id else 0, if l in u then u[l].duration else 0,
           set j | j in u && j in Members(u, l) :: Sub(u[j].id, u[j].duration),
           set j, i | j in u && j in all && i in u[j].raw :: i)
  }

  lemma MergedIsGroup(t: Table, u: Table, k: Key, end: Moment, l: Key)
    requires TableOk(t) && k in t && ChainClosed(t, u, k, end) && l in t && t[l].leader == Some(l)
    ensures l in u && BundleOf(l, Merged(u, l)) == GroupBundle(u, l)
  {
    assert GroupOk(t, l) && FateOk(t, u, k, end, l);
    forall j ensures j in Members(t, l) <==> j in Members(u, l) {
      assert FateOk(t, u, k, end, j);
    }
    assert GroupOf(u[l]) - {l} == Members(u, l);
    assert BundleOf(l, Merged(u, l)).subs == GroupBundle(u, l).subs;
    assert BundleOf(l, Merged(u, l)).actions == GroupBundle(u, l).actions;
  }

  lemma EoaKeepsTable(style: Style, st: State, k: Key, time: Moment)
    requires TableOk(st.table) && StyleOk(style, st.table) && k in st.table
    ensures TableOk(EoaStep(st, k, time).table)
    ensures StyleOk(style, EoaStep(st, k, time).table)
  {
    var t, w := st.table, EoaStep(st, k, time).table;
    EoaEffect(st, k, time);
    forall j | j in w ensures j in t && w[j] == if InChain(t, k, j) then ClosedAs(t, k, time, j) else t[j] {
      assert EoaFate(t, w, k, time, j);
    }
    forall j | j in w ensures GroupOk(w, j) && LinkOk(w, j) {
      assert EoaFate(t, w, k, time, j);
      assert GroupOk(t, j) && LinkOk(t, j);
      assert t[j].leader.Some? ==> EoaFate(t, w, k, time, t[j].leader.value);
      var up := ExecParent(j, t[j].pccode);
      assert up.Some? ==> EoaFate(t, w, k, time, up.value);
      if w[j].group.Some? {
        forall m ensures m in Members(w, j) <==> m in Members(t, j) {
          assert EoaFate(t, w, k, time, m);
        }
      }
    }
  }

  lemma ActionKeepsTable(style: Style, st: State, k: Key)
    requires TableOk(st.table) && StyleOk(style, st.table) && k in st.table
    ensures TableOk(ActionStep(st, k).table) && StyleOk(style, ActionStep(st, k).table)
  {
    var u := ActionStep(st, k).table;
    forall j | j in u ensures GroupOk(u, j) && LinkOk(u, j) {
      assert GroupOk(st.table, j) && LinkOk(st.table, j);
      assert Members(u, j) == Members(st.table, j);
    }
  }

  /** Every record of an orderly stream keeps the table well formed. */
  lemma StepKeepsTable(style: Style, st: State, r: Record)
    requires TableOk(st.table) && StyleOk(style, st.table) && Acceptable(st, r)
    ensures TableOk(Step(style, st, r).table) && StyleOk(style, Step(style, st, r).table)
  {
    match r
    case Soa(h, p, time) => SoaKeepsTable(style, st, h, p, time);
    case Eoa(k, time) => if k in st.table { EoaKeepsTable(style, st, k, time); }
    case Action(k) => if k in st.table { ActionKeepsTable(style, st, k); }
    case _ =>
  }
}
