/** Exactly-once: every accepted start record and every accepted action record
    is, at all times, in one live audit or in one published bundle. */
module AuditOwners {
  import opened AuditLaws
  import opened AuditTable
  import opened Moments
  import opened Options

  /** Where a record can be: in a live audit or in a published bundle. */
  datatype Owner = Live(key: Key) | Published(bundle: Bundle)

  ghost predicate OwnsSoa(st: State, o: Owner, i: nat) {
    match o
    case Live(k) => k in st.table && st.table[k].id == i
    case Published(b) => b in st.log && (b.id == i || exists s :: s in b.subs && s.id == i)
  }

  ghost predicate OwnsAction(st: State, o: Owner, i: nat) {
    match o
    case Live(k) => k in st.table && i in st.table[k].raw
    case Published(b) => b in st.log && i in b.actions
  }

  /** Within a bundle the leader and the members are all different records. */
  ghost predicate BundleOk(b: Bundle) {
    && (forall s | s in b.subs :: s.id != b.id)
    && (forall s, s' | s in b.subs && s' in b.subs && s.id == s'.id :: s == s')
  }

  /** No call of the callback was made twice. */
  ghost predicate OncePublished(st: State) {
    forall b {:trigger st.log[b]} :: st.log[b] <= 1
  }

  ghost predicate Conserved(st: State) {
    && (forall i | i in st.soas :: i < st.clock)
    && (forall i | i in st.actions :: i < st.clock)
    && (forall i :: i in st.soas <==> exists o :: OwnsSoa(st, o, i))
    && (forall i :: i in st.actions <==> exists o :: OwnsAction(st, o, i))
    && (forall i, o, o' | OwnsSoa(st, o, i) && OwnsSoa(st, o', i) :: o == o')
    && (forall i, o, o' | OwnsAction(st, o, i) && OwnsAction(st, o', i) :: o == o')
    && (forall b | b in st.log :: BundleOk(b))
    && OncePublished(st)
  }

  /** `move` says where each owner's records went; nothing is copied or lost. */
  ghost predicate Moved(st: State, st': State, move: Owner -> Owner) {
    && st'.soas == st.soas && st'.actions == st.actions && st'.clock == st.clock
    && (forall o, i | OwnsSoa(st, o, i) :: OwnsSoa(st', move(o), i))
    && (forall o, i | OwnsAction(st, o, i) :: OwnsAction(st', move(o), i))
    && (forall o', i | OwnsSoa(st', o', i) :: exists o :: OwnsSoa(st, o, i) && move(o) == o')
    && (forall o', i | OwnsAction(st', o', i) :: exists o :: OwnsAction(st, o, i) && move(o) == o')
    && (forall b | b in st'.log :: BundleOk(b))
    && OncePublished(st')
  }

  lemma MovedKeeps(st: State, st': State, move: Owner -> Owner)
    requires Conserved(st) && Moved(st, st', move)
    ensures Conserved(st')
  {
  }

  /* Moves that change no record's owner. */

  /** Tables that differ only in grouping and flags own the same records. */
  ghost predicate SameRecords(t: Table, u: Table) {
    && t.Keys == u.Keys
    && forall k | k in t :: t[k].id == u[k].id && t[k].raw == u[k].raw && t[k].subs == u[k].subs
  }

  lemma SameRecordsKeeps(st: State, u: Table)
    requires Conserved(st) && SameRecords(st.table, u)
    ensures Conserved(st.(table := u))
  {
    var st' := st.(table := u);
    assert forall o, i :: OwnsSoa(st, o, i) <==> OwnsSoa(st', o, i);
    assert forall o, i :: OwnsAction(st, o, i) <==> OwnsAction(st', o, i);
    MovedKeeps(st, st', o => o);
  }

  /* New records. */

  lemma AdmitConserves(st: State, h: Header, time: Moment)
    requires Conserved(st) && h.key !in st.table
    ensures Conserved(Admit(st, h, time))
  {
    var st' := Admit(st, h, time);
    forall o, i ensures OwnsSoa(st', o, i) <==> OwnsSoa(st, o, i) || (o == Live(h.key) && i == st.clock)
      ensures OwnsAction(st', o, i) <==> OwnsAction(st, o, i)
    {
    }
    assert OwnsSoa(st', Live(h.key), st.clock);
  }

  lemma ActionConserves(st: State, k: Key)
    requires Conserved(st) && k in st.table
    ensures Conserved(ActionStep(st, k))
  {
    var st' := ActionStep(st, k);
    forall o, i ensures OwnsSoa(st', o, i) <==> OwnsSoa(st, o, i)
      ensures OwnsAction(st', o, i) <==> OwnsAction(st, o, i) || (o == Live(k) && i == st.clock)
    {
    }
    assert OwnsAction(st', Live(k), st.clock);
  }

  /* Publishing. */

  lemma DistinctIds(st: State, j: Key, k: Key)
    requires Conserved(st) && j in st.table && k in st.table && j != k
    ensures st.table[j].id != st.table[k].id
  {
    assert OwnsSoa(st, Live(j), st.table[j].id) && OwnsSoa(st, Live(k), st.table[k].id);
  }

  /** What holds a live audit's start record is not published yet. */
  lemma LiveIsUnpublished(st: State, k: Key, b: Bundle)
    requires Conserved(st) && k in st.table && b.id == st.table[k].id
    ensures b !in st.log
  {
    assert OwnsSoa(st, Live(k), b.id);
    assert b in st.log ==> OwnsSoa(st, Published(b), b.id);
  }

  /** Where the records of a published group go. */
  ghost function IntoBundle(l: Key, g: set<Key>, b: Bundle): Owner -> Owner {
    (o: Owner) => if o.Live? && (o.key == l || o.key in g) then Published(b) else o
  }

  /** The bundle of a leader that has absorbed its group. */
  ghost predicate BundleFor(t: Table, l: Key, g: set<Key>, b: Bundle) {
    && l in t && g <= t.Keys && l !in g && b.id == t[l].id && t[l].subs == {}
    && (forall s :: s in b.subs <==> exists k :: k in g && s == Sub(t[k].id, t[k].duration))
    && (forall i :: i in b.actions <==> i in t[l].raw || exists k :: k in g && i in t[k].raw)
  }

  lemma MergedBundle(t: Table, l: Key)
    requires Clean(t) && l in t && GroupOf(t[l]) <= t.Keys
    ensures BundleFor(t, l, GroupOf(t[l]) - {l}, BundleOf(l, Merged(t, l)))
  {
  }

  lemma BundleForOk(st: State, l: Key, g: set<Key>, b: Bundle)
    requires Conserved(st) && BundleFor(st.table, l, g, b)
    ensures BundleOk(b)
  {
    forall j, k | j in g + {l} && k in g + {l} && j != k ensures st.table[j].id != st.table[k].id {
      DistinctIds(st, j, k);
    }
  }

  lemma SoasIntoBundle(st: State, st': State, l: Key, g: set<Key>, b: Bundle)
    requires Conserved(st) && BundleFor(st.table, l, g, b) && b !in st.log
    requires st' == st.(table := st.table - (g + {l}), log := st.log + multiset{b})
    ensures forall o, i | OwnsSoa(st, o, i) :: OwnsSoa(st', IntoBundle(l, g, b)(o), i)
    ensures forall o', i | OwnsSoa(st', o', i) :: exists o :: OwnsSoa(st, o, i) && IntoBundle(l, g, b)(o) == o'
  {
    var move, t := IntoBundle(l, g, b), st.table;
    forall o, i | OwnsSoa(st, o, i) ensures OwnsSoa(st', move(o), i) {
      if o.Live? && o.key in g {
        assert Sub(t[o.key].id, t[o.key].duration) in b.subs;
      }
    }
    forall o', i | OwnsSoa(st', o', i) ensures exists o :: OwnsSoa(st, o, i) && move(o) == o' {
      if o' == Published(b) {
        if b.id == i {
          assert OwnsSoa(st, Live(l), i);
        } else {
          var k :| k in g && t[k].id == i;
          assert OwnsSoa(st, Live(k), i);
        }
      } else {
        assert OwnsSoa(st, o', i) && move(o') == o';
      }
    }
  }

  lemma ActionsIntoBundle(st: State, st': State, l: Key, g: set<Key>, b: Bundle)
    requires Conserved(st) && BundleFor(st.table, l, g, b) && b !in st.log
    requires st' == st.(table := st.table - (g + {l}), log := st.log + multiset{b})
    ensures forall o, i | OwnsAction(st, o, i) :: OwnsAction(st', IntoBundle(l, g, b)(o), i)
    ensures forall o', i | OwnsAction(st', o', i) :: exists o :: OwnsAction(st, o, i) && IntoBundle(l, g, b)(o) == o'
  {
    var move, t := IntoBundle(l, g, b), st.table;
    forall o', i | OwnsAction(st', o', i) ensures exists o :: OwnsAction(st, o, i) && move(o) == o' {
      if o' == Published(b) {
        if i in t[l].raw {
          assert OwnsAction(st, Live(l), i);
        } else {
          var k :| k in g && i in t[k].raw;
          assert OwnsAction(st, Live(k), i);
        }
      } else {
        assert OwnsAction(st, o', i) && move(o') == o';
      }
    }
  }

  lemma NewBundleOnce(st: State, b: Bundle)
    requires OncePublished(st) && b !in st.log
    ensures OncePublished(st.(log := st.log + multiset{b}))
  {
    var u := st.(log := st.log + multiset{b});
    forall c ensures u.log[c] <= 1 {
      assert st.log[c] <= 1;
    }
  }

  /** A leader takes its members' records with it into one bundle. */
  lemma PublishConserves(st: State, l: Key)
    requires Conserved(st) && Clean(st.table) && l in st.table && GroupOf(st.table[l]) <= st.table.Keys
    ensures Conserved(Purge(Publish(st, l)))
  {
    var st', g, b := Purge(Publish(st, l)), GroupOf(st.table[l]) - {l}, BundleOf(l, Merged(st.table, l));
    PublishPurge(st, l);
    assert st'.table == st.table - (g + {l});
    LiveIsUnpublished(st, l, b);
    MergedBundle(st.table, l);
    BundleForOk(st, l, g, b);
    NewBundleOnce(st, b);
    SoasIntoBundle(st, st', l, g, b);
    ActionsIntoBundle(st, st', l, g, b);
    MovedKeeps(st, st', IntoBundle(l, g, b));
  }

  /** The closed members of the group led by `l`. */
  ghost function ClosedMembers(t: Table, l: Key): set<Key> {
    set k | k in t && t[k].leader == Some(l) && t[k].closed
  }

  lemma DisbandPublishes(st: State, l: Key)
    requires Clean(st.table) && GroupsOk(st.table) && l in st.table && st.table[l].leader == Some(l)
    ensures var st' := Purge(Disband(st, l));
            && st' == st.(table := st'.table, log := st'.log)
            && st'.table.Keys == st.table.Keys - ClosedMembers(st.table, l)
            && SameRecords(st.table - ClosedMembers(st.table, l), st'.table)
            && st'.log == st.log + multiset(set k | k in ClosedMembers(st.table, l) :: BundleOf(k, st.table[k]))
  {
    var t, st' := st.table, Purge(Disband(st, l));
    DisbandEffect(st, l);
    assert GroupOk(t, l);
    forall k | k in t ensures k == l || k in GroupOf(t[l]) <==> t[k].leader == Some(l) {
      assert GroupOk(t, k);
    }
  }

  /** Disbanding publishes each closed member by itself. */
  lemma DisbandConserves(st: State, l: Key)
    requires Conserved(st) && Clean(st.table) && GroupsOk(st.table) && l in st.table && st.table[l].leader == Some(l)
    ensures Conserved(Purge(Disband(st, l)))
  {
    DisbandPublishes(st, l);
    PublishEachConserves(st, ClosedMembers(st.table, l), Purge(Disband(st, l)));
  }

  /** Where the records of audits go that are published one by one. */
  ghost function IntoBundles(t: Table, out: set<Key>): Owner -> Owner {
    (o: Owner) => if o.Live? && o.key in t && o.key in out then Published(BundleOf(o.key, t[o.key])) else o
  }

  /** The audits in `out` have gone to bundles of their own. */
  ghost predicate EachPublished(st: State, out: set<Key>, st': State) {
    && out <= st.table.Keys
    && st' == st.(table := st'.table, log := st.log + multiset(set k | k in out :: BundleOf(k, st.table[k])))
    && SameRecords(st.table - out, st'.table)
  }

  lemma EachBundleOnce(st: State, out: set<Key>, st': State)
    requires Conserved(st) && Clean(st.table) && EachPublished(st, out, st')
    ensures OncePublished(st') && forall b | b in st'.log :: BundleOk(b)
  {
    assert OncePublished(st);
    forall b ensures st'.log[b] <= 1 {
      assert st.log[b] <= 1;
      if b.key in out && b == BundleOf(b.key, st.table[b.key]) {
        LiveIsUnpublished(st, b.key, b);
      }
    }
  }

  lemma SoasIntoBundles(st: State, out: set<Key>, st': State)
    requires Conserved(st) && Clean(st.table) && EachPublished(st, out, st')
    ensures forall o, i | OwnsSoa(st, o, i) :: OwnsSoa(st', IntoBundles(st.table, out)(o), i)
    ensures forall o', i | OwnsSoa(st', o', i) :: exists o :: OwnsSoa(st, o, i) && IntoBundles(st.table, out)(o) == o'
  {
    var t, move := st.table, IntoBundles(st.table, out);
    forall o', i | OwnsSoa(st', o', i) ensures exists o :: OwnsSoa(st, o, i) && move(o) == o' {
      if o'.Published? && o'.bundle !in st.log {
        var k :| k in out && o'.bundle == BundleOf(k, t[k]);
        assert OwnsSoa(st, Live(k), i);
      } else {
        assert OwnsSoa(st, o', i) && move(o') == o';
      }
    }
  }

  lemma ActionsIntoBundles(st: State, out: set<Key>, st': State)
    requires Conserved(st) && Clean(st.table) && EachPublished(st, out, st')
    ensures forall o, i | OwnsAction(st, o, i) :: OwnsAction(st', IntoBundles(st.table, out)(o), i)
    ensures forall o', i | OwnsAction(st', o', i) :: exists o :: OwnsAction(st, o, i) && IntoBundles(st.table, out)(o) == o'
  {
    var t, move := st.table, IntoBundles(st.table, out);
    forall o', i | OwnsAction(st', o', i) ensures exists o :: OwnsAction(st, o, i) && move(o) == o' {
      if o'.Published? && o'.bundle !in st.log {
        var k :| k in out && o'.bundle == BundleOf(k, t[k]);
        assert OwnsAction(st, Live(k), i);
      } else {
        assert OwnsAction(st, o', i) && move(o') == o';
      }
    }
  }

  lemma PublishEachConserves(st: State, out: set<Key>, st': State)
    requires Conserved(st) && Clean(st.table) && EachPublished(st, out, st')
    ensures Conserved(st')
  {
    EachBundleOnce(st, out, st');
    SoasIntoBundles(st, out, st');
    ActionsIntoBundles(st, out, st');
    MovedKeeps(st, st', IntoBundles(st.table, out));
  }

  /* Whole records. */

  lemma SoaConserves(style: Style, st: State, h: Header, p: Patterns, time: Moment)
    requires Conserved(st) && TableOk(st.table) && StyleOk(style, st.table) && Orderly(st.table, h)
    ensures Conserved(SoaStep(style, st, h, p, time))
  {
    var l := LeaderOf(st.table, Predecessor(st.table, h));
    var a := Admit(st, h, time);
    var level := AggregationLevel(style, l.Some?, l.Some? && st.table[l.value].strong, p);
    AdmitConserves(st, h, time);
    AdmitKeeps(st, h, time);
    LevelIsPossible(style, st.table, h, p);
    if l.Some? {
      assert GroupOk(st.table, Predecessor(st.table, h).value);
      JoinOrBreakConserves(a, h.key, l.value, level);
    } else if level == Strong || level == Weak {
      StartGroupConserves(a, h.key, level == Strong);
    }
  }

  lemma StartGroupConserves(st: State, k: Key, strong: bool)
    requires Conserved(st) && k in st.table
    ensures Conserved(st.(table := StartGroup(st.table, k, strong)))
  {
    SameRecordsKeeps(st, StartGroup(st.table, k, strong));
  }

  lemma AggregateConserves(st: State, l: Key, k: Key)
    requires Conserved(st) && k in st.table && l in st.table
    ensures Conserved(st.(table := Aggregate(st.table, l, k)))
  {
    SameRecordsKeeps(st, Aggregate(st.table, l, k));
  }

  lemma JoinOrBreakConserves(st: State, k: Key, l: Key, level: Level)
    requires Conserved(st) && Clean(st.table) && GroupsOk(st.table) && level != Unaggregated
    requires l in st.table && st.table[l].leader == Some(l)
    requires k in st.table && st.table[k].leader == None && !st.table[k].closed
    ensures Conserved(JoinOrBreak(st, k, l, level))
  {
    var d := Disband(st, l);
    if (level != Break && st.table[l].strong) || level == Neutral {
      AggregateConserves(st, l, k);
    } else {
      DisbandConserves(st, l);
      DisbandEffect(st, l);
      if level != Break {
        StartThenPurge(d, k, level == Strong);
        StartGroupConserves(Purge(d), k, level == Strong);
      }
    }
  }

  lemma CloseOneConserves(st: State, k: Key, end: Moment)
    requires Conserved(st) && Closable(st.table) && k in st.table
    ensures Conserved(CloseOne(st, k, end))
  {
    var a := st.table[k].(duration := Duration(end, st.table[k].start), closed := true);
    var u := st.table[k := a];
    SameRecordsKeeps(st, u);
    if !a.leader.Some? {
      PublishConserves(st.(table := u), k);
    }
  }

  lemma {:induction false} CloseChainConserves(st: State, k: Key, end: Moment)
    requires Conserved(st) && Closable(st.table) && k in st.table
    ensures Conserved(CloseChain(st, k, end))
    decreases k.depth
  {
    CloseOneConserves(st, k, end);
    CloseOneEffect(st, k, end);
    var u := CloseOne(st, k, end);
    var up := ExecParent(k, st.table[k].pccode);
    if up.Some? && up.value in st.table && up.value in u.table {
      CloseChainConserves(u, up.value, st.table[k].start);
    }
  }

  lemma EoaConserves(st: State, k: Key, time: Moment)
    requires Conserved(st) && TableOk(st.table) && k in st.table
    ensures Conserved(EoaStep(st, k, time))
  {
    var t, l, u := st.table, st.table[k].leader, CloseChain(st, k, time);
    assert GroupOk(t, k);
    OkIsClosable(t);
    CloseChainConserves(st, k, time);
    CloseChainEffect(st, k, time);
    if l.Some? && l.value in u.table && u.table[l.value].closed {
      assert GroupOk(t, l.value) && FateOk(t, u.table, k, time, l.value);
      forall j | j in GroupOf(u.table[l.value]) ensures j in u.table {
        assert FateOk(t, u.table, k, time, j);
      }
      PublishConserves(u, l.value);
    }
  }

  lemma TickConserves(st: State)
    requires Conserved(st)
    ensures Conserved(Tick(st))
  {
    assert forall o, i :: OwnsSoa(st, o, i) <==> OwnsSoa(Tick(st), o, i);
    assert forall o, i :: OwnsAction(st, o, i) <==> OwnsAction(Tick(st), o, i);
  }

  /** Every record of an orderly stream keeps exactly one owner per record. */
  lemma StepConserves(style: Style, st: State, r: Record)
    requires Conserved(st) && TableOk(st.table) && StyleOk(style, st.table) && Acceptable(st, r)
    ensures Conserved(Step(style, st, r))
  {
    match r
    case Soa(h, p, time) => SoaConserves(style, st, h, p, time);
    case Eoa(k, time) =>
      if k in st.table {
        EoaConserves(st, k, time);
        TickConserves(EoaStep(st, k, time));
      } else {
        TickConserves(st);
      }
    case Action(k) => if k in st.table { ActionConserves(st, k); } else { TickConserves(st); }
    case _ => TickConserves(st);
  }

  /** Everything that holds between two records. */
  ghost predicate StateOk(style: Style, st: State) {
    TableOk(st.table) && StyleOk(style, st.table) && Conserved(st)
  }

  lemma StepKeepsState(style: Style, st: State, r: Record)
    requires StateOk(style, st) && Acceptable(st, r)
    ensures StateOk(style, Step(style, st, r))
  {
    StepKeepsTable(style, st, r);
    StepConserves(style, st, r);
  }
}
