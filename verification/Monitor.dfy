/** The monitor itself: command audits linked by pointers and updated in place.
    Every method is proved to do to the audits what AuditTable says. */
module Monitor {
  import opened AuditLaws
  import opened AuditOwners
  import opened AuditRuns
  import opened AuditTable
  import opened Moments
  import opened Options

  class CmdAudit {
    const id: nat
    const key: Key
    const pccode: string
    const pcmdid: nat
    const start: Moment
    var duration: int
    var raw: set<nat>
    var cooked: Option<set<nat>>
    var subs: set<Sub>
    var leader: CmdAudit?
    var group: Option<map<Key, CmdAudit>>
    var strong: bool
    var closed: bool
    var processed: bool

    constructor (id: nat, h: Header, time: Moment)
      ensures this.key == h.key && leader == null && group == None && View() == NewAudit(id, h, time)
    {
      this.id, this.key, this.pccode, this.pcmdid, this.start := id, h.key, h.pccode, h.pcmdid, time;
      duration, raw, cooked, subs := 0, {}, None, {};
      leader, group, strong, closed, processed := null, None, false, false, false;
    }

    ghost function View(): Audit
      reads this
    {
      Audit(id, pccode, pcmdid, start, duration, raw, subs,
            if leader == null then Option.None else Some(leader.key),
            if group.Some? then Some(group.value.Keys) else Option.None,
            strong, closed, cooked.Some?, processed)
    }

    /** ca_coalesce, as far as the audit is concerned: the raw actions move to
        the cooked set (see Coalesce for what is kept of each path). */
    method Cook()
      requires cooked.None?
      modifies `raw, `cooked
      ensures View() == old(View()).(raw := {}, cooked := true) && cooked == Some(old(raw))
    {
      cooked := Some(raw);
      raw := {};
    }

    /** ca_merge: the donor's header and raw actions go to this audit. */
    method Merge(donor: CmdAudit)
      requires donor != this
      modifies `raw, `subs, donor`raw
      ensures View() == old(View()).(raw := old(raw) + old(donor.raw), subs := old(subs) + {Sub(donor.id, old(donor.duration))})
      ensures donor.View() == old(donor.View()).(raw := {})
    {
      subs := subs + {Sub(donor.id, donor.duration)};
      raw := raw + donor.raw;
      donor.raw := {};
    }

    /** ca_start_group. */
    method StartGroup(strength: bool)
      requires group.None?
      modifies `group, `leader, `strong
      ensures View() == old(View()).(group := Some({}), leader := Some(key), strong := strength)
      ensures leader == this && group == Some(map[])
    {
      group := Some(map[]);
      leader := this;
      strong := strength;
      assert group.value.Keys == {};
    }

    /** ca_aggregate. */
    method Aggregate(sub: CmdAudit)
      requires group.Some? && sub != this
      modifies `group, sub`leader
      ensures View() == old(View()).(group := Some(old(group).value.Keys + {sub.key}))
      ensures group == Some(if sub.key in old(group).value then old(group).value else old(group).value[sub.key := sub])
      ensures sub.View() == old(sub.View()).(leader := Some(key)) && sub.leader == this
    {
      if sub.key !in group.value {
        group := Some(group.value[sub.key := sub]);
      }
      sub.leader := this;
      assert group.value.Keys == old(group).value.Keys + {sub.key};
    }
  }

  class AuditMonitor {
    const style: Style
    var table: map<Key, CmdAudit>
    var clock: nat
    ghost var log: multiset<Bundle>
    ghost var soas: set<nat>
    ghost var actions: set<nat>

    constructor (style: Style)
      ensures this.style == style && Ok() && View() == EMPTY && fresh(table.Values)
    {
      this.style := style;
      table, clock, log, soas, actions := map[], 0, multiset{}, {}, {};
      new;
      assert forall o, i :: !OwnsSoa(EMPTY, o, i) && !OwnsAction(EMPTY, o, i);
    }

    ghost function View(): State
      reads this, table.Values
    {
      State(map k | k in table :: table[k].View(), log, clock, soas, actions)
    }

    /** Audits sit under their own key, and pointers lead to audits in the table. */
    ghost predicate Linked(k: Key)
      requires k in table
      reads this, table.Values
    {
      var a := table[k];
      && a.key == k
      && (a.leader != null ==> a.leader.key in table && table[a.leader.key] == a.leader)
      && (a.group.Some? ==> forall j | j in a.group.value :: j in table && table[j] == a.group.value[j])
    }

    ghost predicate Valid()
      reads this, table.Values
    {
      forall k {:trigger Linked(k)} | k in table :: Linked(k)
    }

    ghost predicate Ok()
      reads this, table.Values
    {
      Valid() && StateOk(style, View())
    }

    /** _mon_process_ca as seen from here: the audit's final form goes to the
        log. Every call adds an entry, so calling it again would show there. */
    method Process(a: CmdAudit)
      requires a.cooked.Some?
      modifies this`log, a`processed
      ensures a.processed && log == old(log) + multiset{Bundle(a.key, a.id, a.duration, a.subs, a.cooked.value)}
    {
      log := log + multiset{Bundle(a.key, a.id, a.duration, a.subs, a.cooked.value)};
      a.processed := true;
    }

    /** The scan that deletes what is processed. */
    method Sweep()
      modifies this`table
      ensures table == map k | k in old(table) && !old(table)[k].processed :: old(table)[k]
    {
      var todo := table.Keys;
      while todo != {}
        invariant todo <= table.Keys <= old(table).Keys
        invariant forall k | k in table :: table[k] == old(table)[k]
        invariant forall k | k in old(table) :: k in table <==> k in todo || !old(table)[k].processed
      {
        var k :| k in todo;
        todo := todo - {k};
        if table[k].processed {
          table := table - {k};
        }
      }
    }

    /** _mon_clean_up_ca_table. */
    method CleanUp()
      requires Valid() && SelfContained(Purge(View()).table)
      modifies this`table
      ensures Valid() && View() == Purge(old(View()))
      ensures table == map k | k in old(table) && !old(table)[k].processed :: old(table)[k]
    {
      ghost var w := Purge(View()).table;
      Sweep();
      ViewIs(w);
      forall k | k in table ensures Linked(k) {
        assert old(Linked(k)) && k in w;
      }
    }

    /** One scan step of a disbanding group: `sub` is published if it is closed,
        and set free. */
    method ReleaseOne(sub: CmdAudit)
      requires !sub.processed && sub.cooked.None?
      modifies this`log, sub`raw, sub`cooked, sub`processed, sub`leader
      ensures sub.View() == Release(old(sub.View())) && sub.leader == null
      ensures log == old(log) + if old(sub.closed) then multiset{BundleOf(sub.key, old(sub.View()))} else multiset{}
    {
      if sub.closed {
        sub.Cook();
        Process(sub);
      }
      sub.leader := null;
    }

    /** The audits of `g` are the table's own, each under its key. */
    ghost predicate TableHas(g: map<Key, CmdAudit>)
      reads this
    {
      (forall k | k in table :: table[k].key == k) && forall k | k in g :: k in table && table[k] == g[k]
    }

    lemma GroupInTable(ldr: CmdAudit)
      requires Valid() && ldr.key in table && table[ldr.key] == ldr && ldr.group.Some?
      ensures TableHas(ldr.group.value)
    {
      assert Linked(ldr.key);
      forall k | k in table ensures table[k].key == k {
        assert Linked(k);
      }
    }

    static ghost function BundleSet(v: Table, ks: set<Key>): set<Bundle> {
      set k | k in ks && k in v && v[k].closed :: BundleOf(k, v[k])
    }

    /** The bundles published when the closed audits among `ks` are released. */
    static ghost function Bundles(v: Table, ks: set<Key>): multiset<Bundle> {
      multiset(BundleSet(v, ks))
    }

    static lemma OneFewer(all: set<Key>, todo: set<Key>, k: Key)
      requires k in todo && todo <= all
      ensures all - (todo - {k}) == all - todo + {k}
    {
    }

    static lemma BundlesMore(v: Table, ks: set<Key>, k: Key)
      requires k in v && k !in ks
      ensures Bundles(v, ks + {k}) == Bundles(v, ks) + if v[k].closed then multiset{BundleOf(k, v[k])} else multiset{}
    {
      var b := BundleOf(k, v[k]);
      assert forall c | c in BundleSet(v, ks) :: c.key in ks;
      assert BundleSet(v, ks + {k}) == BundleSet(v, ks) + if v[k].closed then {b} else {};
    }

    /** How far a scan has come: members still to do are as in `v`, the others as in `w`. */
    static ghost predicate Scanned(g: map<Key, CmdAudit>, v: Table, w: Table, todo: set<Key>)
      requires g.Keys <= v.Keys && g.Keys <= w.Keys
      reads g.Values
    {
      forall k | k in g :: if k in todo then g[k].View() == v[k] else g[k].View() == w[k] && g[k].leader == null
    }

    method ReleaseStep(g: map<Key, CmdAudit>, ghost v: Table, ghost w: Table, ghost todo: set<Key>, k: Key, sub: CmdAudit)
      requires g.Keys <= v.Keys && g.Keys <= w.Keys && Scanned(g, v, w, todo)
      requires k in g && k in todo && g[k] == sub && sub.key == k && !v[k].processed && !v[k].cooked && w[k] == Release(v[k])
      requires forall j | j in g && j != k :: g[j] != sub
      modifies this`log, sub`raw, sub`cooked, sub`processed, sub`leader
      ensures Scanned(g, v, w, todo - {k})
      ensures log == old(log) + if v[k].closed then multiset{BundleOf(k, v[k])} else multiset{}
    {
      ReleaseOne(sub);
    }

    /** The scan over a disbanding group. */
    method ReleaseMembers(g: map<Key, CmdAudit>, ghost v: Table, ghost w: Table)
      requires forall k | k in g :: g[k].key == k
      requires g.Keys <= v.Keys && g.Keys <= w.Keys && Scanned(g, v, w, g.Keys)
      requires forall k | k in g :: !v[k].processed && !v[k].cooked && w[k] == Release(v[k])
      modifies this`log, g.Values`raw, g.Values`cooked, g.Values`processed, g.Values`leader
      ensures Scanned(g, v, w, {})
      ensures log == old(log) + Bundles(v, g.Keys)
    {
      var todo := g.Keys;
      while todo != {}
        invariant todo <= g.Keys
        invariant Scanned(g, v, w, todo)
        invariant log == old(log) + Bundles(v, g.Keys - todo)
      {
        var k :| k in todo;
        ReleaseStep(g, v, w, todo, k, g[k]);
        BundlesMore(v, g.Keys - todo, k);
        OneFewer(g.Keys, todo, k);
        todo := todo - {k};
      }
      assert g.Keys - todo == g.Keys;
    }

    /** The audit's pointers are what they were, or have been let go. */
    twostate predicate Loosened(k: Key)
      requires k in old(table) && k in table
      reads this, table.Values
    {
      && table[k] == old(table[k])
      && (table[k].leader == null || table[k].leader == old(table[k].leader))
      && (table[k].group.None? || table[k].group == old(table[k].group))
    }

    twostate lemma LoosenedValid()
      requires old(Valid()) && table == old(table)
      requires forall k {:trigger Loosened(k)} | k in table :: Loosened(k)
      ensures Valid()
    {
      forall k | k in table ensures Linked(k) {
        assert old(Linked(k)) && Loosened(k);
      }
    }

    lemma ViewIs(t: Table)
      requires t.Keys == table.Keys && forall k | k in table :: table[k].View() == t[k]
      ensures View() == State(t, log, clock, soas, actions)
    {
      assert View().table == t;
    }

    /** Audits outside a group are not among its members' objects. */
    lemma Outside(g: map<Key, CmdAudit>)
      requires TableHas(g)
      ensures forall k | k in table && k !in g :: table[k] !in g.Values
    {
    }

    method ReleaseLeader(ldr: CmdAudit)
      requires !ldr.processed && ldr.cooked.None?
      modifies this`log, ldr`raw, ldr`cooked, ldr`processed, ldr`leader, ldr`group
      ensures ldr.View() == Release(old(ldr.View())).(group := None) && ldr.leader == null && ldr.group == None
      ensures log == old(log) + if old(ldr.closed) then multiset{BundleOf(ldr.key, old(ldr.View()))} else multiset{}
    {
      ReleaseOne(ldr);
      ldr.group := None;
    }

    /** Every audit of a disbanding group is let go. */
    method ReleaseGroup(ldr: CmdAudit, g: map<Key, CmdAudit>, ghost v: Table, ghost w: Table)
      requires g.Keys <= v.Keys && g.Keys <= w.Keys && Scanned(g, v, w, g.Keys)
      requires forall k | k in g :: g[k].key == k && !v[k].processed && !v[k].cooked && w[k] == Release(v[k])
      requires ldr !in g.Values && ldr.key !in g && ldr.key in v && ldr.View() == v[ldr.key]
      requires !ldr.processed && ldr.cooked.None?
      modifies this`log, g.Values`raw, g.Values`cooked, g.Values`processed, g.Values`leader,
               ldr`raw, ldr`cooked, ldr`processed, ldr`leader, ldr`group
      ensures Scanned(g, v, w, {})
      ensures ldr.View() == Release(v[ldr.key]).(group := None) && ldr.leader == null && ldr.group == None
      ensures log == old(log) + Bundles(v, g.Keys + {ldr.key})
    {
      ReleaseMembers(g, v, w);
      ReleaseLeader(ldr);
      BundlesMore(v, g.Keys, ldr.key);
    }

    /** All the audits after a disband, seen together. */
    twostate lemma GroupReleased(new l: Key, new v: Table, new w: Table)
      requires old(Valid()) && table == old(table) && v.Keys == table.Keys && w.Keys == table.Keys && l in table
      requires forall k | k in table :: w[k] == AfterDisband(v, l, k)
      requires forall k | k in table && k in GroupOf(v[l]) :: table[k].View() == w[k] && table[k].leader == null
      requires table[l].View() == w[l] && table[l].leader == null && table[l].group == None
      requires forall k | k in table && k != l && k !in GroupOf(v[l]) :: table[k].View() == v[k] && table[k].leader == old(table[k].leader)
      requires forall k | k in table && k != l :: table[k].group == old(table[k].group)
      ensures Valid() && forall k | k in table :: table[k].View() == w[k]
    {
      assert forall k {:trigger Loosened(k)} | k in table :: Loosened(k);
      LoosenedValid();
    }

    /** The same, seen from the table. */
    method ReleaseInTable(ldr: CmdAudit, g: map<Key, CmdAudit>, ghost v: Table, ghost w: Table)
      requires ldr.key in table && table[ldr.key] == ldr && ldr.key !in g && TableHas(g)
      requires v.Keys == table.Keys && w.Keys == table.Keys
      requires forall k | k in table :: table[k].View() == v[k] && !v[k].processed && !v[k].cooked
      requires forall k | k in g :: w[k] == Release(v[k])
      modifies this`log, table.Values`raw, table.Values`cooked, table.Values`processed, table.Values`leader, ldr`group
      ensures forall k | k in g :: table[k].View() == w[k] && table[k].leader == null
      ensures ldr.View() == Release(v[ldr.key]).(group := None) && ldr.leader == null && ldr.group == None
      ensures forall k | k in table && k != ldr.key && k !in g :: unchanged(table[k])
      ensures log == old(log) + Bundles(v, g.Keys + {ldr.key})
    {
      Outside(g);
      ReleaseGroup(ldr, g, v, w);
    }

    /** The group is let go; the table is then as `w` says. */
    method LetGo(ldr: CmdAudit, ghost v: Table, ghost w: Table)
      requires Valid() && View().table == v && Clean(v)
      requires ldr.key in table && table[ldr.key] == ldr && ldr.group.Some? && ldr.key !in ldr.group.value
      requires w.Keys == v.Keys && forall k {:trigger w[k]} | k in v :: w[k] == AfterDisband(v, ldr.key, k)
      modifies this`log, table.Values
      ensures Valid() && View() == State(w, old(log) + Bundles(v, GroupOf(v[ldr.key]) + {ldr.key}), clock, soas, actions)
    {
      GroupInTable(ldr);
      ReleaseInTable(ldr, ldr.group.value, v, w);
      GroupReleased(ldr.key, v, w);
      ViewIs(w);
    }

    lemma DisbandIs(st: State, l: Key)
      requires l in st.table
      ensures var d := Disband(st, l);
              && d.table.Keys == st.table.Keys && (forall k {:trigger d.table[k]} | k in st.table :: d.table[k] == AfterDisband(st.table, l, k))
              && d == State(d.table, st.log + Bundles(st.table, GroupOf(st.table[l]) + {l}), st.clock, st.soas, st.actions)
    {
    }

    /** ca_disband. */
    method DisbandGroup(ldr: CmdAudit)
      requires Valid() && Clean(View().table)
      requires ldr.key in table && table[ldr.key] == ldr && ldr.group.Some? && ldr.key !in ldr.group.value
      modifies this`log, table.Values
      ensures Valid() && View() == Disband(old(View()), ldr.key)
    {
      ghost var before := View();
      DisbandIs(before, ldr.key);
      LetGo(ldr, before.table, Disband(before, ldr.key).table);
    }

    /* Publishing. */

    static ghost function SubsOf(v: Table, ks: set<Key>): set<Sub> {
      set k | k in v && k in ks :: Sub(v[k].id, v[k].duration)
    }

    static ghost function RawOf(v: Table, ks: set<Key>): set<nat> {
      set k, p | k in v && k in ks && p in v[k].raw :: p
    }

    /** The leader once it has absorbed the members `ks`. */
    static ghost function Absorbed(v: Table, l: Key, ks: set<Key>): Audit
      requires l in v
    {
      v[l].(subs := v[l].subs + SubsOf(v, ks), raw := v[l].raw + RawOf(v, ks))
    }

    static lemma AbsorbedMore(v: Table, l: Key, ks: set<Key>, k: Key)
      requires l in v && k in v
      ensures var a := Absorbed(v, l, ks);
              Absorbed(v, l, ks + {k}) == a.(subs := a.subs + {Sub(v[k].id, v[k].duration)}, raw := a.raw + v[k].raw)
    {
      assert SubsOf(v, ks + {k}) == SubsOf(v, ks) + {Sub(v[k].id, v[k].duration)};
      assert RawOf(v, ks + {k}) == RawOf(v, ks) + v[k].raw;
      var a := Absorbed(v, l, ks);
      assert v[l].subs + SubsOf(v, ks + {k}) == a.subs + {Sub(v[k].id, v[k].duration)};
      assert v[l].raw + RawOf(v, ks + {k}) == a.raw + v[k].raw;
    }

    /** How far the merging scan has come. */
    static ghost predicate Drained(g: map<Key, CmdAudit>, v: Table, todo: set<Key>)
      requires g.Keys <= v.Keys
      reads g.Values
    {
      forall k | k in g :: g[k].View() == if k in todo then v[k] else v[k].(raw := {}, processed := true)
    }

    static lemma AbsorbedNone(v: Table, l: Key)
      requires l in v
      ensures Absorbed(v, l, {}) == v[l]
    {
      assert SubsOf(v, {}) == {} && RawOf(v, {}) == {};
      assert v[l].subs + SubsOf(v, {}) == v[l].subs && v[l].raw + RawOf(v, {}) == v[l].raw;
    }

    method MergeStep(ldr: CmdAudit, g: map<Key, CmdAudit>, ghost v: Table, ghost todo: set<Key>, k: Key, sub: CmdAudit)
      requires g.Keys <= v.Keys && Drained(g, v, todo) && k in g && k in todo && g[k] == sub && sub != ldr
      requires forall j | j in g && j != k :: g[j] != sub
      requires ldr !in g.Values
      modifies ldr`raw, ldr`subs, sub`raw, sub`processed
      ensures Drained(g, v, todo - {k})
      ensures ldr.View() == old(ldr.View()).(subs := old(ldr.subs) + {Sub(v[k].id, v[k].duration)}, raw := old(ldr.raw) + v[k].raw)
    {
      ldr.Merge(sub);
      sub.processed := true;
    }

    /** The scan over the group of a published leader. */
    method MergeMembers(ldr: CmdAudit, g: map<Key, CmdAudit>, ghost v: Table)
      requires g.Keys <= v.Keys && Drained(g, v, g.Keys) && ldr !in g.Values
      requires forall k | k in g :: g[k].key == k
      requires ldr.key in v && ldr.View() == v[ldr.key]
      modifies ldr`raw, ldr`subs, g.Values`raw, g.Values`processed
      ensures Drained(g, v, {})
      ensures ldr.View() == Absorbed(v, ldr.key, g.Keys)
    {
      var todo := g.Keys;
      AbsorbedNone(v, ldr.key);
      assert g.Keys - todo == {};
      while todo != {}
        invariant todo <= g.Keys && Drained(g, v, todo)
        invariant ldr.View() == Absorbed(v, ldr.key, g.Keys - todo)
      {
        var k :| k in todo;
        AbsorbedMore(v, ldr.key, g.Keys - todo, k);
        OneFewer(g.Keys, todo, k);
        MergeStep(ldr, g, v, todo, k, g[k]);
        todo := todo - {k};
      }
      assert g.Keys - todo == g.Keys;
    }

    static lemma MergedIsAbsorbed(v: Table, l: Key)
      requires l in v && l !in GroupOf(v[l])
      ensures Merged(v, l) == Absorbed(v, l, GroupOf(v[l])).(group := None)
    {
      assert GroupOf(v[l]) - {l} == GroupOf(v[l]);
      assert Merged(v, l).subs == v[l].subs + SubsOf(v, GroupOf(v[l]));
      assert Merged(v, l).raw == v[l].raw + RawOf(v, GroupOf(v[l]));
    }

    /** The last steps of publishing: the group is gone, the actions coalesced. */
    method FinishLeader(ldr: CmdAudit)
      requires !ldr.processed && ldr.cooked.None?
      modifies this`log, ldr`raw, ldr`cooked, ldr`processed, ldr`group
      ensures ldr.View() == old(ldr.View()).(group := None, raw := {}, cooked := true, processed := true)
      ensures ldr.group == None && log == old(log) + multiset{BundleOf(ldr.key, old(ldr.View()))}
    {
      ldr.group := None;
      ldr.Cook();
      Process(ldr);
    }

    method MergeAndFinish(ldr: CmdAudit, g: map<Key, CmdAudit>, ghost v: Table)
      requires g.Keys <= v.Keys && Drained(g, v, g.Keys) && ldr !in g.Values
      requires forall k | k in g :: g[k].key == k
      requires ldr.key in v && ldr.View() == v[ldr.key] && !ldr.processed && ldr.cooked.None?
      requires ldr.key !in g && g == MembersOf(ldr)
      modifies this`log, ldr`raw, ldr`subs, ldr`cooked, ldr`processed, ldr`group, g.Values`raw, g.Values`processed
      ensures Drained(g, v, {}) && ldr.group == None
      ensures ldr.View() == Merged(v, ldr.key).(raw := {}, cooked := true, processed := true)
      ensures log == old(log) + multiset{BundleOf(ldr.key, Merged(v, ldr.key))}
    {
      MergeGroup(ldr, g, v);
      MergedIsAbsorbed(v, ldr.key);
      assert forall k | k in g :: g[k] in g.Values && g[k] != ldr;
      FinishLeader(ldr);
    }

    /** The leader absorbs its group, if it has one. */
    method MergeGroup(ldr: CmdAudit, g: map<Key, CmdAudit>, ghost v: Table)
      requires g.Keys <= v.Keys && Drained(g, v, g.Keys) && ldr !in g.Values
      requires forall k | k in g :: g[k].key == k
      requires ldr.key in v && ldr.View() == v[ldr.key] && g == MembersOf(ldr)
      modifies ldr`raw, ldr`subs, g.Values`raw, g.Values`processed
      ensures Drained(g, v, {})
      ensures ldr.View() == Absorbed(v, ldr.key, GroupOf(v[ldr.key]))
    {
      AbsorbedNone(v, ldr.key);
      assert GroupOf(v[ldr.key]) == g.Keys;
      if ldr.group.Some? {
        MergeMembers(ldr, ldr.group.value, v);
      }
    }

    /** The same, seen from the table. */
    method MergeInTable(ldr: CmdAudit, g: map<Key, CmdAudit>, ghost v: Table)
      requires ldr.key in table && table[ldr.key] == ldr && ldr.key !in g && TableHas(g)
      requires v.Keys == table.Keys && forall k | k in table :: table[k].View() == v[k]
      requires !ldr.processed && ldr.cooked.None? && g == MembersOf(ldr)
      modifies this`log, table.Values`raw, table.Values`subs, table.Values`cooked, table.Values`processed, ldr`group
      ensures forall k | k in g :: table[k].View() == v[k].(raw := {}, processed := true)
      ensures ldr.View() == Merged(v, ldr.key).(raw := {}, cooked := true, processed := true) && ldr.group == None
      ensures forall k | k in table && k != ldr.key && k !in g :: unchanged(table[k])
      ensures log == old(log) + multiset{BundleOf(ldr.key, Merged(v, ldr.key))}
    {
      Outside(g);
      MergeAndFinish(ldr, g, v);
    }

    /** The table Publish leaves, key by key. */
    static ghost predicate PublishedTable(v: Table, w: Table, l: Key, g: set<Key>)
      requires l in v && v.Keys == w.Keys
    {
      && w[l] == Merged(v, l).(raw := {}, cooked := true, processed := true)
      && forall k | k in v && k != l :: w[k] == if k in g then v[k].(raw := {}, processed := true) else v[k]
    }

    /** All the audits after a publication, seen together. */
    twostate lemma GroupPublished(new l: Key, new v: Table, new w: Table, new g: set<Key>)
      requires old(Valid()) && table == old(table) && v.Keys == table.Keys && w.Keys == table.Keys && l in table
      requires PublishedTable(v, w, l, g) && l !in g
      requires forall k | k in table && k in g :: table[k].View() == v[k].(raw := {}, processed := true)
      requires table[l].View() == w[l] && table[l].group == None
      requires forall k | k in table && k != l && k !in g :: table[k].View() == v[k]
      requires forall k | k in table :: table[k].leader == old(table[k].leader)
      requires forall k | k in table && k != l :: table[k].group == old(table[k].group)
      ensures Valid() && forall k | k in table :: table[k].View() == w[k]
    {
      assert forall k {:trigger Loosened(k)} | k in table :: Loosened(k);
      LoosenedValid();
    }

    /** The members a published leader takes along. */
    function MembersOf(a: CmdAudit): (g: map<Key, CmdAudit>)
      reads a
    {
      if a.group.Some? then a.group.value else map[]
    }

    lemma MembersInTable(ldr: CmdAudit)
      requires Valid() && ldr.key in table && table[ldr.key] == ldr
      ensures TableHas(MembersOf(ldr)) && MembersOf(ldr).Keys == GroupOf(ldr.View())
    {
      assert Linked(ldr.key);
      forall k | k in table ensures table[k].key == k {
        assert Linked(k);
      }
    }

    /** The leader takes its group along; the table is then as `w` says. */
    method TakeAlong(ldr: CmdAudit, ghost v: Table, ghost w: Table)
      requires Valid() && View().table == v && ldr.key in table && table[ldr.key] == ldr && !ldr.processed && ldr.cooked.None?
      requires ldr.key !in MembersOf(ldr) && w.Keys == v.Keys && PublishedTable(v, w, ldr.key, MembersOf(ldr).Keys)
      modifies this`log, table.Values`raw, table.Values`subs, table.Values`cooked, table.Values`processed, ldr`group
      ensures Valid() && View() == State(w, old(log) + multiset{BundleOf(ldr.key, Merged(v, ldr.key))}, clock, soas, actions)
    {
      ghost var ks := MembersOf(ldr).Keys;
      MembersInTable(ldr);
      MergeInTable(ldr, MembersOf(ldr), v);
      GroupPublished(ldr.key, v, w, ks);
      ViewIs(w);
    }

    lemma PublishIs(st: State, l: Key)
      requires l in st.table && l !in GroupOf(st.table[l])
      ensures var p := Publish(st, l);
              && p.table.Keys == st.table.Keys && PublishedTable(st.table, p.table, l, GroupOf(st.table[l]))
              && p == State(p.table, st.log + multiset{BundleOf(l, Merged(st.table, l))}, st.clock, st.soas, st.actions)
    {
    }

    /** ca_publish. */
    method PublishGroup(ldr: CmdAudit)
      requires Valid() && ldr.key in table && table[ldr.key] == ldr && !ldr.processed && ldr.cooked.None?
      requires ldr.key !in MembersOf(ldr)
      modifies this`log, table.Values`raw, table.Values`subs, table.Values`cooked, table.Values`processed, ldr`group
      ensures Valid() && View() == Publish(old(View()), ldr.key)
    {
      ghost var before := View();
      MembersInTable(ldr);
      PublishIs(before, ldr.key);
      TakeAlong(ldr, before.table, Publish(before, ldr.key).table);
    }

    /* Records. */

    lemma KeysMatch()
      requires Valid()
      ensures forall k | k in table :: table[k].key == k
    {
      forall k | k in table ensures table[k].key == k {
        assert Linked(k);
      }
    }

    /** The audit under a key, if it is live. */
    function Lookup(k: Key): (a: CmdAudit?)
      reads this
      ensures a != null <==> k in table
    {
      if k in table then table[k] else null
    }

    /** The action just read goes to the raw set of its command. */
    method AddAction(a: CmdAudit)
      requires Valid() && a.key in table && table[a.key] == a
      modifies this`clock, this`actions, a`raw
      ensures Valid() && View() == ActionStep(old(View()), a.key)
    {
      ghost var st := View();
      KeysMatch();
      a.raw := a.raw + {clock};
      actions := actions + {clock};
      clock := clock + 1;
      PointersSame();
      ViewIs(st.table[a.key := a.View()]);
    }

    /** The branch for a file action. */
    method CollectAction(k: Key) returns (reply: Reply)
      requires Valid()
      modifies this`clock, this`actions, table.Values`raw
      ensures Valid() && View() == Step(style, old(View()), Action(k)) && reply == ReplyTo(old(View()), Action(k))
    {
      var a := Lookup(k);
      if a == null {
        reply := Error;
        Count();
      } else {
        KeysMatch();
        AddAction(a);
        reply := Next;
      }
    }

    twostate lemma PointersSame()
      requires old(Valid()) && table == old(table)
      requires forall k | k in table :: table[k].leader == old(table[k].leader) && table[k].group == old(table[k].group)
      ensures Valid()
    {
      forall k | k in table ensures Linked(k) {
        assert old(Linked(k));
      }
    }

    /** The three lookups for the command a new one descends from. */
    method FindPredecessor(h: Header) returns (pred: CmdAudit?)
      requires Valid()
      ensures pred == null <==> Predecessor(View().table, h) == None
      ensures pred != null ==> Predecessor(View().table, h) == Some(pred.key) && pred.key in table && table[pred.key] == pred
    {
      KeysMatch();
      pred := null;
      if h.key.depth > 0 {
        pred := Lookup(Key(h.pccode, h.key.depth - 1, h.key.cmdid));
        if pred == null {
          pred := Lookup(Key(h.pccode, h.key.depth - 1, h.pcmdid));
          if pred == null {
            pred := Lookup(Key(h.pccode, h.key.depth, h.pcmdid));
          }
        }
      }
    }

    /** A new audit goes into the table. */
    method AdmitAudit(h: Header, time: Moment) returns (ca: CmdAudit)
      requires Valid() && h.key !in table
      modifies this`table, this`clock, this`soas
      ensures fresh(ca) && ca.key == h.key && table == old(table)[h.key := ca] && ca.group == None
      ensures Valid() && View() == Admit(old(View()), h, time)
    {
      ghost var st := View();
      ca := new CmdAudit(clock, h, time);
      table := table[h.key := ca];
      soas := soas + {clock};
      clock := clock + 1;
      forall k | k in table ensures Linked(k) {
        assert k != h.key ==> old(Linked(k));
      }
      ViewIs(Admit(st, h, time).table);
    }

    /** Pointers still lead into the table when `ca` has joined the group of `ldr`. */
    twostate lemma JoinedValid(new l: Key, new k: Key)
      requires old(Valid()) && table == old(table) && l in table && k in table && l != k && old(table[l].group).Some?
      requires table[k].leader == table[l] && table[k].group == old(table[k].group)
      requires table[l].leader == old(table[l].leader)
      requires var g := old(table[l].group).value; table[l].group == Some(if k in g then g else g[k := table[k]])
      requires forall j | j in table && j != l && j != k :: table[j].leader == old(table[j].leader) && table[j].group == old(table[j].group)
      ensures Valid()
    {
      assert old(Linked(l)) && old(Linked(k));
      forall j | j in table ensures Linked(j) {
        assert old(Linked(j));
      }
    }

    /** A new audit joins the group of its predecessor. */
    method JoinGroup(ldr: CmdAudit, ca: CmdAudit)
      requires Valid() && ldr != ca && ldr.group.Some?
      requires ldr.key in table && table[ldr.key] == ldr && ca.key in table && table[ca.key] == ca
      modifies ldr`group, ca`leader
      ensures Valid() && View() == old(View()).(table := Aggregate(old(View()).table, ldr.key, ca.key))
    {
      ghost var t := View().table;
      KeysMatch();
      ldr.Aggregate(ca);
      JoinedValid(ldr.key, ca.key);
      JoinedView(ldr.key, ca.key, t);
    }

    lemma JoinedView(l: Key, k: Key, t: Table)
      requires t.Keys == table.Keys && l in t && k in t && l != k
      requires table[l].View() == t[l].(group := Some(GroupOf(t[l]) + {k})) && table[k].View() == t[k].(leader := Some(l))
      requires forall j | j in table && j != l && j != k :: table[j].View() == t[j]
      ensures View() == State(Aggregate(t, l, k), log, clock, soas, actions)
    {
      ViewIs(Aggregate(t, l, k));
    }

    /** A new audit starts a group of its own. */
    method LeadGroup(ca: CmdAudit, strength: bool)
      requires Valid() && ca.group.None? && ca.key in table && table[ca.key] == ca
      modifies ca`group, ca`leader, ca`strong
      ensures Valid() && View() == old(View()).(table := StartGroup(old(View()).table, ca.key, strength))
    {
      ghost var t := View().table;
      KeysMatch();
      ca.StartGroup(strength);
      forall k | k in table ensures Linked(k) {
        assert old(Linked(k));
      }
      ViewIs(StartGroup(t, ca.key, strength));
    }

    lemma EndGroupContained(st: State, k: Key, l: Key, level: Level)
      requires Arriving(st.table, k, Some(l)) && l in st.table && st.table[l].leader == Some(l)
      ensures SelfContained(EndGroup(st, k, l, level).table)
    {
      var d := Disband(st, l);
      DisbandKeeps(st, l, k);
      if level != Break {
        StartThenPurge(d, k, level == Strong);
        StartGroupKeeps(Purge(d).table, k, level == Strong);
      }
      OkIsAnchored(EndGroup(st, k, l, level).table);
      AnchoredIsSelfContained(EndGroup(st, k, l, level).table);
    }

    /** The new audit may start a group of its own. */
    method LeadAfterBreak(ca: CmdAudit, level: Level)
      requires Valid() && ca.group.None? && ca.key in table && table[ca.key] == ca
      modifies ca`group, ca`leader, ca`strong
      ensures Valid() && View() == Regroup(old(View()), ca.key, level)
    {
      if level != Break {
        LeadGroup(ca, level == Strong);
      }
    }

    /** A stronger or breaking match ends the group around the new audit. */
    method BreakGroup(ldr: CmdAudit, ca: CmdAudit, level: Level)
      requires Valid() && Arriving(View().table, ca.key, Some(ldr.key)) && (level == Break || level == Strong || level == Weak)
      requires ldr.key in table && table[ldr.key] == ldr && ldr.leader == ldr && ca.key in table && table[ca.key] == ca
      modifies this`log, this`table, table.Values
      ensures Valid() && View() == EndGroup(old(View()), ca.key, ldr.key, level)
      ensures table.Values <= old(table.Values)
    {
      ghost var st := View();
      assert GroupOk(st.table, ldr.key);
      EndGroupContained(st, ca.key, ldr.key, level);
      assert Disband(st, ldr.key).table[ca.key].group == Option.None;
      DisbandGroup(ldr);
      assert ca.View() == View().table[ca.key];
      LeadAfterBreak(ca, level);
      CleanUp();
    }

    /** Where a new audit goes once its aggregation level is known. The last
        case of the source, a level that cannot occur, changes nothing. */
    method PlaceAudit(ldr: CmdAudit, ca: CmdAudit, level: Level)
      requires Valid() && Arriving(View().table, ca.key, Some(ldr.key))
      requires ldr.key in table && table[ldr.key] == ldr && ldr.leader == ldr && ca.key in table && table[ca.key] == ca
      modifies this`log, this`table, table.Values
      ensures Valid() && View() == JoinOrBreak(old(View()), ca.key, ldr.key, level)
      ensures table.Values <= old(table.Values)
    {
      assert GroupOk(View().table, ldr.key);
      if level != Break && ldr.strong {
        JoinGroup(ldr, ca);
      } else if level == Break || level == Strong || level == Weak {
        BreakGroup(ldr, ca, level);
      } else if level == Neutral {
        JoinGroup(ldr, ca);
      }
    }

    /** The leader of the group a new command finds itself in, if any. */
    method FindLeader(h: Header) returns (ldr: CmdAudit?)
      requires Valid() && GroupsOk(View().table)
      ensures LeaderOf(View().table, Predecessor(View().table, h)) == if ldr == null then Option.None else Some(ldr.key)
      ensures ldr != null ==> ldr.key in table && table[ldr.key] == ldr && ldr.leader == ldr
      ensures ldr != null ==> ldr.strong == View().table[ldr.key].strong
    {
      var pred := FindPredecessor(h);
      ldr := if pred == null then null else pred.leader;
      if ldr != null {
        assert Linked(pred.key) && GroupOk(View().table, pred.key) && Linked(ldr.key);
      }
    }

    /** A new audit after admission: in its predecessor's group `l`, or alone. */
    method GroupNewcomer(ldr: CmdAudit?, ca: CmdAudit, level: Level)
      requires Valid() && ca.key in table && table[ca.key] == ca && ca.group == None
      requires Arriving(View().table, ca.key, if ldr == null then Option.None else Some(ldr.key))
      requires ldr != null ==> ldr.key in table && table[ldr.key] == ldr && ldr.leader == ldr
      modifies this`log, this`table, table.Values
      ensures Valid()
      ensures ldr != null ==> View() == JoinOrBreak(old(View()), ca.key, ldr.key, level)
      ensures ldr == null && (level == Strong || level == Weak) ==>
                View() == old(View()).(table := AuditTable.StartGroup(old(View()).table, ca.key, level == Strong))
      ensures ldr == null && level != Strong && level != Weak ==> View() == old(View())
      ensures table.Values <= old(table.Values)
    {
      if ldr != null {
        PlaceAudit(ldr, ca, level);
      } else if level == Strong || level == Weak {
        LeadGroup(ca, level == Strong);
      }
    }

    /** A new audit is admitted, and the leader of its predecessor's group found. */
    method Arrive(h: Header, time: Moment) returns (ldr: CmdAudit?, ca: CmdAudit)
      requires Valid() && GroupsOk(View().table) && h.key !in table
      modifies this`table, this`clock, this`soas
      ensures Valid() && View() == Admit(old(View()), h, time)
      ensures LeaderOf(old(View()).table, Predecessor(old(View()).table, h)) == if ldr == null then Option.None else Some(ldr.key)
      ensures ca.key == h.key && ca.key in table && table[ca.key] == ca && ca.group == None
      ensures ldr != null ==> ldr.key in table && table[ldr.key] == ldr && ldr.leader == ldr
      ensures ldr != null ==> ldr.key in old(View()).table && ldr.strong == old(View()).table[ldr.key].strong
      ensures fresh(table.Values - old(table.Values))
    {
      ldr := FindLeader(h);
      ca := AdmitAudit(h, time);
    }

    /** The branch for a start record. */
    method StartAudit(h: Header, p: Patterns, time: Moment) returns (reply: Reply)
      requires Valid() && TableOk(View().table) && Orderly(View().table, h)
      modifies this, table.Values
      ensures Valid() && View() == SoaStep(style, old(View()), h, p, time) && reply == Started(IsTop(h.pccode))
      ensures fresh(table.Values - old(table.Values))
    {
      AdmitKeeps(View(), h, time);
      var ldr, ca := Arrive(h, time);
      var level := AggregationLevel(style, ldr != null, ldr != null && ldr.strong, p);
      GroupNewcomer(ldr, ca, level);
      reply := Started(IsTop(h.pccode));
    }

    method MarkClosed(curr: CmdAudit, end: Moment)
      requires Valid() && curr.key in table && table[curr.key] == curr
      modifies curr`duration, curr`closed
      ensures Valid()
      ensures var a := old(curr.View()).(duration := Duration(end, curr.start), closed := true);
              View() == old(View()).(table := old(View()).table[curr.key := a])
    {
      ghost var t := View().table;
      KeysMatch();
      curr.duration := Duration(end, curr.start);
      curr.closed := true;
      PointersSame();
      ViewIs(t[curr.key := curr.View()]);
    }

    /** Closing one image; an image in no group is published at once. */
    method CloseAudit(curr: CmdAudit, end: Moment)
      requires Valid() && Closable(View().table) && Anchored(View().table)
      requires curr.key in table && table[curr.key] == curr
      modifies this`log, this`table, table.Values
      ensures Valid() && View() == CloseOne(old(View()), curr.key, end)
      ensures table.Keys <= old(table).Keys && forall k | k in table :: table[k] == old(table)[k]
    {
      ghost var u := CloseOne(View(), curr.key, end);
      CloseOneAnchored(View(), curr.key, end);
      AnchoredIsSelfContained(u.table);
      MarkClosed(curr, end);
      if curr.leader == null {
        PublishGroup(curr);
        CleanUp();
      }
    }

    /** What is still to be closed, against what there was at the beginning. */
    ghost predicate ChainLeft(st: State, k: Key, end: Moment, curr: CmdAudit?, time: Moment)
      requires k in st.table
      reads this, table.Values
    {
      if curr == null then View() == CloseChain(st, k, end)
      else curr.key in table && table[curr.key] == curr && CloseChain(View(), curr.key, time) == CloseChain(st, k, end)
    }

    /** Whether the top-level command has been or will be met. */
    ghost predicate TopLeft(st: State, k: Key, curr: CmdAudit?, ended: bool)
      requires k in st.table
      reads this, table.Values
    {
      if curr == null then ended == ReachesTop(st.table, k)
      else curr.key in table && (ended || ReachesTop(View().table, curr.key)) == ReachesTop(st.table, k)
    }

    /** One turn of the upstream loop. */
    method CloseNext(curr: CmdAudit, time: Moment, ended: bool, ghost st: State, ghost k: Key, ghost end: Moment)
      returns (next: CmdAudit?, time': Moment, ended': bool)
      requires Valid() && Closable(View().table) && Anchored(View().table) && k in st.table
      requires ChainLeft(st, k, end, curr, time) && TopLeft(st, k, curr, ended)
      modifies this`log, this`table, table.Values
      ensures Valid() && Closable(View().table) && Anchored(View().table)
      ensures ChainLeft(st, k, end, next, time') && TopLeft(st, k, next, ended')
      ensures next != null ==> next.key.depth < curr.key.depth && next.key.cmdid == curr.key.cmdid
      ensures table.Keys <= old(table).Keys && forall j | j in table :: table[j] == old(table)[j]
    {
      ghost var v := View();
      CloseOneEffect(v, curr.key, time);
      CloseOneAnchored(v, curr.key, time);
      KeysMatch();
      next, time', ended' := null, curr.start, ended || IsTop(curr.pccode);
      if curr.key.depth > 0 {
        next := Lookup(Key(curr.pccode, curr.key.depth - 1, curr.key.cmdid));
      }
      CloseAudit(curr, time);
      if next != null {
        TopFrame(v.table, View().table, next.key);
      }
    }

    /** The upstream loop of an end record: closes the image that exited and
        every image the same process ran before it. */
    method CloseUpstream(k: Key, end: Moment) returns (ended: bool)
      requires Valid() && Closable(View().table) && Anchored(View().table) && k in table
      modifies this`log, this`table, table.Values
      ensures Valid() && View() == CloseChain(old(View()), k, end)
      ensures ended == ReachesTop(old(View()).table, k)
      ensures table.Keys <= old(table).Keys && forall j | j in table :: table[j] == old(table)[j]
    {
      ghost var st := View();
      KeysMatch();
      var hnp: CmdAudit? := table[k];
      var time := end;
      ended := false;
      while hnp != null
        invariant Valid() && Closable(View().table) && Anchored(View().table)
        invariant ChainLeft(st, k, end, hnp, time) && TopLeft(st, k, hnp, ended)
        invariant table.Keys <= old(table).Keys && forall j | j in table :: table[j] == old(table)[j]
        decreases if hnp == null then 0 else hnp.key.depth + 1
      {
        hnp, time, ended := CloseNext(hnp, time, ended, st, k, end);
      }
    }

    /** The leader of the ended command's group, once its chain is closed. */
    lemma LeaderStays(st: State, k: Key, time: Moment)
      requires TableOk(st.table) && k in st.table
      ensures var l, u := st.table[k].leader, CloseChain(st, k, time);
              l.Some? ==> l.value in u.table && l.value !in GroupOf(u.table[l.value])
                          && !u.table[l.value].processed && !u.table[l.value].cooked
      ensures Closable(st.table) && Anchored(st.table) && SelfContained(EoaStep(st, k, time).table)
    {
      OkIsClosable(st.table);
      OkIsAnchored(st.table);
      EoaKeepsTable(AggregateAll, st, k, time);
      OkIsAnchored(EoaStep(st, k, time).table);
      AnchoredIsSelfContained(EoaStep(st, k, time).table);
      CloseChainEffect(st, k, time);
      assert GroupOk(st.table, k);
      if st.table[k].leader.Some? {
        var l := st.table[k].leader.value;
        assert GroupOk(st.table, l) && FateOk(st.table, CloseChain(st, k, time).table, k, time, l);
      }
    }

    /** The branch for an end record. */
    method EndAudit(k: Key, time: Moment) returns (reply: Reply)
      requires Valid() && TableOk(View().table) && k in table
      modifies this`log, this`table, table.Values
      ensures Valid() && View() == EoaStep(old(View()), k, time)
      ensures reply == Ended(ReachesTop(old(View()).table, k))
      ensures table.Values <= old(table.Values)
    {
      LeaderStays(View(), k, time);
      assert Linked(k);
      var ldr := table[k].leader;
      var ended := CloseUpstream(k, time);
      if ldr != null && ldr.closed {
        PublishGroup(ldr);
        CleanUp();
      }
      reply := Ended(ended);
    }

    /** mon_record: one line from an auditor. */
    method RecordLine(r: Record) returns (reply: Reply)
      requires Ok() && Acceptable(View(), r)
      modifies this, table.Values
      ensures Ok() && View() == Step(style, old(View()), r) && reply == ReplyTo(old(View()), r)
      ensures fresh(table.Values - old(table.Values))
    {
      StepKeepsState(style, View(), r);
      match r
      case Soa(h, p, time) =>
        reply := StartAudit(h, p, time);
      case Action(k) =>
        reply := CollectAction(k);
      case Eoa(k, time) =>
        if Lookup(k) == null {
          reply := Error;
        } else {
          reply := EndAudit(k, time);
        }
        Count();
      case Message =>
        reply := Next;
        Count();
      case CannotRun =>
        reply := Abort;
        Count();
      case Garbled =>
        reply := Error;
        Count();
    }

    method Count()
      requires Valid()
      modifies this`clock
      ensures Valid() && View() == Tick(old(View()))
    {
      ghost var t := View().table;
      clock := clock + 1;
      PointersSame();
      ViewIs(t);
    }

    /** The reply to record i of a stream, in the state the others left. */
    static ghost predicate RepliedTo(style: Style, rs: seq<Record>, replies: seq<Reply>, i: nat) {
      i < |rs| && i < |replies| && replies[i] == ReplyTo(Run(style, EMPTY, rs[..i]), rs[i])
    }

    static lemma OneMoreReply(style: Style, rs: seq<Record>, replies: seq<Reply>, reply: Reply)
      requires |replies| < |rs| && reply == ReplyTo(Run(style, EMPTY, rs[..|replies|]), rs[|replies|])
      requires forall i {:trigger RepliedTo(style, rs, replies, i)} | 0 <= i < |replies| :: RepliedTo(style, rs, replies, i)
      ensures forall i {:trigger RepliedTo(style, rs, replies + [reply], i)} | 0 <= i < |replies| + 1 ::
                RepliedTo(style, rs, replies + [reply], i)
    {
      forall i: nat | i < |replies| + 1
        ensures RepliedTo(style, rs, replies + [reply], i)
      {
        assert i < |replies| ==> RepliedTo(style, rs, replies, i);
      }
    }

    /** A whole stream, as the monitor loop feeds it line by line. */
    method RecordAll(rs: seq<Record>) returns (replies: seq<Reply>)
      requires Ok() && View() == EMPTY && OrderlyRun(style, rs)
      modifies this, table.Values
      ensures Ok() && View() == Run(style, EMPTY, rs) && |replies| == |rs|
      ensures forall i {:trigger RepliedTo(style, rs, replies, i)} | 0 <= i < |rs| :: RepliedTo(style, rs, replies, i)
    {
      replies := [];
      var n := 0;
      assert rs[..0] == [];
      while n < |rs|
        invariant n <= |rs| && Ok() && View() == Run(style, EMPTY, rs[..n])
        invariant |replies| == n
        invariant forall i {:trigger RepliedTo(style, rs, replies, i)} | 0 <= i < n :: RepliedTo(style, rs, replies, i)
        invariant fresh(table.Values - old(table.Values))
      {
        assert OrderlyAt(style, rs, n);
        var reply := RecordLine(rs[n]);
        OneMoreReply(style, rs, replies, reply);
        RunNext(style, rs, n, n + 1);
        replies := replies + [reply];
        n := n + 1;
      }
      assert rs[..n] == rs;
    }
  }
}
