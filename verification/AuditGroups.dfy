/** What a start record does to groups, told from the patterns the command matches
    and the tables before and after. */
module AuditGroups {
  import opened AuditLaws
  import opened AuditOwners
  import opened AuditTable
  import opened Moments
  import opened Options

  /* The outcomes. */

  /** The newcomer is entered as its header says, and is still running. */
  ghost predicate Enters(t: Table, u: Table, id: nat, h: Header, time: Moment) {
    && h.key !in t && h.key in u
    && var a := u[h.key];
       && a.id == id && a.pccode == h.pccode && a.pcmdid == h.pcmdid && a.start == time
       && a.raw == {} && a.subs == {} && !a.closed && !a.cooked && !a.processed
  }

  /** Nobody but the newcomer `k` comes or goes. */
  ghost predicate SameOthers(t: Table, u: Table, k: Key) {
    forall j {:trigger j in u} | j != k :: (j in u <==> j in t) && (j in t ==> u[j] == t[j])
  }

  ghost predicate StaysAlone(u: Table, k: Key) {
    k in u && u[k].leader == None && u[k].group == None
  }

  ghost predicate LeadsOwn(u: Table, k: Key, strong: bool) {
    k in u && u[k].leader == Some(k) && u[k].group == Some({}) && u[k].strong == strong
  }

  /** The newcomer is led by `l`, which counts it in its group; nothing else changes. */
  ghost predicate Joins(t: Table, u: Table, k: Key, l: Key) {
    && l in t && t[l].group.Some? && k in u && u[k].leader == Some(l) && u[k].group == None
    && forall j {:trigger j in u} | j != k ::
         && (j in u <==> j in t)
         && (j in t ==> u[j] == if j == l then t[l].(group := Some(t[l].group.value + {k})) else t[j])
  }

  /** The group of `l` is no more: its closed members are published, each alone, and
      the running ones are on their own. */
  ghost predicate Ends(st: State, u: State, k: Key, l: Key) {
    && u.log == st.log + multiset(set j | j in st.table && st.table[j].leader == Some(l) && st.table[j].closed :: BundleOf(j, st.table[j]))
    && forall j {:trigger j in u.table} | j != k ::
         && (j in u.table <==> j in st.table && !(st.table[j].leader == Some(l) && st.table[j].closed))
         && (j in u.table ==>
               u.table[j] == if st.table[j].leader == Some(l) then st.table[j].(leader := None, group := None) else st.table[j])
  }

  /** A newcomer whose predecessor is in no group. */
  ghost predicate OutsideGroup(style: Style, st: State, u: State, k: Key, p: Patterns) {
    && SameOthers(st.table, u.table, k) && u.log == st.log
    && match style
       case AggregateAll => LeadsOwn(u.table, k, true)
       case AggregateNothing => StaysAlone(u.table, k)
       case ByPattern =>
         if p.isStrong then LeadsOwn(u.table, k, true)
         else if p.isWeak then LeadsOwn(u.table, k, false)
         else StaysAlone(u.table, k)
  }

  /** A newcomer whose predecessor is led by `l`. */
  ghost predicate InsideGroup(style: Style, st: State, u: State, k: Key, p: Patterns, l: Key)
    requires l in st.table
  {
    match style
    case AggregateNothing => false
    case AggregateAll =>
      if st.table[l].strong then Joins(st.table, u.table, k, l) && u.log == st.log
      else Ends(st, u, k, l) && LeadsOwn(u.table, k, true)
    case ByPattern =>
      if p.isBreak then Ends(st, u, k, l) && StaysAlone(u.table, k)
      else if st.table[l].strong then Joins(st.table, u.table, k, l) && u.log == st.log
      else if p.isStrong || p.isWeak then Ends(st, u, k, l) && LeadsOwn(u.table, k, p.isStrong)
      else Joins(st.table, u.table, k, l) && u.log == st.log
  }

  lemma SameBundles(t: Table, u: Table, k: Key, l: Key)
    requires k !in t && k in u && u == t[k := u[k]] && !u[k].closed
    ensures (set j | j in ClosedMembers(u, l) :: BundleOf(j, u[j]))
         == (set j | j in t && t[j].leader == Some(l) && t[j].closed :: BundleOf(j, t[j]))
  {
    assert forall j :: j in ClosedMembers(u, l) <==> j in t && t[j].leader == Some(l) && t[j].closed;
  }

  lemma EndGroupIs(st: State, a: State, k: Key, l: Key, level: Level)
    requires GroupsOk(st.table) && l in st.table && st.table[l].leader == Some(l) && k !in st.table
    requires a == st.(table := a.table, clock := a.clock, soas := a.soas) && k in a.table && a.table == st.table[k := a.table[k]]
    requires Clean(a.table) && GroupsOk(a.table) && a.table[k].leader == None && a.table[k].group == None && !a.table[k].closed
    ensures var u := EndGroup(a, k, l, level);
            && Ends(st, u, k, l) && k in u.table
            && if level == Break then u.table[k] == a.table[k]
               else u.table[k] == a.table[k].(group := Some({}), leader := Some(k), strong := level == Strong)
  {
    DisbandEffect(a, l);
    DisbandPublishes(a, l);
    if level != Break {
      StartThenPurge(Disband(a, l), k, level == Strong);
    }
    SameBundles(st.table, a.table, k, l);
  }

  lemma JoinIs(st: State, a: State, k: Key, l: Key)
    requires GroupsOk(st.table) && l in st.table && st.table[l].leader == Some(l) && k !in st.table
    requires k in a.table && a.table == st.table[k := a.table[k]] && a.table[k].group == None
    ensures Joins(st.table, Aggregate(a.table, l, k), k, l)
  {
    assert GroupOk(st.table, l);
  }

  /** Every start record of an orderly stream, under every style: what becomes of the
      newcomer, of the group it finds itself in, and of everybody else. */
  lemma StartMeans(style: Style, st: State, h: Header, p: Patterns, time: Moment)
    requires TableOk(st.table) && StyleOk(style, st.table) && Orderly(st.table, h)
    ensures var u, l := SoaStep(style, st, h, p, time), LeaderOf(st.table, Predecessor(st.table, h));
            && Enters(st.table, u.table, st.clock, h, time)
            && if l.Some? then InsideGroup(style, st, u, h.key, p, l.value) else OutsideGroup(style, st, u, h.key, p)
  {
    var l, a, k := LeaderOf(st.table, Predecessor(st.table, h)), Admit(st, h, time), h.key;
    var level := AggregationLevel(style, l.Some?, l.Some? && st.table[l.value].strong, p);
    AdmitKeeps(st, h, time);
    LevelIsPossible(style, st.table, h, p);
    if l.Some? {
      assert GroupOk(st.table, Predecessor(st.table, h).value);
      if level == Break || (!st.table[l.value].strong && level != Neutral) {
        EndGroupIs(st, a, k, l.value, level);
      } else {
        JoinIs(st, a, k, l.value);
      }
    }
  }
}
