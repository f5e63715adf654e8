/** The monitor's audit table as a value: what each record from an auditor
    does to it. The class in Monitor.dfy updates the same table in place and
    is proved to agree with the functions here. */
module AuditTable {
  import opened Moments
  import opened Options

  /** Identifies a command: hash of its line, exec depth, and process id. */
  datatype Key = Key(ccode: string, depth: nat, cmdid: nat)

  /** What a start-of-audit record tells about a command. */
  datatype Header = Header(key: Key, pccode: string, pcmdid: nat)

  /** Which aggregation patterns the command's program name or line matches. */
  datatype Patterns = Patterns(isBreak: bool, isStrong: bool, isWeak: bool)

  datatype Style = AggregateAll | AggregateNothing | ByPattern

  datatype Level = Neutral | Unaggregated | Weak | Strong | Break

  datatype Record =
    | Soa(header: Header, patterns: Patterns, time: Moment)
    | Eoa(key: Key, time: Moment)
    | Action(key: Key)
    | Message
    | CannotRun
    | Garbled

  datatype Reply = Next | Started(top: bool) | Ended(top: bool) | Error | Abort

  /** A member merged into its leader: its record number and duration. */
  datatype Sub = Sub(id: nat, duration: int)

  /** A live command audit. `id` is the number of the record that created it;
      `raw` holds the numbers of the action records it has collected. */
  datatype Audit = Audit(
    id: nat, pccode: string, pcmdid: nat, start: Moment, duration: int,
    raw: set<nat>, subs: set<Sub>,
    leader: Option<Key>, group: Option<set<Key>>,
    strong: bool, closed: bool, cooked: bool, processed: bool)

  type Table = map<Key, Audit>

  /** One call of the publishing callback: the audit's key and what it holds. */
  datatype Bundle = Bundle(key: Key, id: nat, duration: int, subs: set<Sub>, actions: set<nat>)

  /** `log` holds the calls of the callback, each as often as it was made; `clock`
      counts the records seen; `soas` and `actions` are the numbers of the start and
      action records that were accepted. */
  datatype State = State(table: Table, log: multiset<Bundle>, clock: nat, soas: set<nat>, actions: set<nat>)

  const EMPTY: State := State(map[], multiset{}, 0, {}, {})

  predicate IsTop(pccode: string) {
    pccode == "" || pccode == "-"
  }

  function NewAudit(id: nat, header: Header, time: Moment): Audit {
    Audit(id, header.pccode, header.pcmdid, time, 0, {}, {}, None, None, false, false, false, false)
  }

  /* Looking up the predecessor of a new command. */

  function ExecParent(k: Key, pccode: string): Option<Key> {
    if k.depth > 0 then Some(Key(pccode, k.depth - 1, k.cmdid)) else None
  }

  function Predecessor(t: Table, h: Header): (r: Option<Key>)
    ensures r.Some? ==> r.value in t
  {
    if h.key.depth == 0 then None
    else
      var byExec := Key(h.pccode, h.key.depth - 1, h.key.cmdid);
      var byFork := Key(h.pccode, h.key.depth - 1, h.pcmdid);
      var byPeer := Key(h.pccode, h.key.depth, h.pcmdid);
      if byExec in t then Some(byExec)
      else if byFork in t then Some(byFork)
      else if byPeer in t then Some(byPeer)
      else None
  }

  function AggregationLevel(style: Style, grouped: bool, strongGroup: bool, p: Patterns): Level {
    match style
    case AggregateAll => Strong
    case AggregateNothing => Unaggregated
    case ByPattern =>
      if grouped && p.isBreak then Break
      else if grouped && strongGroup then Strong
      else if p.isStrong then Strong
      else if p.isWeak then Weak
      else Neutral
  }

  /* Groups. */

  function StartGroup(t: Table, k: Key, strong: bool): Table
    requires k in t
  {
    t[k := t[k].(group := Some({}), leader := Some(k), strong := strong)]
  }

  function GroupOf(a: Audit): set<Key> {
    if a.group.Some? then a.group.value else {}
  }

  function Aggregate(t: Table, l: Key, k: Key): Table
    requires l in t && k in t
  {
    var u := t[l := t[l].(group := Some(GroupOf(t[l]) + {k}))];
    u[k := u[k].(leader := Some(l))]
  }

  function BundleOf(k: Key, a: Audit): Bundle {
    Bundle(k, a.id, a.duration, a.subs, a.raw)
  }

  /** What disbanding does to each former member: a closed one is coalesced
      and processed, an open one is set free. */
  function Release(a: Audit): Audit {
    if a.closed then a.(leader := None, raw := {}, cooked := true, processed := true)
    else a.(leader := None)
  }

  /** The audit `k` once the group led by `l` is disbanded. */
  function AfterDisband(t: Table, l: Key, k: Key): Audit
    requires l in t && k in t
  {
    if k == l then Release(t[k]).(group := None)
    else if k in GroupOf(t[l]) then Release(t[k]) else t[k]
  }

  function Disband(st: State, l: Key): State
    requires l in st.table
  {
    var t := st.table;
    st.(table := map k | k in t :: AfterDisband(t, l, k),
        log := st.log + multiset(set k | k in t && (k == l || k in GroupOf(t[l])) && t[k].closed :: BundleOf(k, t[k])))
  }

  /** The leader after it has absorbed every member of its group. */
  function Merged(t: Table, l: Key): Audit
    requires l in t
  {
    var g := GroupOf(t[l]) - {l};
    t[l].(group := None,
          subs := t[l].subs + set k | k in t && k in g :: Sub(t[k].id, t[k].duration),
          raw := t[l].raw + set k, p | k in t && k in g && p in t[k].raw :: p)
  }

  /** The audit `k` once `l` is published together with its group. */
  function AfterPublish(t: Table, l: Key, k: Key): Audit
    requires l in t && k in t
  {
    if k == l then Merged(t, l).(raw := {}, cooked := true, processed := true)
    else if k in GroupOf(t[l]) then t[k].(raw := {}, processed := true) else t[k]
  }

  function Publish(st: State, l: Key): State
    requires l in st.table
  {
    st.(table := map k | k in st.table :: AfterPublish(st.table, l, k),
        log := st.log + multiset{BundleOf(l, Merged(st.table, l))})
  }

  /** _mon_clean_up_ca_table. */
  function Purge(st: State): State {
    st.(table := map k | k in st.table && !st.table[k].processed :: st.table[k])
  }

  /* The three kinds of record that change the table. */

  function Admit(st: State, h: Header, time: Moment): State {
    st.(table := st.table[h.key := NewAudit(st.clock, h, time)],
        clock := st.clock + 1, soas := st.soas + {st.clock})
  }

  /** A match that does not just break the group starts one of its own. */
  function Regroup(d: State, k: Key, level: Level): State
    requires k in d.table
  {
    if level != Break then d.(table := StartGroup(d.table, k, level == Strong)) else d
  }

  /** The group around a new command ends. */
  function EndGroup(st: State, k: Key, l: Key, level: Level): State
    requires k in st.table && l in st.table
  {
    Purge(Regroup(Disband(st, l), k, level))
  }

  /** How a new command whose predecessor is led by `l` joins or ends the group. */
  function JoinOrBreak(st: State, k: Key, l: Key, level: Level): State
    requires k in st.table && l in st.table
  {
    if level != Break && st.table[l].strong then st.(table := Aggregate(st.table, l, k))
    else if level == Break || level == Strong || level == Weak then EndGroup(st, k, l, level)
    else if level == Neutral then st.(table := Aggregate(st.table, l, k))
    else st
  }

  function LeaderOf(t: Table, k: Option<Key>): (r: Option<Key>)
    ensures r.Some? ==> r.value in t
  {
    if k.Some? && k.value in t && t[k.value].leader.Some? && t[k.value].leader.value in t
    then t[k.value].leader else None
  }

  function SoaStep(style: Style, st: State, h: Header, p: Patterns, time: Moment): State {
    var l := LeaderOf(st.table, Predecessor(st.table, h));
    var level := AggregationLevel(style, l.Some?, l.Some? && st.table[l.value].strong, p);
    var a := Admit(st, h, time);
    if l.Some? then JoinOrBreak(a, h.key, l.value, level)
    else if level == Strong || level == Weak then a.(table := StartGroup(a.table, h.key, level == Strong))
    else a
  }

  /** Closes one command whose image ended at `end`. */
  function CloseOne(st: State, k: Key, end: Moment): State
    requires k in st.table
  {
    var a := st.table[k];
    var u := st.(table := st.table[k := a.(duration := Duration(end, a.start), closed := true)]);
    if a.leader.Some? then u else Purge(Publish(u, k))
  }

  /** Closes `k` and every image its process ran before it: the ending time of
      an image that called exec is the starting time of the next one. */
  function CloseChain(st: State, k: Key, end: Moment): State
    requires k in st.table
    decreases k.depth
  {
    var u := CloseOne(st, k, end);
    var up := ExecParent(k, st.table[k].pccode);
    if up.Some? && up.value in st.table && up.value in u.table
    then CloseChain(u, up.value, st.table[k].start) else u
  }

  /** Whether the chain ending in `k` contains the top-level command. */
  predicate ReachesTop(t: Table, k: Key)
    requires k in t
    decreases k.depth
  {
    IsTop(t[k].pccode) ||
    (var up := ExecParent(k, t[k].pccode); up.Some? && up.value in t && ReachesTop(t, up.value))
  }

  function EoaStep(st: State, k: Key, time: Moment): State
    requires k in st.table
  {
    var l := st.table[k].leader;
    var u := CloseChain(st, k, time);
    if l.Some? && l.value in u.table && u.table[l.value].closed then Purge(Publish(u, l.value)) else u
  }

  function ActionStep(st: State, k: Key): State
    requires k in st.table
  {
    st.(table := st.table[k := st.table[k].(raw := st.table[k].raw + {st.clock})],
        clock := st.clock + 1, actions := st.actions + {st.clock})
  }

  /** One more record seen. */
  function Tick(st: State): State {
    st.(clock := st.clock + 1)
  }

  function Step(style: Style, st: State, r: Record): State {
    match r
    case Soa(h, p, time) => SoaStep(style, st, h, p, time)
    case Eoa(k, time) => Tick(if k in st.table then EoaStep(st, k, time) else st)
    case Action(k) => if k in st.table then ActionStep(st, k) else Tick(st)
    case _ => Tick(st)
  }

  function ReplyTo(st: State, r: Record): Reply {
    match r
    case Soa(h, _, _) => Started(IsTop(h.pccode))
    case Eoa(k, _) => if k in st.table then Ended(ReachesTop(st.table, k)) else Error
    case Action(k) => if k in st.table then Next else Error
    case Message => Next
    case CannotRun => Abort
    case Garbled => Error
  }

  /* Whole runs. */

  function Run(style: Style, st: State, rs: seq<Record>): State {
    if rs == [] then st else Step(style, Run(style, st, rs[..|rs| - 1]), rs[|rs| - 1])
  }

  /** What the monitor may rely on when a start record arrives: the ids are
      real process ids, no live audit has the same key ("double delivery"), and
      no live audit was exec-ed from the command that only now announces itself. */
  predicate Orderly(t: Table, h: Header) {
    && h.key.cmdid != 0
    && (h.key.depth > 0 ==> h.pcmdid != 0)
    && h.key !in t
    && forall k | k in t :: ExecParent(k, t[k].pccode) != Some(h.key)
  }

  predicate Acceptable(st: State, r: Record) {
    r.Soa? ==> Orderly(st.table, r.header)
  }

  /** Record `i` of the stream may be handled after the records before it. */
  predicate OrderlyAt(style: Style, rs: seq<Record>, i: nat)
    requires i < |rs|
  {
    Acceptable(Run(style, EMPTY, rs[..i]), rs[i])
  }

  predicate OrderlyRun(style: Style, rs: seq<Record>) {
    forall i {:trigger OrderlyAt(style, rs, i)} | 0 <= i < |rs| :: OrderlyAt(style, rs, i)
  }
}
