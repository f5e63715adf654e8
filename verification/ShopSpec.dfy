/** Shopping for an earlier build whose prerequisites match: the table of build
    candidates, the roadmap, and what each step leaves of the candidates. */
module ShopSpec {
  import opened Options
  import Radix
  import opened Strings

  /* The candidate table. */

  function Lower(c: char): char {
    if 'A' <= c <= 'Z' then (c as int + 32) as char else c
  }

  function Raise(c: char): char {
    if 'a' <= c <= 'z' then (c as int - 32) as char else c
  }

  /** Indices are compared without regard to case. */
  function Fold(s: string): string {
    seq(|s|, i requires 0 <= i < |s| => Lower(s[i]))
  }

  /** A candidate: its index in the roadmap and the build it stands for. */
  datatype Node = Node(key: string, id: string)

  predicate Before(a: Node, b: Node) {
    Less(Fold(a.key), Fold(b.key))
  }

  /** A dictionary in key order, without two equal keys. */
  predicate Sorted(nodes: seq<Node>) {
    forall i, j {:trigger nodes[i], nodes[j]} | 0 <= i < j < |nodes| :: Before(nodes[i], nodes[j])
  }

  /** A candidate that was evaluated has its first letter in lower case. */
  predicate Seen(n: Node) {
    n.key != "" && 'a' <= n.key[0] <= 'z'
  }

  predicate Unseen(n: Node) {
    n.key != "" && 'A' <= n.key[0] <= 'Z'
  }

  function Mark(n: Node): Node {
    if Unseen(n) then n.(key := [Lower(n.key[0])] + n.key[1..]) else n
  }

  function Unmark(n: Node): Node {
    if Seen(n) then n.(key := [Raise(n.key[0])] + n.key[1..]) else n
  }

  predicate Same(key: string, n: Node) {
    Fold(key) == Fold(n.key)
  }

  predicate Listed(n: Node, ptxes: seq<string>) {
    exists i :: 0 <= i < |ptxes| && Same(ptxes[i], n)
  }

  function Delete(nodes: seq<Node>, ptxes: seq<string>): seq<Node> {
    if nodes == [] then []
    else (if Listed(nodes[0], ptxes) then [] else [nodes[0]]) + Delete(nodes[1..], ptxes)
  }

  function MarkListed(n: Node, ptxes: seq<string>): Node {
    if Listed(n, ptxes) then Mark(n) else n
  }

  function MarkAll(nodes: seq<Node>, ptxes: seq<string>): seq<Node> {
    seq(|nodes|, i requires 0 <= i < |nodes| => MarkListed(nodes[i], ptxes))
  }

  /** The first evaluated candidate, with its index as the roadmap has it. */
  function FirstSeen(nodes: seq<Node>): Option<Node> {
    if nodes == [] then None else if Seen(nodes[0]) then Some(Unmark(nodes[0])) else FirstSeen(nodes[1..])
  }

  /* The roadmap. */

  /** How a path state of the roadmap compares with the file system. */
  datatype Verdict = Match | Mismatch | Tolerated | BadKey

  type Judge = string -> Verdict

  /** A path state, or a range of them such as S1-4z. */
  datatype States = One(key: string) | Range(prefix: string, first: nat, last: nat)

  datatype Line = Line(states: seq<States>, ptxes: seq<string>) | Malformed

  datatype Command = Missing | BadFormat | Command(hasTargets: bool, aggregated: bool, hasKids: bool, lines: seq<Line>)

  datatype Code = NoMatch | NoMatchAgg | MustRun | MustRunAgg | Recycled | Error

  function RangeKeys(prefix: string, first: nat, last: nat): seq<string>
    decreases last - first
  {
    if last < first then [] else [prefix + Radix.Digits(first, 36)] + RangeKeys(prefix, first + 1, last)
  }

  function Keys(s: States): seq<string> {
    match s
    case One(key) => [key]
    case Range(prefix, first, last) => RangeKeys(prefix, first, last)
  }

  predicate AnyMismatch(judge: Judge, keys: seq<string>) {
    exists i :: 0 <= i < |keys| && judge(keys[i]) == Mismatch
  }

  predicate Spoils(judge: Judge, s: States) {
    AnyMismatch(judge, Keys(s))
  }

  /** Some path state of the line does not match and is not ignored. */
  predicate Fails(judge: Judge, line: Line)
    requires line.Line?
  {
    exists i :: 0 <= i < |line.states| && Spoils(judge, line.states[i])
  }

  /** Reading stops at a malformed line. */
  function Readable(lines: seq<Line>): (r: seq<Line>)
    ensures forall i {:trigger r[i]} | 0 <= i < |r| :: r[i].Line?
  {
    if lines == [] || lines[0].Malformed? then [] else [lines[0]] + Readable(lines[1..])
  }

  /* What is left after each step. */

  function JudgeLine(judge: Judge, nodes: seq<Node>, line: Line): seq<Node>
    requires line.Line?
  {
    var marked := MarkAll(nodes, line.ptxes);
    if Fails(judge, line) then Delete(marked, line.ptxes) else marked
  }

  function JudgeLines(judge: Judge, nodes: seq<Node>, lines: seq<Line>): seq<Node>
    decreases |lines|
  {
    if lines == [] || lines[0].Malformed? then nodes
    else JudgeLines(judge, JudgeLine(judge, nodes, lines[0]), lines[1..])
  }

  /** The outcome of one command. */
  datatype Visit = Visit(code: Code, nodes: seq<Node>, winner: Option<Node>)

  predicate Eligible(cmd: Command) {
    cmd.Command? && cmd.hasTargets && !cmd.hasKids
  }

  function Try(judge: Judge, nodes: seq<Node>, cmd: Command): Visit {
    if !cmd.Command? then Visit(Error, nodes, None)
    else if !cmd.hasTargets then Visit(if cmd.aggregated then MustRunAgg else MustRun, nodes, None)
    else if cmd.hasKids then Visit(MustRun, nodes, None)
    else if nodes == [] then Visit(NoMatch, nodes, None)
    else
      var rest := JudgeLines(judge, nodes, cmd.lines);
      var winner := FirstSeen(rest);
      Visit(if winner.Some? then Recycled else if cmd.aggregated then NoMatchAgg else NoMatch, rest, winner)
  }

  datatype Outcome = Won(command: nat, ptx: Node) | Lost(code: Code)

  /** All the roadmap's entries for a command line, until one is recycled. */
  function Shop(judge: Judge, nodes: seq<Node>, cmds: seq<Command>, k: nat, code: Code): Outcome
    requires k <= |cmds|
    decreases |cmds| - k
  {
    if k == |cmds| then Lost(code)
    else
      var v := Try(judge, nodes, cmds[k]);
      if v.winner.Some? then Won(k, v.winner.value) else Shop(judge, v.nodes, cmds, k + 1, v.code)
  }
}
