/** What a path means lexically, component by component, and its canonical form. */
module PathSpec {

  /** Either separator is accepted; only the slash is written. */
  predicate IsSep(c: char) {
    c == '\\' || c == '/'
  }

  /** The components of a path: what stands between separators, empty or not. */
  function Split(s: string): (cs: seq<string>)
    ensures cs != []
  {
    if s == "" then [""]
    else
      var cs := Split(s[1..]);
      if IsSep(s[0]) then [""] + cs else [[s[0]] + cs[0]] + cs[1..]
  }

  /** A component that names nothing of its own. */
  predicate Vanishes(c: string) {
    c == "" || c == "." || c == ".."
  }

  function Pop(stack: seq<string>): seq<string> {
    if stack == [] then [] else stack[..|stack| - 1]
  }

  function Push(stack: seq<string>, c: string): seq<string> {
    if c == ".." then Pop(stack) else if Vanishes(c) then stack else stack + [c]
  }

  /** Walking down the components `cs` from the directory `stack`. */
  function Resolve(stack: seq<string>, cs: seq<string>): seq<string>
    decreases |cs|
  {
    if cs == [] then stack else Resolve(Push(stack, cs[0]), cs[1..])
  }

  /** The names of a stack, each followed by a slash. */
  function Text(stack: seq<string>): string {
    if stack == [] then "" else Text(stack[..|stack| - 1]) + stack[|stack| - 1] + "/"
  }

  predicate Rooted(p: string) {
    p != "" && IsSep(p[0])
  }

  function Root(p: string): string {
    if Rooted(p) then "/" else ""
  }

  /** Where a path leads, as the names from the root or the starting point. */
  function Place(p: string): seq<string> {
    Resolve([], Split(p))
  }

  /** The last component of a path. */
  function Last(p: string): string {
    Split(p)[|Split(p)| - 1]
  }

  function Chop(s: string): string {
    if s == "" then "" else s[..|s| - 1]
  }

  /** The canonical form: the place, with a final slash exactly when the last
      component vanished. */
  function Canon(p: string): string {
    var all := Root(p) + Text(Place(p));
    if Vanishes(Last(p)) then all else Chop(all)
  }

  /** A stack of proper names. */
  predicate Name(c: string) {
    !Vanishes(c) && forall k | 0 <= k < |c| :: !IsSep(c[k])
  }

  predicate Names(stack: seq<string>) {
    forall i {:trigger stack[i]} | 0 <= i < |stack| :: Name(stack[i])
  }
}
