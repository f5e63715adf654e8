/** What whole runs of the digest calls give, and why the padding is safe. */
module Sha1Laws {
  import opened Octets
  import opened Sha1Spec
  import opened Sha1

  function Concat(chunks: seq<seq<Octet>>): seq<Octet> {
    if chunks == [] then [] else Concat(chunks[..|chunks| - 1]) + chunks[|chunks| - 1]
  }

  /** A context after inputs of the given chunks. */
  function Fed(chunks: seq<seq<Octet>>): Phase {
    if chunks == [] then Absorbing([]) else AfterInput(Fed(chunks[..|chunks| - 1]), chunks[|chunks| - 1]).0
  }

  /** However a message is cut, the digest is that of the whole message, unless
      its bits do not fit 64 bits: then there is none. */
  lemma {:induction false} AnySplit(chunks: seq<seq<Octet>>)
    ensures var m := Concat(chunks);
            && Fed(chunks) == (if |m| < LIMIT then Absorbing(m) else Broken(TOO_LONG))
            && AfterResult(Fed(chunks)).1 == if |m| < LIMIT then Digested(Digest(m)) else Failed(TOO_LONG)
    decreases |chunks|
  {
    if chunks != [] {
      AnySplit(chunks[..|chunks| - 1]);
      var sofar, last := Concat(chunks[..|chunks| - 1]), chunks[|chunks| - 1];
      assert last == [] ==> sofar + last == sofar;
    }
  }

  datatype Call = Input(bytes: seq<Octet>) | Result

  function After(p: Phase, calls: seq<Call>): Phase
    decreases |calls|
  {
    if calls == [] then p
    else
      var c := calls[0];
      After(match c case Input(bytes) => AfterInput(p, bytes).0 case Result => AfterResult(p).0, calls[1..])
  }

  predicate Feeds(c: Call) {
    c.Input? && c.bytes != []
  }

  /** After a result, the same result again and again, until something is fed;
      from then on only the state error. */
  lemma {:induction false} LaterResults(p: Phase, m: seq<Octet>, calls: seq<Call>)
    requires p == Done(m) || p == Broken(STATE_ERROR)
    ensures AfterResult(After(p, calls)).1
            == if p == Done(m) && !(exists i :: 0 <= i < |calls| && Feeds(calls[i])) then Digested(Digest(m))
               else Failed(STATE_ERROR)
    decreases |calls|
  {
    if calls != [] {
      LaterResults(if Feeds(calls[0]) then Broken(STATE_ERROR) else p, m, calls[1..]);
      assert forall i | 0 < i < |calls| :: calls[i] == calls[1..][i - 1];
    }
  }

  /** Different messages are padded differently. */
  lemma PadTellsMessages(m: seq<Octet>, n: seq<Octet>)
    requires |m| < LIMIT && |n| < LIMIT && Pad(m) == Pad(n)
    ensures m == n
  {
    var p := Pad(m);
    assert p[|p| - 8..] == BigEndian(8 * |m|, 8) && p[|p| - 8..] == BigEndian(8 * |n|, 8);
    PowerOfFour();
    assert Power(8) == 8 * LIMIT;
    DigitsTellNumbers(8 * |m|, 8 * |n|, 8);
    assert p[..|m|] == m && p[..|n|] == n;
  }
}
