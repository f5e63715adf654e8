/** How the audit table finds a command: the comparison of keys, and when it is
    equality. */
module AuditKeys {
  import opened AuditTable
  import opened Strings

  const TWO_32: int := 0x1_0000_0000

  /** Conversion of an unsigned long difference to int. */
  function AsInt(x: int): int {
    var u := x % TWO_32;
    if u < TWO_32 / 2 then u else u - TWO_32
  }

  /** ca_o_hash_cmp: a process id of zero matches any. */
  function HashCmp(a: Key, b: Key): int {
    if a.ccode != b.ccode then (if Less(a.ccode, b.ccode) then -1 else 1)
    else if a.depth != b.depth then AsInt(a.depth - b.depth)
    else if a.cmdid == 0 || b.cmdid == 0 then 0
    else if a.cmdid != b.cmdid then AsInt(a.cmdid - b.cmdid)
    else 0
  }

  /** Ids and depths that differ by less than 2^32, and no id of zero. */
  predicate Plain(a: Key, b: Key) {
    && a.cmdid != 0 && b.cmdid != 0
    && -TWO_32 < a.depth - b.depth < TWO_32 && -TWO_32 < a.cmdid - b.cmdid < TWO_32
  }

  /** For real process ids the comparison is equality, so that the table is a map;
      beyond that it takes keys for equal that differ by a multiple of 2^32, or
      where one process id is zero, and no others. */
  lemma ComparisonIsEquality(a: Key, b: Key)
    ensures Plain(a, b) ==> (HashCmp(a, b) == 0 <==> a == b)
    ensures HashCmp(a, b) == 0
       <==> a.ccode == b.ccode
            && if a.depth != b.depth then (a.depth - b.depth) % TWO_32 == 0
               else a.cmdid == 0 || b.cmdid == 0 || (a.cmdid - b.cmdid) % TWO_32 == 0
  {
    ZeroAsInt(a.depth - b.depth);
    ZeroAsInt(a.cmdid - b.cmdid);
  }

  lemma ZeroAsInt(x: int)
    ensures AsInt(x) == 0 <==> x % TWO_32 == 0
    ensures -TWO_32 < x < TWO_32 ==> (AsInt(x) == 0 <==> x == 0)
  {
  }

  /** With an id of zero the comparison is no equivalence: the assumption that
      ids are not zero is needed. */
  lemma ZeroMatchesAny()
    ensures var any, p, q := Key("cc", 1, 0), Key("cc", 1, 7), Key("cc", 1, 8);
            HashCmp(p, any) == 0 && HashCmp(any, q) == 0 && HashCmp(p, q) != 0
  {
  }
}
