/** The identity code of a file's contents: the digest of a blob header followed
    by the data, after an archive's stamps have been cleared. */
module DataCode {
  import opened Arith
  import opened Bits
  import opened Octets
  import opened Options
  import opened Radix
  import Archive
  import Sha1
  import Sha1Spec

  const CSV_RADIX := 36

  /* The text that is hashed. */

  /** "blob", a blank, the size, and a NUL. */
  function Header(size: nat): seq<Octet> {
    [98, 108, 111, 98, 32] + Archive.Decimal(size) + [0]
  }

  function Blob(data: seq<Octet>): seq<Octet> {
    Header(|data|) + data
  }

  /** What is fed to the digest: the second length passes through an unsigned int. */
  function Hashed(data: seq<Octet>): seq<Octet> {
    Header(|data|) + data[..|data| % Bits.BASE]
  }

  function HexDigit(d: nat): char
    requires d < 16
  {
    if d < 10 then (d + 48) as char else (d + 87) as char
  }

  function HexText(d: seq<Octet>): string {
    if d == [] then "" else [HexDigit(d[0] as nat / 16), HexDigit(d[0] as nat % 16)] + HexText(d[1..])
  }

  /** The header's text. */
  lemma HeaderReads(size: nat)
    ensures var h := Header(size);
            && |h| == |"blob "| + |Archive.Decimal(size)| + 1 && h[|h| - 1] == 0
            && (forall i | 0 <= i < |"blob "| :: h[i] as char == "blob "[i])
            && h[|"blob "|..|h| - 1] == Archive.Decimal(size) && Archive.Number(h[|"blob "|..], 0) == size
  {
    var d, h := Archive.Decimal(size), Header(size);
    assert h[5..|h| - 1] == d && h[5..] == d + [0];
    Archive.NumberOfDecimal(size);
    NumberBeforeNul(d, 0);
  }

  lemma {:induction false} NumberBeforeNul(s: seq<Octet>, n: nat)
    ensures Archive.Number(s + [0], n) == Archive.Number(s, n)
    decreases |s|
  {
    if s == [] {
      assert [] + [0] == [0];
    } else {
      assert (s + [0])[1..] == s[1..] + [0];
      if Archive.IsDigit(s[0]) {
        NumberBeforeNul(s[1..], 10 * n + (s[0] as nat - 48));
      }
    }
  }

  /** Two places for each octet, its higher half first, in digits and small letters. */
  lemma {:induction false} HexReads(d: seq<Octet>, i: nat)
    requires i < |d|
    ensures |HexText(d)| == 2 * |d|
    ensures HexText(d)[2 * i] == "0123456789abcdef"[d[i] as nat / 16] && HexText(d)[2 * i + 1] == "0123456789abcdef"[d[i] as nat % 16]
    decreases |d|
  {
    HexTextIs(d);
    if i > 0 {
      HexReads(d[1..], i - 1);
    }
  }

  /** The text is that of a git blob, if and only if it is shorter than 4 GiB. */
  lemma HashedIsBlob(data: seq<Octet>)
    ensures Hashed(data) == Blob(data) <==> |data| < Bits.BASE
  {
    if |data| < Bits.BASE {
      assert data[..|data|] == data;
    } else {
      assert |Hashed(data)| < |Blob(data)|;
    }
  }

  /** The length field ends where the first zero is. */
  lemma FirstZero(size: nat, rest: seq<Octet>, k: nat)
    requires k < |Header(size) + rest| && (Header(size) + rest)[k] == 0 && forall i | 0 <= i < k :: (Header(size) + rest)[i] != 0
    ensures k == |Header(size)| - 1
  {
    var h := Header(size);
    assert h[|h| - 1] == 0 && forall i | 5 <= i < |h| - 1 :: h[i] == Archive.Decimal(size)[i - 5];
    assert forall i | 0 <= i < |h| :: (h + rest)[i] == h[i];
    assert forall i | 0 <= i < |h| - 1 :: h[i] != 0;
  }

  /** Different contents make different blobs. */
  lemma BlobsTellContents(a: seq<Octet>, b: seq<Octet>)
    requires Blob(a) == Blob(b)
    ensures a == b
  {
    var k := |Header(|a|)| - 1;
    var h := Header(|a|);
    assert forall i | 5 <= i < |h| - 1 :: h[i] == Archive.Decimal(|a|)[i - 5];
    assert forall i | 0 <= i < |h| :: Blob(a)[i] == h[i];
    FirstZero(|b|, b, k);
    assert Blob(a)[k + 1..] == a && Blob(b)[k + 1..] == b;
  }

  lemma {:induction false} DecimalFits(n: nat, k: nat)
    requires k > 0 && n < Pow2(k)
    ensures |Archive.Decimal(n)| <= k
    decreases k
  {
    if n >= 10 {
      DecimalFits(n / 10, k - 1);
    }
  }

  /* The code. */

  /** Which digest the property names: a word that is none, or that starts with
      "crc", means the checksum. */
  datatype Algorithm = Digest | Checksum | Unknown

  function Lower(c: char): char {
    if 'A' <= c <= 'Z' then (c as int + 32) as char else c
  }

  predicate SameWord(a: string, b: string) {
    |a| == |b| && forall i | 0 <= i < |a| :: Lower(a[i]) == Lower(b[i])
  }

  function AlgorithmOf(name: Option<string>): Algorithm {
    if name.None? || name.value == "" then Checksum
    else if SameWord(name.value, "sha1") || SameWord(name.value, "git") then Digest
    else if |name.value| >= 3 && SameWord(name.value[..3], "crc") then Checksum
    else Unknown
  }

  /** The checksum's length, too, passes through an unsigned int. */
  function CodeOf(name: Option<string>, crc: seq<Octet> -> Word, data: seq<Octet>): string {
    match AlgorithmOf(name)
    case Digest => HexText(Sha1Spec.Digest(Hashed(data)))
    case _ => Digits(crc(data[..|data| % Bits.BASE]), CSV_RADIX)
  }

  /** The names of the two algorithms, in letters of either case. */
  lemma AlgorithmNames(w: string)
    ensures AlgorithmOf(None) == Checksum
    ensures AlgorithmOf(Some(w)) == Digest <==>
              (|w| == 4 && w[0] in "sS" && w[1] in "hH" && w[2] in "aA" && w[3] == '1')
              || (|w| == 3 && w[0] in "gG" && w[1] in "iI" && w[2] in "tT")
    ensures AlgorithmOf(Some(w)) == Checksum <==> w == "" || (|w| >= 3 && w[0] in "cC" && w[1] in "rR" && w[2] in "cC")
  {
    SameThree(w, "git");
    if |w| >= 3 {
      SameThree(w[..3], "crc");
    }
    if |w| == 4 {
      SameThree(w[..3], "sha");
      assert SameWord(w, "sha1") <==> SameWord(w[..3], "sha") && w[3] == '1' by {
        forall i | 0 <= i < 3 ensures w[..3][i] == w[i] && "sha"[i] == "sha1"[i] {
        }
        assert Lower(w[3]) == '1' <==> w[3] == '1';
      }
    }
  }

  lemma SameThree(w: string, name: string)
    requires |name| == 3 && forall i | 0 <= i < 3 :: 'a' <= name[i] <= 'z'
    ensures SameWord(w, name) <==> |w| == 3 && forall i | 0 <= i < 3 :: w[i] == name[i] || w[i] as int == name[i] as int - 32
  {
  }

  /** A checksum is read back from its code, whose digits are those of base 36. */
  lemma ChecksumReads(name: Option<string>, crc: seq<Octet> -> Word, data: seq<Octet>)
    requires AlgorithmOf(name) != Digest && |data| < 0x1_0000_0000
    ensures Parse(CodeOf(name, crc, data), 36) == crc(data)
  {
    assert data[..|data|] == data;
    ParseDigits(crc(data), 36);
  }

  lemma {:induction false} WordFits(n: nat, k: nat)
    requires 0 < k && n < Pow2(5 * k)
    ensures |Digits(n, CSV_RADIX)| <= k
    decreases k
  {
    if n >= CSV_RADIX {
      Pow2Adds(5, 5 * (k - 1));
      assert Pow2(5) == 32;
      WordFits(n / CSV_RADIX, k - 1);
    }
  }

  /** A checksum has at most seven digits, and no code is empty: the failure that
      an empty one would signal never happens. */
  lemma CodeFits(name: Option<string>, crc: seq<Octet> -> Word, data: seq<Octet>)
    ensures 0 < |CodeOf(name, crc, data)| <= 40 && '\0' !in CodeOf(name, crc, data)
  {
    Pow32();
    Pow2Adds(3, 32);
    WordFits(crc(data[..|data| % Bits.BASE]), 7);
    HexTextIs(Sha1Spec.Digest(Hashed(data)));
  }

  lemma {:induction false} HexTextIs(d: seq<Octet>)
    ensures |HexText(d)| == 2 * |d| && '\0' !in HexText(d)
  {
    if d != [] {
      HexTextIs(d[1..]);
    }
  }

  /** _code_hash2str: the code, as a string in the buffer, unless the digest's name
      is not known, which ends the program. */
  method HashToString(data: seq<Octet>, name: Option<string>, crc: seq<Octet> -> Word, buf: array<char>) returns (died: bool)
    requires |data| < Pow2(63) && buf.Length > 40
    modifies buf
    ensures died <==> AlgorithmOf(name) == Unknown
    ensures HoldsString(buf[..], CodeOf(name, crc, data))
  {
    CodeFits(name, crc, data);
    DivModSplits(|data|, Bits.BASE);
    buf[0] := '\0';
    if AlgorithmOf(name) == Digest {
      var digest := HashBlob(data);
      FormatDigest(digest, buf);
    } else {
      FormatToRadix(CSV_RADIX, buf, crc(data[..|data| % Bits.BASE]));
    }
    died := AlgorithmOf(name) == Unknown;
  }

  /** The digest of the blob. */
  method HashBlob(data: seq<Octet>) returns (digest: array<Octet>)
    requires |data| < Pow2(63)
    ensures fresh(digest) && digest.Length == 20 && digest[..] == Sha1Spec.Digest(Hashed(data))
  {
    DecimalFits(|data|, 63);
    DivModSplits(|data|, Bits.BASE);
    var sha := new Sha1.Context();
    var err := sha.Input(Header(|data|));
    assert [] + Header(|data|) == Header(|data|);
    err := sha.Input(data[..|data| % Bits.BASE]);
    assert data[..|data| % Bits.BASE] == [] ==> Hashed(data) == Header(|data|);
    digest := new Octet[20];
    err := sha.Result(digest);
  }

  /** Two places and a NUL at a time. */
  method FormatDigest(digest: array<Octet>, buf: array<char>)
    requires digest.Length == 20 && buf.Length > 40
    modifies buf
    ensures HoldsString(buf[..], HexText(digest[..]))
  {
    HexTextIs(digest[..]);
    var i := 0;
    while i < 20
      invariant 0 <= i <= 20 && buf[..2 * i] == HexText(digest[..i]) && (i > 0 ==> buf[2 * i] == '\0')
    {
      HexTextMore(digest[..i], digest[i]);
      assert digest[..i] + [digest[i]] == digest[..i + 1];
      buf[2 * i] := HexDigit(digest[i] as nat / 16);
      buf[2 * i + 1] := HexDigit(digest[i] as nat % 16);
      buf[2 * i + 2] := '\0';
      i := i + 1;
    }
    assert digest[..20] == digest[..];
    assert buf[..][..40] == buf[..40];
  }

  lemma {:induction false} HexTextMore(d: seq<Octet>, b: Octet)
    ensures HexText(d + [b]) == HexText(d) + [HexDigit(b as nat / 16), HexDigit(b as nat % 16)]
    decreases |d|
  {
    if d == [] {
      assert [] + [b] == [b] && [b][1..] == [];
    } else {
      assert (d + [b])[1..] == d[1..] + [b];
      HexTextMore(d[1..], b);
    }
  }

  /* Files. */

  const ARMAG: seq<Octet> := [33, 60, 97, 114, 99, 104, 62, 10]

  /** An archive is told by its first line. */
  lemma ArchiveStarts(data: seq<Octet>)
    ensures IsArchive(data) <==> |data| >= |"!<arch>\n"| && forall i | 0 <= i < |"!<arch>\n"| :: data[i] as char == "!<arch>\n"[i]
  {
    if |data| >= 8 {
      assert forall i | 0 <= i < 8 :: data[..8][i] == data[i];
      assert forall i | 0 <= i < 8 :: ARMAG[i] as char == "!<arch>\n"[i];
      if forall i | 0 <= i < 8 :: data[i] as char == "!<arch>\n"[i] {
        forall i | 0 <= i < 8 ensures data[i] == ARMAG[i] {
          assert data[i] as char == ARMAG[i] as char;
        }
        assert data[..8] == ARMAG;
      }
    }
  }

  predicate IsArchive(data: seq<Octet>) {
    |data| >= Archive.MAGIC && data[..Archive.MAGIC] == ARMAG
  }

  /** What is hashed of a file: an archive with its stamps cleared, or the data. */
  function Cleared(data: seq<Octet>): (r: seq<Octet>)
    requires IsArchive(data) ==> Archive.Walkable(data[Archive.MAGIC..])
    ensures |r| == |data|
  {
    if IsArchive(data) then ARMAG + Archive.Clear(data[Archive.MAGIC..]) else data
  }

  /** code_from_buffer for data that is no zip archive; of an archive that stops
      at an empty member, what was cleared so far is hashed. */
  method CodeFromBuffer(data: array<Octet>, name: Option<string>, crc: seq<Octet> -> Word, buf: array<char>) returns (died: bool)
    requires data.Length < Pow2(63) && buf.Length > 40
    requires IsArchive(data[..]) ==> Archive.Walkable(data[Archive.MAGIC..])
    modifies data, buf
    ensures data[..] == Cleared(old(data[..])) && HoldsString(buf[..], CodeOf(name, crc, Cleared(old(data[..]))))
    ensures died <==> AlgorithmOf(name) == Unknown
  {
    if data.Length != 0 && data.Length >= Archive.MAGIC && data[..Archive.MAGIC] == ARMAG {
      assert data[..][..Archive.MAGIC] == data[..Archive.MAGIC] && data[..][Archive.MAGIC..] == data[Archive.MAGIC..];
      var rc := Archive.ClearArchive(data);
      assert data[..] == data[..Archive.MAGIC] + data[Archive.MAGIC..];
    }
    died := HashToString(data[..], name, crc, buf);
  }

  /** Rebuilding an archive from the same members does not change its code: two
      archives without empty members that differ in dates, owners, groups and
      modes only are the same when cleared. */
  lemma RebuiltArchiveHasSameCode(a: seq<Octet>, b: seq<Octet>)
    requires IsArchive(a) && IsArchive(b) && Archive.Walkable(a[Archive.MAGIC..])
    requires Archive.SameButStamps(a[Archive.MAGIC..], b[Archive.MAGIC..]) && Archive.Unwalked(a[Archive.MAGIC..]) == []
    ensures Archive.Walkable(b[Archive.MAGIC..]) && Cleared(a) == Cleared(b)
  {
    Archive.StampsDoNotMatter(a[Archive.MAGIC..], b[Archive.MAGIC..]);
  }
}
