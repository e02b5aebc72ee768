/** The hash prefixes as the DER encodings of their algorithm identifiers. */
module Pkcs1Der {
  import opened Options
  import opened Pkcs1

  // ---------------------------------------------------------------- DER

  /** A number in base 128, every byte but the last with its high bit set. */
  function Base128(n: nat): seq<int> {
    Leading(n / 128) + [n % 128]
  }

  function Leading(n: nat): seq<int> {
    if n == 0 then [] else Leading(n / 128) + [128 + n % 128]
  }

  function Subidentifiers(arcs: seq<nat>): seq<int> {
    if arcs == [] then [] else Base128(arcs[0]) + Subidentifiers(arcs[1..])
  }

  /** An object identifier: tag, length, and the arcs, of which the first two share a subidentifier. */
  function ObjectIdentifier(first: nat, second: nat, arcs: seq<nat>): seq<int> {
    var contents := [40 * first + second] + Subidentifiers(arcs);
    [0x06, |contents|] + contents
  }

  /**
   A DigestInfo up to its digest: the tag and the length of a sequence that goes on with the digest; a sequence of the
   object identifier and the parameters of the algorithm; the tag and the length of an octet string.
   */
  ghost predicate IsDigestInfo(p: seq<int>, oid: seq<int>, parameters: seq<int>, size: nat) {
    && |p| == 4 + |oid| + |parameters| + 2
    && p[0] == 0x30 && p[1] == |p| - 2 + size
    && p[2] == 0x30 && p[3] == |oid| + |parameters|
    && p[4..4 + |oid|] == oid && p[4 + |oid|..|p| - 2] == parameters
    && p[|p| - 2] == 0x04 && p[|p| - 1] == size
  }

  const NULL := [0x05, 0x00]

  /** The registered object identifiers. */
  function OidOf(h: Hash): seq<int>
    requires PrefixTable(h).Some? && !h.Md5Sha1?
  {
    match h
    case Md5 => ObjectIdentifier(1, 2, [840, 113549, 2, 5])
    case Sha1 => ObjectIdentifier(1, 3, [14, 3, 2, 26])
    case Sha224 => ObjectIdentifier(2, 16, [840, 1, 101, 3, 4, 2, 4])
    case Sha256 => ObjectIdentifier(2, 16, [840, 1, 101, 3, 4, 2, 1])
    case Sha384 => ObjectIdentifier(2, 16, [840, 1, 101, 3, 4, 2, 2])
    case Sha512 => ObjectIdentifier(2, 16, [840, 1, 101, 3, 4, 2, 3])
    case Ripemd160 => ObjectIdentifier(1, 0, [10118, 3, 0, 49])
  }

  // ---------------------------------------------------------------- reckoning

  lemma SmallArc(n: nat)
    requires n < 128
    ensures Base128(n) == [n]
  {
    assert Leading(0) == [];
  }

  lemma TwoByteArc(n: nat)
    requires 128 <= n < 16384
    ensures Base128(n) == [128 + n / 128, n % 128]
  {
    var high := n / 128;
    assert Leading(0) == [] && high / 128 == 0 && high % 128 == high;
    assert Leading(high) == [128 + high];
  }

  lemma ThreeByteArc()
    ensures Base128(113549) == [134, 247, 13]
  {
    assert Leading(0) == [];
    assert Leading(6) == [134];
    assert Leading(887) == [134, 247];
  }

  lemma FirstArc(arc: nat, arcs: seq<nat>)
    ensures Subidentifiers([arc] + arcs) == Base128(arc) + Subidentifiers(arcs)
  {
    assert ([arc] + arcs)[1..] == arcs;
  }

  lemma {:induction false} SmallArcs(arcs: seq<nat>)
    requires forall i :: 0 <= i < |arcs| ==> arcs[i] < 128
    ensures Subidentifiers(arcs) == arcs
  {
    if arcs != [] {
      SmallArcs(arcs[1..]);
      SmallArc(arcs[0]);
      assert arcs == [arcs[0]] + arcs[1..];
    }
  }

  lemma Sha2Arcs(last: nat)
    requires last < 128
    ensures ObjectIdentifier(2, 16, [840, 1, 101, 3, 4, 2, last]) ==
            [0x06, 9, 0x60, 0x86, 0x48, 0x01, 0x65, 0x03, 0x04, 0x02, last]
  {
    var rest := [1, 101, 3, 4, 2, last];
    assert [840, 1, 101, 3, 4, 2, last] == [840] + rest;
    Sha2Subidentifiers(rest);
    assert [134, 72] + rest == [134, 72, 1, 101, 3, 4, 2, last];
  }

  lemma Sha2Subidentifiers(rest: seq<nat>)
    requires forall i :: 0 <= i < |rest| ==> rest[i] < 128
    ensures Subidentifiers([840] + rest) == [134, 72] + rest
  {
    FirstArc(840, rest);
    Arc840();
    SmallArcs(rest);
  }

  lemma Arc840()
    ensures Base128(840) == [134, 72]
  {
    TwoByteArc(840);
  }

  lemma Md5Arcs()
    ensures ObjectIdentifier(1, 2, [840, 113549, 2, 5]) ==
            [0x06, 8, 0x2a, 0x86, 0x48, 0x86, 0xf7, 0x0d, 0x02, 0x05]
  {
    var rest := [2, 5];
    assert [840, 113549, 2, 5] == [840] + ([113549] + rest);
    FirstArc(840, [113549] + rest);
    FirstArc(113549, rest);
    Arc840();
    ThreeByteArc();
    SmallArcs(rest);
    assert Subidentifiers([113549] + rest) == [134, 247, 13, 2, 5];
    assert Subidentifiers([840] + ([113549] + rest)) == [134, 72, 134, 247, 13, 2, 5];
  }

  lemma Sha1Arcs()
    ensures ObjectIdentifier(1, 3, [14, 3, 2, 26]) == [0x06, 5, 0x2b, 0x0e, 0x03, 0x02, 0x1a]
  {
    SmallArcs([14, 3, 2, 26]);
  }

  lemma RipemdArcs()
    ensures ObjectIdentifier(1, 0, [10118, 3, 0, 49]) == [0x06, 6, 0x28, 0xcf, 0x06, 0x03, 0x00, 0x31]
  {
    var rest := [3, 0, 49];
    assert [10118, 3, 0, 49] == [10118] + rest;
    FirstArc(10118, rest);
    TwoByteArc(10118);
    SmallArcs(rest);
    assert Subidentifiers([10118] + rest) == [207, 6, 3, 0, 49];
  }

  // ---------------------------------------------------------------- the prefixes

  lemma Sha2IsDigestInfo(total: nat, member: nat, size: nat)
    requires total == 17 + size
    ensures IsDigestInfo(Sha2Prefix(total, member, size),
                         [0x06, 9, 0x60, 0x86, 0x48, 0x01, 0x65, 0x03, 0x04, 0x02, member], NULL, size)
  {
  }

  lemma Sha2PrefixIsDer(h: Hash)
    requires h.Sha224? || h.Sha256? || h.Sha384? || h.Sha512?
    ensures IsDigestInfo(PrefixTable(h).value, OidOf(h), NULL, Size(h))
  {
    var member := match h case Sha224 => 4 case Sha256 => 1 case Sha384 => 2 case _ => 3;
    Sha2Arcs(member);
    Sha2IsDigestInfo(17 + Size(h), member, Size(h));
  }

  lemma Md5IsDigestInfo()
    ensures IsDigestInfo(MD5_PREFIX, [0x06, 8, 0x2a, 0x86, 0x48, 0x86, 0xf7, 0x0d, 0x02, 0x05], NULL, 16)
  {
  }

  lemma Md5PrefixIsDer()
    ensures IsDigestInfo(MD5_PREFIX, OidOf(Md5), NULL, Size(Md5))
  {
    Md5Arcs();
    Md5IsDigestInfo();
  }

  lemma Sha1IsDigestInfo()
    ensures IsDigestInfo(SHA1_PREFIX, [0x06, 5, 0x2b, 0x0e, 0x03, 0x02, 0x1a], NULL, 20)
  {
  }

  lemma Sha1PrefixIsDer()
    ensures IsDigestInfo(SHA1_PREFIX, OidOf(Sha1), NULL, Size(Sha1))
  {
    Sha1Arcs();
    Sha1IsDigestInfo();
  }

  lemma RipemdIsDigestInfo()
    ensures IsDigestInfo(RIPEMD_PREFIX, [0x06, 6, 0x28, 0xcf, 0x06, 0x03, 0x00, 0x31], [], 20)
  {
  }

  lemma RipemdPrefixIsDer()
    ensures IsDigestInfo(RIPEMD_PREFIX, OidOf(Ripemd160), [], Size(Ripemd160))
  {
    RipemdArcs();
    RipemdIsDigestInfo();
  }

  /**
   Each prefix is the DER encoding, up to the digest, of a DigestInfo with the registered object identifier of the hash;
   the parameters are NULL, but for RIPEMD-160, which has none.
   */
  lemma PrefixIsDer(h: Hash)
    requires PrefixTable(h).Some? && !h.Md5Sha1?
    ensures IsDigestInfo(PrefixTable(h).value, OidOf(h), if h.Ripemd160? then [] else NULL, Size(h))
  {
    match h
    case Ripemd160 => RipemdPrefixIsDer();
    case Md5 => Md5PrefixIsDer();
    case Sha1 => Sha1PrefixIsDer();
    case _ => Sha2PrefixIsDer(h);
  }

  // ---------------------------------------------------------------- bytes

  lemma ThereAndBack(n: int)
    requires 0 <= n < 256
    ensures (n % 256) as Byte as int == n
  {
  }

  lemma TableOfBytes(h: Hash, i: nat)
    requires PrefixTable(h).Some? && i < |PrefixTable(h).value|
    ensures 0 <= PrefixTable(h).value[i] < 256
  {
    match h
    case Md5 => assert 0 <= MD5_PREFIX[i] < 256;
    case Sha1 => assert 0 <= SHA1_PREFIX[i] < 256;
    case Ripemd160 => assert 0 <= RIPEMD_PREFIX[i] < 256;
    case Sha224 => Sha2Bytes(0x2d, 0x04, 0x1c, i);
    case Sha256 => Sha2Bytes(0x31, 0x01, 0x20, i);
    case Sha384 => Sha2Bytes(0x41, 0x02, 0x30, i);
    case Sha512 => Sha2Bytes(0x51, 0x03, 0x40, i);
  }

  lemma Sha2Bytes(total: nat, member: nat, size: nat, i: nat)
    requires total < 256 && member < 256 && size < 256 && i < |Sha2Prefix(total, member, size)|
    ensures 0 <= Sha2Prefix(total, member, size)[i] < 256
  {
  }

  /** The bytes that verify compares are these numbers. */
  lemma PrefixIsTable(h: Hash, i: nat)
    requires PrefixTable(h).Some? && i < |PrefixTable(h).value|
    ensures Prefix(h).Some? && |Prefix(h).value| == |PrefixTable(h).value|
    ensures Prefix(h).value[i] as int == PrefixTable(h).value[i]
  {
    TableOfBytes(h, i);
    ThereAndBack(PrefixTable(h).value[i]);
  }

  /** The lengths in a DER prefix: its last byte is the length of the hash and its second what follows it in all. */
  lemma PrefixLengths(h: Hash)
    requires Prefix(h).Some? && !h.Md5Sha1?
    ensures var p := Prefix(h).value;
            |p| >= 2 && p[|p| - 1] as int == Size(h) && p[1] as int == |p| - 2 + Size(h)
  {
    TableLengths(h);
    PrefixIsTable(h, 1);
    PrefixIsTable(h, |PrefixTable(h).value| - 1);
  }

  lemma TableLengths(h: Hash)
    requires PrefixTable(h).Some? && !h.Md5Sha1?
    ensures var p := PrefixTable(h).value; |p| >= 2 && p[|p| - 1] == Size(h) && p[1] == |p| - 2 + Size(h)
  {
    PrefixIsDer(h);
  }
}
