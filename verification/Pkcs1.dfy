/**
 The check of an RSA signature block: the constant-time comparisons and their use in verify.  The modular
 exponentiation is outside the model; `recovered` is whatever bytes it yields.
 */
module Pkcs1 {
  import opened Options

  type Byte = bv8

  // ---------------------------------------------------------------- constant-time comparison

  /** Folding the complement of the difference onto its lowest bit: 1 if the bytes are equal and 0 if not. */
  method ConstantTimeByteEq(x: Byte, y: Byte) returns (v: Byte)
    ensures v == if x == y then 1 else 0
  {
    var z := !(x ^ y);
    z := z & (z >> 4);
    z := z & (z >> 2);
    z := z & (z >> 1);
    v := z;
  }

  /** Accumulating the differences without leaving the loop early: 1 if the slices are equal and 0 if not. */
  method ConstantTimeCompare(x: seq<Byte>, y: seq<Byte>) returns (v: Byte)
    ensures v == if x == y then 1 else 0
  {
    if |x| != |y| {
      return 0;
    }
    var d: Byte := 0;
    var i := 0;
    while i < |x|
      invariant 0 <= i <= |x| && (d == 0 <==> x[..i] == y[..i])
    {
      OrIsZero(d, x[i], y[i]);
      assert x[..i + 1] == x[..i] + [x[i]] && y[..i + 1] == y[..i] + [y[i]];
      assert x[..i + 1] == y[..i + 1] <==> x[..i] == y[..i] && x[i] == y[i] by {
        PrefixStep(x, y, i);
      }
      d := d | (x[i] ^ y[i]);
      i := i + 1;
    }
    assert x[..i] == x && y[..i] == y;
    v := ConstantTimeByteEq(d, 0);
  }

  lemma OrIsZero(d: Byte, a: Byte, b: Byte)
    ensures (d | (a ^ b)) == 0 <==> d == 0 && a == b
  {
  }

  lemma PrefixStep<T>(x: seq<T>, y: seq<T>, i: nat)
    requires i < |x| == |y|
    ensures x[..i + 1] == y[..i + 1] <==> x[..i] == y[..i] && x[i] == y[i]
  {
  }

  // ---------------------------------------------------------------- padding

  function Repeat(b: Byte, n: nat): seq<Byte> {
    seq(n, _ => b)
  }

  /** The input behind as many zero bytes as it takes; of an input that is too long, its first bytes. */
  function LeftPadded(input: seq<Byte>, size: nat): seq<Byte> {
    if |input| >= size then input[..size] else Repeat(0, size - |input|) + input
  }

  method LeftPad(input: seq<Byte>, size: nat) returns (out: seq<Byte>)
    ensures out == LeftPadded(input, size) && |out| == size
    ensures forall j :: 0 <= j < size - |input| ==> out[j] == 0
    ensures forall j :: 0 <= j < |input| <= size ==> out[size - |input| + j] == input[j]
    ensures |input| > size ==> out == input[..size]
  {
    var n := if |input| > size then size else |input|;
    var buffer := new Byte[size](_ => 0);
    var i := 0;
    while i < n
      invariant 0 <= i <= n
      invariant forall j :: 0 <= j < size - n ==> buffer[j] == 0
      invariant forall j :: 0 <= j < i ==> buffer[size - n + j] == input[j]
    {
      buffer[size - n + i] := input[i];
      i := i + 1;
    }
    out := buffer[..];
    PaddedIs(input, size, out);
  }

  lemma PaddedIs(input: seq<Byte>, size: nat, out: seq<Byte>)
    requires |out| == size
    requires var n := if |input| > size then size else |input|;
             && (forall j :: 0 <= j < size - n ==> out[j] == 0)
             && (forall j :: 0 <= j < n ==> out[size - n + j] == input[j])
    ensures out == LeftPadded(input, size)
  {
    var n := if |input| > size then size else |input|;
    forall j | 0 <= j < size ensures out[j] == LeftPadded(input, size)[j] {
      if j >= size - n {
        assert out[size - n + (j - (size - n))] == input[j - (size - n)];
      }
    }
  }

  // ---------------------------------------------------------------- hashes

  /** Direct is the zero hash: what is signed is the data itself.  Other is a hash without a registered prefix. */
  datatype Hash = Direct | Md5 | Sha1 | Sha224 | Sha256 | Sha384 | Sha512 | Md5Sha1 | Ripemd160 | Other(size: nat)

  function Size(h: Hash): nat
    requires !h.Direct?
  {
    match h
    case Md5 => 16
    case Sha1 => 20
    case Sha224 => 28
    case Sha256 => 32
    case Sha384 => 48
    case Sha512 => 64
    case Md5Sha1 => 36
    case Ripemd160 => 20
    case Other(size) => size
  }

  /** The prefixes of the SHA-2 family differ in three bytes. */
  function Sha2Prefix(total: nat, member: nat, size: nat): seq<nat> {
    [0x30, total, 0x30, 0x0d, 0x06, 0x09, 0x60, 0x86, 0x48, 0x01, 0x65, 0x03, 0x04, 0x02, member,
     0x05, 0x00, 0x04, size]
  }

  const MD5_PREFIX := [
    0x30, 0x20, 0x30, 0x0c, 0x06, 0x08, 0x2a, 0x86, 0x48, 0x86, 0xf7, 0x0d, 0x02, 0x05, 0x05, 0x00, 0x04, 0x10]
  const SHA1_PREFIX := [0x30, 0x21, 0x30, 0x09, 0x06, 0x05, 0x2b, 0x0e, 0x03, 0x02, 0x1a, 0x05, 0x00, 0x04, 0x14]
  const RIPEMD_PREFIX := [0x30, 0x20, 0x30, 0x08, 0x06, 0x06, 0x28, 0xcf, 0x06, 0x03, 0x00, 0x31, 0x04, 0x14]

  /** The DER prefixes that name the hash algorithms, as numbers. */
  function PrefixTable(h: Hash): Option<seq<int>> {
    match h
    case Md5 => Some(MD5_PREFIX)
    case Sha1 => Some(SHA1_PREFIX)
    case Sha224 => Some(Sha2Prefix(0x2d, 0x04, 0x1c))
    case Sha256 => Some(Sha2Prefix(0x31, 0x01, 0x20))
    case Sha384 => Some(Sha2Prefix(0x41, 0x02, 0x30))
    case Sha512 => Some(Sha2Prefix(0x51, 0x03, 0x40))
    case Md5Sha1 => Some([])
    case Ripemd160 => Some(RIPEMD_PREFIX)
    case _ => None
  }

  function Bytes(numbers: seq<int>): seq<Byte> {
    seq(|numbers|, i requires 0 <= i < |numbers| => (numbers[i] % 256) as Byte)
  }

  function Prefix(h: Hash): Option<seq<Byte>> {
    match PrefixTable(h)
    case Some(numbers) => Some(Bytes(numbers))
    case None => None
  }

  datatype VerifyError = NotHashed | UnsupportedHash | Verification

  datatype HashInfo = Info(hashLen: nat, prefix: seq<Byte>) | Bad(error: VerifyError)

  function HashInfoOf(hash: Hash, inLen: nat): HashInfo {
    if hash.Direct? then Info(inLen, [])
    else if inLen != Size(hash) then Bad(NotHashed)
    else match Prefix(hash)
         case Some(prefix) => Info(Size(hash), prefix)
         case None => Bad(UnsupportedHash)
  }

  // ---------------------------------------------------------------- the encoding of the standard

  /** EMSA-PKCS1-v1_5, section 9.2 of RFC 8017: 00 01 FF.. 00 T, with at least eight FF, if k allows for them. */
  function Encoded(t: seq<Byte>, k: nat): Option<seq<Byte>> {
    if k < |t| + 11 then None
    else Some([0x00, 0x01] + Repeat(0xff, k - |t| - 3) + [0x00] + t)
  }

  /** What a byte string has to look like, byte by byte, to be that encoding. */
  lemma EncodedBytes(em: seq<Byte>, t: seq<Byte>, k: nat)
    requires |em| == k && k >= |t| + 11
    ensures Encoded(t, k) == Some(em) <==>
            && em[0] == 0 && em[1] == 1
            && (forall i :: 2 <= i < k - |t| - 1 ==> em[i] == 0xff)
            && em[k - |t| - 1] == 0
            && em[k - |t|..] == t
  {
    var code := Encoded(t, k).value;
    var n := k - |t|;
    assert |code| == k && code[0] == 0 && code[1] == 1 && code[n - 1] == 0 && code[n..] == t;
    assert forall i :: 2 <= i < n - 1 ==> code[i] == 0xff;
    if em[0] == 0 && em[1] == 1 && (forall i :: 2 <= i < n - 1 ==> em[i] == 0xff) && em[n - 1] == 0 && em[n..] == t {
      forall i | 0 <= i < k ensures em[i] == code[i] {
        if i >= n {
          assert em[i] == em[n..][i - n] && code[i] == code[n..][i - n];
        }
      }
      assert em == code;
    }
  }

  /** The encodings of t are just the blocks 00 01 FF.. 00 t with eight FF or more. */
  lemma EncodedForm(em: seq<Byte>, t: seq<Byte>)
    ensures Encoded(t, |em|) == Some(em) <==>
            exists n: nat :: n >= 8 && em == [0x00, 0x01] + Repeat(0xff, n) + [0x00] + t
  {
    if Encoded(t, |em|) == Some(em) {
      var n := |em| - |t| - 3;
      assert n >= 8 && em == [0x00, 0x01] + Repeat(0xff, n) + [0x00] + t;
    }
  }

  // ---------------------------------------------------------------- verify

  /** What is to be found at the end of the block. */
  function Payload(hash: Hash, hashed: seq<Byte>): seq<Byte> {
    match HashInfoOf(hash, |hashed|)
    case Info(_, prefix) => prefix + hashed
    case Bad(_) => hashed
  }

  /**
   verify accepts exactly when the padded block is the standard's encoding of the prefix and the hash; otherwise it
   says why.  `k` is the length of the modulus in bytes.
   */
  method Verify(k: nat, hash: Hash, hashed: seq<Byte>, recovered: seq<Byte>) returns (err: Option<VerifyError>)
    ensures HashInfoOf(hash, |hashed|).Bad? ==> err == Some(HashInfoOf(hash, |hashed|).error)
    ensures HashInfoOf(hash, |hashed|).Info? ==>
              err == if Encoded(Payload(hash, hashed), k) == Some(LeftPadded(recovered, k)) then None
                     else Some(Verification)
    ensures err == Some(NotHashed) <==> !hash.Direct? && |hashed| != Size(hash)
    ensures err == Some(UnsupportedHash) <==> hash.Other? && |hashed| == Size(hash)
    ensures hash.Direct? ==> (err.None? <==> Encoded(hashed, k) == Some(LeftPadded(recovered, k)))
    ensures !hash.Direct? && !hash.Other? && |hashed| == Size(hash) ==>
              && Prefix(hash).Some?
              && (err.None? <==> Encoded(Prefix(hash).value + hashed, k) == Some(LeftPadded(recovered, k)))
  {
    var info := HashInfoOf(hash, |hashed|);
    if info.Bad? {
      return Some(info.error);
    }
    assert [] + hashed == hashed;
    var hashLen, prefix := info.hashLen, info.prefix;
    var tLen := |prefix| + hashLen;
    if k < tLen + 11 {
      return Some(Verification);
    }
    var em := LeftPad(recovered, k);
    var ok := CheckBlock(k, prefix, hashed, em);
    return if ok != 1 then Some(Verification) else None;
  }

  /** The accumulated comparisons on the padded block. */
  method CheckBlock(k: nat, prefix: seq<Byte>, hashed: seq<Byte>, em: seq<Byte>) returns (ok: Byte)
    requires |em| == k && k >= |prefix| + |hashed| + 11
    ensures ok == if Encoded(prefix + hashed, k) == Some(em) then 1 else 0
  {
    var hashLen, tLen := |hashed|, |prefix| + |hashed|;
    ok := ConstantTimeByteEq(em[0], 0);
    var b := ConstantTimeByteEq(em[1], 1);
    ok := ok & b;
    b := ConstantTimeCompare(em[k - hashLen..k], hashed);
    ok := ok & b;
    b := ConstantTimeCompare(em[k - tLen..k - hashLen], prefix);
    ok := ok & b;
    b := ConstantTimeByteEq(em[k - tLen - 1], 0);
    ok := ok & b;
    ghost var ends := em[0] == 0 && em[1] == 1 && em[k - hashLen..k] == hashed && em[k - tLen..k - hashLen] == prefix
                      && em[k - tLen - 1] == 0;
    assert ok == if ends then 1 else 0;
    var i := 2;
    while i < k - tLen - 1
      invariant 2 <= i <= k - tLen - 1
      invariant ok == if ends && (forall j :: 2 <= j < i ==> em[j] == 0xff) then 1 else 0
    {
      b := ConstantTimeByteEq(em[i], 0xff);
      ok := ok & b;
      i := i + 1;
    }
    EncodedBytes(em, prefix + hashed, k);
    TailSplits(em, prefix, hashed);
  }

  lemma TailSplits(em: seq<Byte>, prefix: seq<Byte>, hashed: seq<Byte>)
    requires |em| >= |prefix| + |hashed|
    ensures var k := |em|;
            em[k - |prefix| - |hashed|..] == prefix + hashed <==>
            em[k - |hashed|..k] == hashed && em[k - |prefix| - |hashed|..k - |hashed|] == prefix
  {
  }

  // ---------------------------------------------------------------- the numbers behind the bytes

  /** The number a byte string denotes, most significant byte first. */
  function Number(b: Byte): nat {
    b as nat
  }

  function Value(s: seq<Byte>): nat {
    if s == [] then 0 else Value(s[..|s| - 1]) * 256 + Number(s[|s| - 1])
  }

  lemma {:induction false} ValueOfZeros(n: nat, s: seq<Byte>)
    ensures Value(Repeat(0, n) + s) == Value(s)
    decreases |s|, n
  {
    if s != [] {
      var all := Repeat(0, n) + s;
      assert all[..|all| - 1] == Repeat(0, n) + s[..|s| - 1];
      ValueOfZeros(n, s[..|s| - 1]);
    } else {
      assert Repeat(0, n) + s == Repeat(0, n);
      if n > 0 {
        ValueOfZeros(n - 1, []);
        assert Repeat(0, n)[..n - 1] == Repeat(0, n - 1) + [];
      }
    }
  }

  /** Padding does not change the number. */
  lemma PaddingKeepsValue(input: seq<Byte>, size: nat)
    requires |input| <= size
    ensures |LeftPadded(input, size)| == size && Value(LeftPadded(input, size)) == Value(input)
  {
    if |input| < size {
      ValueOfZeros(size - |input|, input);
    } else {
      assert input[..size] == input;
    }
  }

  /** Two numbers with the same value have the same last byte, and are the same without it. */
  lemma LastByte(v: nat, w: nat, a: Byte, b: Byte)
    requires v * 256 + Number(a) == w * 256 + Number(b)
    ensures v == w && a == b
  {
    SameDigits(v, w, Number(a), Number(b));
  }

  lemma SameDigits(v: nat, w: nat, x: nat, y: nat)
    requires v * 256 + x == w * 256 + y && x < 256 && y < 256
    ensures v == w && x == y
  {
  }

  /** Byte strings of one length that denote the same number are the same. */
  lemma {:induction false} ValueIsInjective(s: seq<Byte>, t: seq<Byte>)
    requires |s| == |t| && Value(s) == Value(t)
    ensures s == t
    decreases |s|
  {
    if s != [] {
      var n := |s| - 1;
      LastByte(Value(s[..n]), Value(t[..n]), s[n], t[n]);
      ValueIsInjective(s[..n], t[..n]);
      assert s == s[..n] + [s[n]] && t == t[..n] + [t[n]];
    }
  }

  /**
   For a recovered number that fits the modulus, as every RSA result does, verify accepts exactly when that number is
   the one the standard's encoding denotes.
   */
  lemma AcceptsTheNumber(t: seq<Byte>, k: nat, recovered: seq<Byte>)
    requires |recovered| <= k
    ensures Encoded(t, k) == Some(LeftPadded(recovered, k)) <==>
            Encoded(t, k).Some? && Value(recovered) == Value(Encoded(t, k).value)
  {
    PaddingKeepsValue(recovered, k);
    if Encoded(t, k).Some? && Value(recovered) == Value(Encoded(t, k).value) {
      ValueIsInjective(Encoded(t, k).value, LeftPadded(recovered, k));
    }
  }

  /** No block is the encoding of two different payloads, whatever their hashes. */
  lemma {:induction false} EncodingIsInjective(t: seq<Byte>, u: seq<Byte>, k: nat)
    requires Encoded(t, k).Some? && Encoded(t, k) == Encoded(u, k)
    ensures t == u
  {
    var em := Encoded(t, k).value;
    EncodedBytes(em, t, k);
    EncodedBytes(em, u, k);
  }
}
