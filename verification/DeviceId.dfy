/** Device identifiers: the canonical form of a raw device name, and MAC identifiers made from integers. */
module DeviceId {
  import opened Options
  import R = Residues

  // ---------------------------------------------------------------- characters

  predicate IsHex(c: char) {
    '0' <= c <= '9' || 'a' <= c <= 'f' || 'A' <= c <= 'F'
  }

  predicate IsDelimiter(c: char) {
    c == ':' || c == '-' || c == '.' || c == ','
  }

  /** Lower case, for ASCII. */
  function Lower(c: char): char {
    if 'A' <= c <= 'Z' then c - 'A' + 'a' else c
  }

  function LowerAll(s: string): string {
    seq(|s|, i requires 0 <= i < |s| => Lower(s[i]))
  }

  // ---------------------------------------------------------------- the fixed pattern

  /** The name starts with this word, in any case, and a colon. */
  predicate StartsWith(name: string, word: string) {
    |name| > |word| && LowerAll(name[..|word|]) == word && name[|word|] == ':'
  }

  function PrefixOf(name: string): Option<string> {
    if StartsWith(name, "mac") then Some("mac")
    else if StartsWith(name, "uuid") then Some("uuid")
    else if StartsWith(name, "dns") then Some("dns")
    else if StartsWith(name, "serial") then Some("serial")
    else None
  }

  /** What comes before the first slash. */
  function BeforeSlash(s: string): string {
    if s == [] || s[0] == '/' then [] else [s[0]] + BeforeSlash(s[1..])
  }

  function IdPart(name: string): string {
    match PrefixOf(name)
    case Some(prefix) => if |prefix| < |name| then BeforeSlash(name[|prefix| + 1..]) else []
    case None => []
  }

  /** The hexadecimal digits, in lower case. */
  function HexDigits(s: string): string {
    if s == [] then []
    else HexDigits(s[..|s| - 1]) + (if IsHex(s[|s| - 1]) then [Lower(s[|s| - 1])] else [])
  }

  predicate OnlyHexAndDelimiters(s: string) {
    forall i :: 0 <= i < |s| ==> IsHex(s[i]) || IsDelimiter(s[i])
  }

  const MAC_LENGTH := 12

  /** The canonical identifier of a prefix in lower case and an id; None if the id is invalid. */
  function Canonical(prefix: string, id: string): Option<string> {
    if id == "" then None
    else if prefix != "mac" then Some(prefix + ":" + id)
    else if !OnlyHexAndDelimiters(id) || |HexDigits(id)| != MAC_LENGTH then None
    else Some(prefix + ":" + HexDigits(id))
  }

  /** The canonical identifier of a name; None if the name is invalid. */
  function Parsed(name: string): Option<string> {
    match PrefixOf(name)
    case None => None
    case Some(prefix) => Canonical(prefix, IdPart(name))
  }

  // ---------------------------------------------------------------- the code

  method ParseID(deviceName: string) returns (id: Option<string>)
    ensures id == Parsed(deviceName)
  {
    var prefix := PrefixOf(deviceName);
    if prefix.None? {
      return None;
    }
    var idPart := TakeId(deviceName[|prefix.value| + 1..]);
    if idPart == "" {
      return None;
    }
    if prefix.value == "mac" {
      var invalid;
      idPart, invalid := MapMac(idPart);
      if invalid || |idPart| != MAC_LENGTH {
        return None;
      }
    }
    return Some(prefix.value + ":" + idPart);
  }

  method TakeId(s: string) returns (id: string)
    ensures id == BeforeSlash(s)
  {
    var n := 0;
    while n < |s| && s[n] != '/'
      invariant 0 <= n <= |s| && '/' !in s[..n]
    {
      assert s[..n + 1] == s[..n] + [s[n]];
      n := n + 1;
    }
    BeforeSlashOfNone(s[..n], s[n..]);
    assert s[..n] + s[n..] == s;
    id := s[..n];
  }

  /** Mapping the characters of a MAC: digits to lower case, delimiters dropped, anything else noted and dropped. */
  method MapMac(idPart: string) returns (mapped: string, invalid: bool)
    ensures mapped == HexDigits(idPart) && invalid == !OnlyHexAndDelimiters(idPart)
  {
    mapped, invalid := [], false;
    var i := 0;
    assert idPart[..0] == [];
    while i < |idPart|
      invariant 0 <= i <= |idPart| && mapped == HexDigits(idPart[..i])
      invariant invalid == !OnlyHexAndDelimiters(idPart[..i])
    {
      assert idPart[..i + 1][..i] == idPart[..i];
      var r := idPart[i];
      if IsHex(r) {
        mapped := mapped + [Lower(r)];
      } else if !IsDelimiter(r) {
        invalid := true;
        assert idPart[..i + 1][i] == r;
      }
      assert invalid ==> !OnlyHexAndDelimiters(idPart[..i + 1]) by {
        if invalid && !OnlyHexAndDelimiters(idPart[..i]) {
          var j :| 0 <= j < i && !IsHex(idPart[..i][j]) && !IsDelimiter(idPart[..i][j]);
          assert idPart[..i + 1][j] == idPart[..i][j];
        }
      }
      i := i + 1;
    }
    assert idPart[..i] == idPart;
  }

  // ---------------------------------------------------------------- canonical form

  predicate LowerHex(s: string) {
    forall i :: 0 <= i < |s| ==> IsHex(s[i]) && Lower(s[i]) == s[i]
  }

  lemma {:induction false} HexDigitsAreLower(s: string)
    ensures LowerHex(HexDigits(s)) && |HexDigits(s)| <= |s|
  {
    if s != [] {
      HexDigitsAreLower(s[..|s| - 1]);
    }
  }

  lemma {:induction false} HexDigitsOfLower(s: string)
    requires LowerHex(s)
    ensures HexDigits(s) == s && OnlyHexAndDelimiters(s)
  {
    if s != [] {
      HexDigitsOfLower(s[..|s| - 1]);
      assert s == s[..|s| - 1] + [s[|s| - 1]];
    }
  }

  lemma {:induction false} BeforeSlashHasNone(s: string)
    ensures '/' !in BeforeSlash(s) && BeforeSlash(s) <= s
  {
    if s != [] && s[0] != '/' {
      BeforeSlashHasNone(s[1..]);
      assert s == [s[0]] + s[1..];
    }
  }

  lemma {:induction false} BeforeSlashOfNone(s: string, service: string)
    requires '/' !in s && (service == "" || service[0] == '/')
    ensures BeforeSlash(s + service) == s
  {
    if s == [] {
      assert s + service == service;
    } else {
      assert (s + service)[1..] == s[1..] + service;
      BeforeSlashOfNone(s[1..], service);
    }
  }

  predicate IsPrefix(word: string) {
    word == "mac" || word == "uuid" || word == "dns" || word == "serial"
  }

  lemma FirstLetter(name: string, word: string)
    requires word != "" && StartsWith(name, word)
    ensures name != "" && Lower(name[0]) == word[0]
  {
  }

  /** The four prefixes start with different letters, so at most one matches. */
  lemma OnlyOnePrefix(name: string, prefix: string)
    requires IsPrefix(prefix) && StartsWith(name, prefix)
    ensures PrefixOf(name) == Some(prefix)
  {
    FirstLetter(name, prefix);
    if StartsWith(name, "mac") {
      FirstLetter(name, "mac");
    } else if StartsWith(name, "uuid") {
      FirstLetter(name, "uuid");
    } else if StartsWith(name, "dns") {
      FirstLetter(name, "dns");
    } else if StartsWith(name, "serial") {
      FirstLetter(name, "serial");
    }
  }

  /** A prefix, a colon and an id without slashes is taken apart into just these. */
  lemma TakenApart(prefix: string, id: string, service: string)
    requires IsPrefix(prefix) && '/' !in id && (service == "" || service[0] == '/')
    ensures Parsed(prefix + ":" + id + service) == Canonical(prefix, id)
    ensures PrefixOf(prefix + ":" + id + service) == Some(prefix) && IdPart(prefix + ":" + id + service) == id
  {
    var name := prefix + ":" + id + service;
    assert name[..|prefix|] == prefix && name[|prefix|] == ':';
    assert LowerAll(prefix) == prefix;
    OnlyOnePrefix(name, prefix);
    assert name[|prefix| + 1..] == id + service;
    BeforeSlashOfNone(id, service);
  }

  lemma TakenApartBare(prefix: string, id: string)
    requires IsPrefix(prefix) && '/' !in id
    ensures Parsed(prefix + ":" + id) == Canonical(prefix, id)
  {
    TakenApart(prefix, id, "");
    assert prefix + ":" + id + "" == prefix + ":" + id;
  }

  /** Parsing a canonical identifier yields it again. */
  lemma ParsingIsIdempotent(name: string)
    requires Parsed(name).Some?
    ensures Parsed(Parsed(name).value) == Parsed(name)
  {
    var prefix, id := PrefixOf(name).value, IdPart(name);
    BeforeSlashHasNone(name[|prefix| + 1..]);
    if prefix == "mac" {
      HexDigitsAreLower(id);
      HexDigitsOfLower(HexDigits(id));
      TakenApartBare(prefix, HexDigits(id));
    } else {
      TakenApartBare(prefix, id);
    }
  }

  /** Everything from the first slash on is ignored. */
  lemma ServiceIsIgnored(prefix: string, id: string, service: string)
    requires IsPrefix(prefix) && '/' !in id && service != "" && service[0] == '/'
    ensures Parsed(prefix + ":" + id + service) == Parsed(prefix + ":" + id)
  {
    TakenApart(prefix, id, service);
    TakenApartBare(prefix, id);
  }

  /**
   A MAC name made of digits and delimiters before its slash is parsed by its digits alone: two such names have the same
   identifier, or both none, exactly when their lower-cased digits agree or neither has twelve.
   */
  lemma MacDependsOnDigits(a: string, b: string)
    requires PrefixOf(a) == PrefixOf(b) == Some("mac")
    requires OnlyHexAndDelimiters(IdPart(a)) && OnlyHexAndDelimiters(IdPart(b))
    ensures Parsed(a) == Parsed(b) <==>
            var x, y := HexDigits(IdPart(a)), HexDigits(IdPart(b)); x == y || (|x| != MAC_LENGTH && |y| != MAC_LENGTH)
  {
    var x, y := HexDigits(IdPart(a)), HexDigits(IdPart(b));
    HexDigitsAreLower(IdPart(a));
    HexDigitsAreLower(IdPart(b));
    assert ("mac" + ":" + x)[4..] == x && ("mac" + ":" + y)[4..] == y;
  }

  /** A MAC name is valid exactly when it has only digits and delimiters, and twelve digits; its identifier is these. */
  lemma MacForm(name: string)
    requires PrefixOf(name) == Some("mac")
    ensures Parsed(name).Some? <==> OnlyHexAndDelimiters(IdPart(name)) && |HexDigits(IdPart(name))| == MAC_LENGTH
    ensures Parsed(name).Some? ==>
              var id := Parsed(name).value; |id| == 4 + MAC_LENGTH && id[..4] == "mac:" && LowerHex(id[4..])
  {
    HexDigitsAreLower(IdPart(name));
    if Parsed(name).Some? {
      assert Parsed(name).value[4..] == HexDigits(IdPart(name));
      assert Parsed(name).value[..4] == "mac" + ":";
    }
  }

  // ---------------------------------------------------------------- the form of names

  /** The letter, in lower or in upper case. */
  predicate IsLetter(c: char, letter: char) {
    c == letter || ('a' <= letter <= 'z' && c as int == letter as int - 32)
  }

  predicate Spells(s: string, word: string) {
    |s| == |word| && forall i :: 0 <= i < |s| ==> IsLetter(s[i], word[i])
  }

  lemma SpelledInLowerCase(s: string, prefix: string)
    requires IsPrefix(prefix)
    ensures LowerAll(s) == prefix <==> Spells(s, prefix)
  {
    assert forall i :: 0 <= i < |prefix| ==> 'a' <= prefix[i] <= 'z';
    if LowerAll(s) == prefix {
      forall i | 0 <= i < |s| ensures IsLetter(s[i], prefix[i]) {
        assert LowerAll(s)[i] == prefix[i];
      }
    }
  }

  /** A name is parsed the same whatever the case of its prefix. */
  lemma PrefixInAnyCase(word: string, prefix: string, rest: string)
    requires IsPrefix(prefix) && Spells(word, prefix)
    ensures Parsed(word + ":" + rest) == Parsed(prefix + ":" + rest)
  {
    var a, b := word + ":" + rest, prefix + ":" + rest;
    SpelledInLowerCase(word, prefix);
    SpelledInLowerCase(prefix, prefix);
    assert a[..|prefix|] == word && a[|prefix|] == ':' && b[..|prefix|] == prefix && b[|prefix|] == ':';
    OnlyOnePrefix(a, prefix);
    OnlyOnePrefix(b, prefix);
    assert a[|prefix| + 1..] == rest && b[|prefix| + 1..] == rest;
  }

  /** A name that parses starts with one of the four words, in some case, and a colon. */
  lemma NothingElseParses(name: string)
    requires Parsed(name).Some?
    ensures exists word :: IsPrefix(word) && |word| < |name| && Spells(name[..|word|], word) && name[|word|] == ':'
  {
    var word := PrefixOf(name).value;
    SpelledInLowerCase(name[..|word|], word);
  }

  /** An id that is no MAC is kept as it is. */
  lemma OtherIdsAreKept(prefix: string, id: string)
    requires prefix == "uuid" || prefix == "dns" || prefix == "serial"
    requires id != "" && '/' !in id
    ensures Parsed(prefix + ":" + id) == Some(prefix + ":" + id)
  {
    TakenApartBare(prefix, id);
  }

  /** A name without an id is invalid. */
  lemma EmptyIdIsRefused(prefix: string, service: string)
    requires IsPrefix(prefix) && (service == "" || service[0] == '/')
    ensures Parsed(prefix + ":" + service).None?
  {
    TakenApart(prefix, "", service);
    assert prefix + ":" + "" + service == prefix + ":" + service;
  }

  lemma {:induction false} HexDigitsAppend(a: string, b: string)
    ensures HexDigits(a + b) == HexDigits(a) + HexDigits(b)
  {
    if b == [] {
      assert a + b == a;
    } else {
      HexDigitsAppend(a, b[..|b| - 1]);
      assert (a + b)[..|a + b| - 1] == a + b[..|b| - 1];
    }
  }

  lemma HexDigitsOfOne(c: char)
    ensures HexDigits([c]) == if IsHex(c) then [Lower(c)] else []
  {
    assert [c][..0] == [];
  }

  lemma OnlyHexAppend(a: string, b: string)
    ensures OnlyHexAndDelimiters(a + b) <==> OnlyHexAndDelimiters(a) && OnlyHexAndDelimiters(b)
  {
    if OnlyHexAndDelimiters(a + b) {
      forall i | 0 <= i < |a| ensures IsHex(a[i]) || IsDelimiter(a[i]) {
        assert (a + b)[i] == a[i];
      }
      forall i | 0 <= i < |b| ensures IsHex(b[i]) || IsDelimiter(b[i]) {
        assert (a + b)[|a| + i] == b[i];
      }
    }
  }

  /** Colons, hyphens, points and commas anywhere in a MAC make no difference. */
  lemma DelimitersAreDropped(a: string, c: char, b: string)
    requires c == ':' || c == '-' || c == '.' || c == ','
    requires '/' !in a && '/' !in b && a + b != ""
    ensures Parsed("mac" + ":" + (a + [c] + b)) == Parsed("mac" + ":" + (a + b))
  {
    DigitsWithout(a, c, b);
    FormWithout(a, c, b);
    SameMac(a + [c] + b, a + b);
  }

  lemma DigitsWithout(a: string, c: char, b: string)
    requires IsDelimiter(c)
    ensures HexDigits(a + [c] + b) == HexDigits(a + b)
  {
    HexDigitsAppend(a + [c], b);
    HexDigitsAppend(a, [c]);
    HexDigitsAppend(a, b);
    HexDigitsOfOne(c);
    assert HexDigits(a) + [] == HexDigits(a);
  }

  lemma FormWithout(a: string, c: char, b: string)
    requires IsDelimiter(c)
    ensures OnlyHexAndDelimiters(a + [c] + b) <==> OnlyHexAndDelimiters(a + b)
  {
    OnlyHexAppend(a + [c], b);
    OnlyHexAppend(a, [c]);
    OnlyHexAppend(a, b);
  }

  lemma SameMac(x: string, y: string)
    requires x != "" && y != "" && '/' !in x && '/' !in y && HexDigits(x) == HexDigits(y)
    requires OnlyHexAndDelimiters(x) <==> OnlyHexAndDelimiters(y)
    ensures Parsed("mac" + ":" + x) == Parsed("mac" + ":" + y)
  {
    TakenApartBare("mac", x);
    TakenApartBare("mac", y);
  }

  /** Anything else that is no digit makes it invalid. */
  lemma OthersAreRefused(a: string, c: char, b: string)
    requires !('0' <= c <= '9') && !('a' <= c <= 'f') && !('A' <= c <= 'F')
    requires c != ':' && c != '-' && c != '.' && c != ',' && c != '/'
    requires '/' !in a && '/' !in b
    ensures Parsed("mac" + ":" + (a + [c] + b)).None?
  {
    TakenApartBare("mac", a + [c] + b);
    OnlyHexAppend(a + [c], b);
    OnlyHexAppend(a, [c]);
    assert [c][0] == c;
  }

  /** Twelve digits, in either case, are the MAC, in lower case. */
  lemma DigitsAreLowered(digits: string)
    requires |digits| == 12
    requires forall i :: 0 <= i < 12 ==>
               '0' <= digits[i] <= '9' || 'a' <= digits[i] <= 'f' || 'A' <= digits[i] <= 'F'
    ensures Parsed("mac" + ":" + digits).Some?
    ensures var id := Parsed("mac" + ":" + digits).value;
            && |id| == 16 && id[..4] == "mac:"
            && (forall i :: 0 <= i < 12 ==>
                  id[4 + i] == if digits[i] <= 'F' && 'A' <= digits[i] then digits[i] - 'A' + 'a' else digits[i])
  {
    AllDigits(digits);
    TakenApartBare("mac", digits);
    assert ("mac" + ":" + LowerAll(digits))[4..] == LowerAll(digits);
    assert "mac" + ":" == "mac:";
  }

  lemma {:induction false} AllDigits(s: string)
    requires forall i :: 0 <= i < |s| ==> IsHex(s[i])
    ensures HexDigits(s) == LowerAll(s) && OnlyHexAndDelimiters(s) && '/' !in s
  {
    if s != [] {
      AllDigits(s[..|s| - 1]);
      assert LowerAll(s) == LowerAll(s[..|s| - 1]) + [Lower(s[|s| - 1])];
    }
  }

  // ---------------------------------------------------------------- identifiers from integers

  const TWO_TO_48 := 0x1_0000_0000_0000

  /** The low n hexadecimal digits of a number; what %0nx prints of a number that has no more. */
  function Hex(value: nat, n: nat): string {
    if n == 0 then [] else Hex(value / 16, n - 1) + ["0123456789abcdef"[value % 16]]
  }

  /** Masking with 0x0000FFFFFFFFFFFF leaves the remainder modulo 2^48. */
  function IntToMAC(value: nat): string {
    "mac" + ":" + Hex(value % TWO_TO_48, MAC_LENGTH)
  }

  lemma {:induction false} HexIsLower(value: nat, n: nat)
    ensures |Hex(value, n)| == n && LowerHex(Hex(value, n))
  {
    if n > 0 {
      HexIsLower(value / 16, n - 1);
    }
  }

  /** The identifier of an integer is canonical. */
  lemma IntegersParse(value: nat)
    ensures Parsed(IntToMAC(value)) == Some(IntToMAC(value))
  {
    var digits := Hex(value % TWO_TO_48, MAC_LENGTH);
    HexIsLower(value % TWO_TO_48, MAC_LENGTH);
    HexDigitsOfLower(digits);
    TakenApartBare("mac", digits);
  }

  function Power16(n: nat): nat {
    if n == 0 then 1 else 16 * Power16(n - 1)
  }

  lemma DigitIsInjective(a: nat, b: nat)
    requires a < 16 && b < 16 && "0123456789abcdef"[a] == "0123456789abcdef"[b]
    ensures a == b
  {
  }

  lemma {:induction false} HexIsInjective(a: nat, b: nat, n: nat)
    requires a < Power16(n) && b < Power16(n) && Hex(a, n) == Hex(b, n)
    ensures a == b
  {
    if n > 0 {
      var x, y := Hex(a / 16, n - 1), Hex(b / 16, n - 1);
      HexIsLower(a / 16, n - 1);
      HexIsLower(b / 16, n - 1);
      assert Hex(a, n)[..n - 1] == x && Hex(b, n)[..n - 1] == y;
      assert Hex(a, n)[n - 1] == Hex(b, n)[n - 1];
      DigitIsInjective(a % 16, b % 16);
      HexIsInjective(a / 16, b / 16, n - 1);
    }
  }

  /** Two integers have the same identifier exactly when they are equal modulo 2^48. */
  lemma SameIdentifier(v: nat, w: nat)
    ensures IntToMAC(v) == IntToMAC(w) <==> v % TWO_TO_48 == w % TWO_TO_48
  {
    if IntToMAC(v) == IntToMAC(w) {
      assert Hex(v % TWO_TO_48, MAC_LENGTH) == IntToMAC(v)[4..];
      assert Hex(w % TWO_TO_48, MAC_LENGTH) == IntToMAC(w)[4..];
      TwelveDigits();
      HexIsInjective(v % TWO_TO_48, w % TWO_TO_48, MAC_LENGTH);
    }
  }

  lemma TwelveDigits()
    ensures Power16(MAC_LENGTH) == TWO_TO_48
  {
  }

  /** The number some digits denote. */
  function FromHex(s: string): nat
    requires LowerHex(s)
  {
    if s == [] then 0
    else FromHex(s[..|s| - 1]) * 16 + DigitValue(s[|s| - 1])
  }

  function DigitValue(c: char): nat
    requires IsHex(c) && Lower(c) == c
  {
    if '0' <= c <= '9' then (c - '0') as nat else (c - 'a') as nat + 10
  }

  lemma {:induction false} HexOfFromHex(s: string)
    requires LowerHex(s)
    ensures Hex(FromHex(s), |s|) == s
  {
    if s != [] {
      var front, last := s[..|s| - 1], s[|s| - 1];
      assert s == front + [last];
      FromHexOneMore(front, last);
      HexOfFromHex(front);
      HexOneMore(front, last, FromHex(front), FromHex(s));
    }
  }

  lemma DivideTwice(v: nat, p: nat)
    requires p > 0
    ensures 16 * p > 0 && v / 16 / p == v / (16 * p)
  {
    var q, r := v / 16 / p, v / 16 % p;
    R.Split(v, 16);
    R.Split(v / 16, p);
    assert v == q * (16 * p) + (16 * r + v % 16) by {
      assert v / 16 == q * p + r;
      Regroup(q, p);
    }
    var rest := 16 * r + v % 16;
    assert 0 <= rest < 16 * p;
    R.Split(v, 16 * p);
    R.Unique(q, rest, v / (16 * p), v % (16 * p), 16 * p);
  }

  lemma Regroup(q: nat, p: nat)
    ensures (q * p) * 16 == q * (16 * p)
  {
  }

  /** Digit i, counted from the left, of the n low digits is the one that stands for 16 to the n - 1 - i. */
  lemma {:induction false} HexAt(value: nat, n: nat, i: nat)
    requires i < n
    ensures |Hex(value, n)| == n && Power16(n - 1 - i) > 0
    ensures Hex(value, n)[i] == "0123456789abcdef"[(value / Power16(n - 1 - i)) % 16]
  {
    HexIsLower(value, n);
    PowerIsPositive(n - 1 - i);
    if i < n - 1 {
      HexAt(value / 16, n - 1, i);
      HexIsLower(value / 16, n - 1);
      DivideTwice(value, Power16(n - 2 - i));
    }
  }

  lemma {:induction false} PowerIsPositive(n: nat)
    ensures Power16(n) > 0
  {
    if n > 0 {
      PowerIsPositive(n - 1);
    }
  }

  lemma {:induction false} FromHexBound(s: string)
    requires LowerHex(s)
    ensures FromHex(s) < Power16(|s|)
  {
    if s != [] {
      FromHexBound(s[..|s| - 1]);
      DigitOfValue(s[|s| - 1]);
    }
  }

  lemma FromHexOneMore(front: string, last: char)
    requires LowerHex(front + [last])
    ensures LowerHex(front) && IsHex(last) && Lower(last) == last
    ensures FromHex(front + [last]) == FromHex(front) * 16 + DigitValue(last)
  {
    var s := front + [last];
    assert s[..|front|] == front && s[|front|] == last;
    forall i | 0 <= i < |front| ensures IsHex(front[i]) && Lower(front[i]) == front[i] {
      assert s[i] == front[i];
    }
  }

  lemma HexOneMore(front: string, last: char, value: nat, whole: nat)
    requires IsHex(last) && Lower(last) == last && Hex(value, |front|) == front
    requires whole == value * 16 + DigitValue(last)
    ensures Hex(whole, |front + [last]|) == front + [last]
  {
    DigitOfValue(last);
    assert whole / 16 == value && whole % 16 == DigitValue(last);
  }

  lemma DigitOfValue(c: char)
    requires IsHex(c) && Lower(c) == c
    ensures DigitValue(c) < 16 && "0123456789abcdef"[DigitValue(c)] == c
  {
  }

  /** Every valid MAC name names an integer: MAC identifiers are exactly the identifiers of the 48-bit integers. */
  lemma EveryMacIsAnInteger(name: string)
    requires PrefixOf(name) == Some("mac") && Parsed(name).Some?
    ensures LowerHex(HexDigits(IdPart(name)))
    ensures Parsed(name) == Some(IntToMAC(FromHex(HexDigits(IdPart(name)))))
  {
    var digits := HexDigits(IdPart(name));
    HexDigitsAreLower(IdPart(name));
    HexOfFromHex(digits);
    FromHexBound(digits);
    TwelveDigits();
    assert FromHex(digits) % TWO_TO_48 == FromHex(digits);
  }
}
