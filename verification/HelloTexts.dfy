/** What stands in a fingerprint: JA3 and JA4 read field by field, back to the numbers of the ClientHello. */
module HelloTexts {
  import opened Basics
  import opened ClientHello
  import opened Numerals
  import opened HelloHashes
  import Ordering

  // ---- Numbers and lists ----

  predicate IsDecimal(s: string) {
    s != "" && forall i :: 0 <= i < |s| ==> '0' <= s[i] <= '9'
  }

  /** Decimals are digits without a leading zero, and read back. */
  lemma {:induction false} DecReads(n: nat)
    ensures IsDecimal(Dec(n)) && Undec(Dec(n)) == n && (n > 0 ==> Dec(n)[0] != '0')
  {
    UndecDec(n);
    if n >= 10 {
      DecReads(n / 10);
    }
  }

  lemma {:induction false} TwoDigitsRead(n: nat)
    requires n < 100
    ensures |TwoDigits(n)| == 2 && IsDecimal(TwoDigits(n)) && Undec(TwoDigits(n)) == n
  {
    var s := TwoDigits(n);
    assert s[..1] == [s[0]] && s[..1][..0] == [];
    assert Undec([s[0]]) == n / 10;
  }

  /** The value of a text of hexadecimal digits, in lower case. */
  function Unhex(s: string): int {
    if s == [] then 0 else Unhex(s[..|s| - 1]) * 16 + DigitValue(s[|s| - 1])
  }

  predicate IsHex(s: string) {
    |s| == 4 && forall i :: 0 <= i < |s| ==> '0' <= s[i] <= '9' || 'a' <= s[i] <= 'f'
  }

  lemma {:induction false} UnhexSnoc(s: string, c: char)
    ensures Unhex(s + [c]) == Unhex(s) * 16 + DigitValue(c)
  {
    assert (s + [c])[..|s|] == s;
  }

  lemma {:induction false} HexReads(v: u16)
    ensures IsHex(Hex(v)) && Unhex(Hex(v)) == v
  {
    var a, b, c, d := Digit(v / 256 / 16), Digit(v / 256 % 16), Digit(v % 256 / 16), Digit(v % 256 % 16);
    assert Hex(v) == "" + [a] + [b] + [c] + [d];
    UnhexSnoc("", a);
    UnhexSnoc("" + [a], b);
    UnhexSnoc("" + [a] + [b], c);
    UnhexSnoc("" + [a] + [b] + [c], d);
  }

  /** Joined parts are split again at their separator. */
  lemma {:induction false} SplitUndoesJoin(parts: seq<string>, sep: char)
    requires parts != [] && Avoid(parts, sep)
    ensures Split(Join(parts, sep), sep) == parts
  {
    if |parts| == 1 {
      SplitOne(parts[0], sep);
    } else {
      SplitUndoesJoin(parts[1..], sep);
      SplitPair(parts[0], Join(parts[1..], sep), sep);
    }
  }

  /** The text lists these numbers in decimal, in order, separated by hyphens; an empty list is an empty text. */
  predicate ListsNumbers(text: string, vs: seq<nat>) {
    if vs == [] then text == ""
    else |Split(text, '-')| == |vs| && forall i :: 0 <= i < |vs| ==> ReadsAs(Split(text, '-')[i], vs[i])
  }

  predicate ReadsAs(s: string, n: nat) {
    IsDecimal(s) && Undec(s) == n && (n > 0 ==> s[0] != '0')
  }

  lemma {:induction false} NumbersList(vs: seq<nat>)
    ensures ListsNumbers(Numbers(vs), vs)
  {
    if vs != [] {
      DecAllParts(vs, '-');
      SplitUndoesJoin(DecAll(vs), '-');
      forall i | 0 <= i < |vs|
        ensures ReadsAs(DecAll(vs)[i], vs[i])
      {
        DecAllAt(vs, i);
        DecReads(vs[i]);
      }
    }
  }

  /** `kept` is `vs` without its GREASE values, order kept: `at` says where each value stood. */
  ghost predicate WithoutGrease(vs: seq<u16>, kept: seq<u16>, at: seq<nat>) {
    && |at| == |kept|
    && (forall i :: 0 <= i < |at| ==> at[i] < |vs| && kept[i] == vs[at[i]] && !IsGreaseBits(vs[at[i]]))
    && (forall i, j :: 0 <= i < j < |at| ==> at[i] < at[j])
    && forall k :: 0 <= k < |vs| && !IsGreaseBits(vs[k]) ==> k in at
  }

  lemma {:induction false} PlainSnoc(vs: seq<u16>)
    requires vs != []
    ensures var n := |vs| - 1; Plain(vs) == Plain(vs[..n]) + if IsGreaseBits(vs[n]) then [] else [vs[n]]
  {
    var n := |vs| - 1;
    assert vs == vs[..n] + [vs[n]];
    PlainConcat(vs[..n], [vs[n]]);
    GreaseBitsAgree(vs[n]);
    assert [vs[n]][1..] == [];
  }

  lemma {:induction false} PlainIsWithoutGrease(vs: seq<u16>) returns (at: seq<nat>)
    ensures WithoutGrease(vs, Plain(vs), at)
  {
    if vs == [] {
      return [];
    }
    var n := |vs| - 1;
    at := PlainIsWithoutGrease(vs[..n]);
    PlainSnoc(vs);
    assert forall k :: 0 <= k < n ==> vs[..n][k] == vs[k];
    if !IsGreaseBits(vs[n]) {
      var more := at + [n];
      forall k | 0 <= k < |vs| && !IsGreaseBits(vs[k])
        ensures k in more
      {
        assert k < n ==> k in at;
      }
      at := more;
    }
  }

  // ---- JA3 ----

  /** JA3 is five fields separated by commas: the legacy version, and the ciphers, extensions, curves and point
      formats in order, without GREASE. */
  lemma {:induction false} JA3Reads(f: Fingerprint)
    ensures var s := Split(JA3(f), ',');
            && |s| == 5 && ReadsAs(s[0], f.legacyVersion)
            && ListsNumbers(s[1], Plain(f.ciphers)) && ListsNumbers(s[2], Plain(f.extensions))
            && ListsNumbers(s[3], Plain(f.curves)) && ListsNumbers(s[4], f.pointFormats)
  {
    JA3FieldsAvoidComma(f);
    SplitUndoesJoin(JA3Fields(f), ',');
    DecReads(f.legacyVersion);
    NumbersList(Plain(f.ciphers));
    NumbersList(Plain(f.extensions));
    NumbersList(Plain(f.curves));
    NumbersList(f.pointFormats);
  }

  // ---- The readable part of JA4 ----

  /** Two characters for the version; `00` for every version that has no code. */
  predicate TellsVersion(code: string, v: u16) {
    && (code == "13" <==> v == 0x0304) && (code == "12" <==> v == 0x0303) && (code == "11" <==> v == 0x0302)
    && (code == "10" <==> v == 0x0301) && (code == "s3" <==> v == 0x0300) && (code == "s2" <==> v == 0x0002)
    && (code == "00" <==> v != 0x0304 && v != 0x0303 && v != 0x0302 && v != 0x0301 && v != 0x0300 && v != 0x0002)
  }

  lemma {:induction false} VersionTold(v: u16)
    ensures TellsVersion(VersionCode(v), v)
  {
    var code := VersionCode(v);
    assert code[0] == code[..][0] && code[1] == code[..][1];
  }

  /** Two decimal digits, the number itself or 99 if it is larger. */
  predicate TellsCount(s: string, n: nat) {
    |s| == 2 && IsDecimal(s) && Undec(s) == if n > 99 then 99 else n
  }

  /** First and last byte of the first protocol name, `00` without one. */
  predicate TellsProtocol(s: string, names: seq<seq<byte>>) {
    if names == [] || names[0] == [] then s == "00"
    else |s| == 2 && s[0] as int == names[0][0] && s[1] as int == names[0][|names[0]| - 1]
  }

  /** The readable part says what it should of the ClientHello. */
  predicate ReadablePart(a: string, f: Fingerprint) {
    && |a| == 10 && a[0] == 't' && TellsVersion(a[1..3], f.version)
    && a[3] == (if f.sni == [] then 'i' else 'd')
    && TellsCount(a[4..6], |Plain(f.ciphers)|) && TellsCount(a[6..8], |Plain(f.extensions)|)
    && TellsProtocol(a[8..10], f.alpn)
  }

  lemma {:induction false} PartAReads(f: Fingerprint)
    ensures ReadablePart(PartA(f), f)
  {
    PartASlices(f);
    VersionTold(f.version);
    TwoDigitsRead(AtMost99(|Plain(f.ciphers)|));
    TwoDigitsRead(AtMost99(|Plain(f.extensions)|));
  }

  // ---- The hashed parts ----

  /** The extensions that are hashed: neither GREASE nor server_name nor ALPN. */
  predicate IsListed(e: u16) {
    !IsGreaseBits(e) && e != 0x0000 && e != 0x0010
  }

  function Values(parts: seq<string>): (r: seq<int>)
    ensures |r| == |parts|
  {
    seq(|parts|, i requires 0 <= i < |parts| => Unhex(parts[i]))
  }

  /** Sorted texts of four hexadecimal digits. */
  ghost predicate SortedHexes(parts: seq<string>) {
    Ordering.SortedBy(Ordering.Less, parts) && forall i :: 0 <= i < |parts| ==> IsHex(parts[i])
  }

  lemma {:induction false} ValuesWithout(parts: seq<string>, i: nat)
    requires i < |parts|
    ensures multiset(Values(parts)) == multiset(Values(parts[..i] + parts[i + 1..])) + multiset{Unhex(parts[i])}
  {
    assert Values(parts[..i] + parts[i + 1..]) == Values(parts)[..i] + Values(parts)[i + 1..];
    Ordering.RemovedAt(Values(parts), i);
  }

  lemma {:induction false} ValuesOfBag(a: seq<string>, b: seq<string>)
    requires multiset(a) == multiset(b)
    ensures multiset(Values(a)) == multiset(Values(b))
    decreases |a|
  {
    if a == [] {
      assert |multiset(b)| == |b|;
    } else {
      var i := Ordering.FirstElsewhere(a, b);
      ValuesOfBag(a[..0] + a[1..], b[..i] + b[i + 1..]);
      ValuesWithout(a, 0);
      ValuesWithout(b, i);
    }
  }

  lemma {:induction false} ValuesOfHex(vs: seq<u16>)
    ensures |HexAll(vs)| == |vs| && forall i :: 0 <= i < |vs| ==> IsHex(HexAll(vs)[i]) && Values(HexAll(vs))[i] == vs[i]
  {
    forall i | 0 <= i < |vs|
      ensures IsHex(HexAll(vs)[i]) && Values(HexAll(vs))[i] == vs[i]
    {
      HexAllAt(vs, i);
      HexReads(vs[i]);
    }
  }

  lemma {:induction false} CountOfValues(vs: seq<u16>, v: u16)
    ensures multiset(Values(HexAll(vs)))[v] == multiset(vs)[v]
  {
    ValuesOfHex(vs);
    SameCounts(Values(HexAll(vs)), vs, v);
  }

  lemma {:induction false} SameCounts(a: seq<int>, b: seq<u16>, v: u16)
    requires |a| == |b| && forall i :: 0 <= i < |a| ==> a[i] == b[i]
    ensures multiset(a)[v] == multiset(b)[v]
  {
    if a != [] {
      SameCounts(a[1..], b[1..], v);
      assert a == [a[0]] + a[1..] && b == [b[0]] + b[1..];
    }
  }

  /** The sorted text splits into the texts of exactly these values. */
  lemma {:induction false} SortedHexReads(vs: seq<u16>)
    requires vs != []
    ensures var parts := Split(SortedHex(vs), ',');
            SortedHexes(parts) && |parts| == |vs| && forall v: u16 :: multiset(Values(parts))[v] == multiset(vs)[v]
  {
    var parts := Ordering.Sort(HexAll(vs));
    SortedParts(vs, ',');
    SplitUndoesJoin(parts, ',');
    ValuesOfHex(vs);
    ValuesOfBag(parts, HexAll(vs));
    forall i | 0 <= i < |parts|
      ensures IsHex(parts[i])
    {
      assert parts[i] in multiset(parts);
      assert parts[i] in HexAll(vs);
      var k :| 0 <= k < |vs| && HexAll(vs)[k] == parts[i];
      assert IsHex(HexAll(vs)[k]);
    }
    forall v: u16
      ensures multiset(Values(parts))[v] == multiset(vs)[v]
    {
      CountOfValues(vs, v);
    }
  }

  /** The text of the ciphers to hash: none if all are GREASE, else the others, sorted, separated by commas. */
  ghost predicate CipherText(text: Option<string>, ciphers: seq<u16>) {
    && (text.None? <==> forall v :: v in ciphers ==> IsGreaseBits(v))
    && (text.Some? ==>
          && SortedHexes(Split(text.value, ','))
          && forall v: u16 :: multiset(Values(Split(text.value, ',')))[v] == if IsGreaseBits(v) then 0 else multiset(ciphers)[v])
  }

  lemma {:induction false} PlainNone(vs: seq<u16>)
    ensures Plain(vs) == [] <==> forall v :: v in vs ==> IsGreaseBits(v)
  {
    if vs != [] {
      PlainNone(vs[1..]);
      GreaseBitsAgree(vs[0]);
      assert forall v :: v in vs <==> v == vs[0] || v in vs[1..];
    }
  }

  lemma {:induction false} HashedNone(vs: seq<u16>)
    ensures HashedExts(vs) == [] <==> forall v :: v in vs ==> !IsListed(v)
  {
    if vs != [] {
      HashedNone(vs[1..]);
      GreaseBitsAgree(vs[0]);
      assert IsHashed(vs[0]) <==> IsListed(vs[0]);
      assert forall v :: v in vs <==> v == vs[0] || v in vs[1..];
    }
  }

  lemma {:induction false} PlainBag(vs: seq<u16>, v: u16)
    ensures multiset(Plain(vs))[v] == (if IsGreaseBits(v) then 0 else multiset(vs)[v])
    ensures multiset(HashedExts(vs))[v] == (if IsListed(v) then multiset(vs)[v] else 0)
  {
    PlainCount(vs, v);
    GreaseBitsAgree(v);
  }

  lemma {:induction false} PartBReads(f: Fingerprint)
    ensures CipherText(PartB(f), f.ciphers)
  {
    PlainNone(f.ciphers);
    if PartB(f).Some? {
      SortedHexReads(Plain(f.ciphers));
      forall v: u16
        ensures multiset(Values(Split(PartB(f).value, ',')))[v] == if IsGreaseBits(v) then 0 else multiset(f.ciphers)[v]
      {
        PlainBag(f.ciphers, v);
      }
    }
  }

  /** The text lists these values in hexadecimal, in order. */
  predicate ListsHexes(text: string, vs: seq<u16>) {
    var parts := Split(text, ',');
    |parts| == |vs| && forall i :: 0 <= i < |vs| ==> IsHex(parts[i]) && Unhex(parts[i]) == vs[i]
  }

  lemma {:induction false} HexListReads(vs: seq<u16>)
    requires vs != []
    ensures ListsHexes(HexList(vs), vs) && '_' !in HexList(vs)
  {
    HexAllParts(vs, ',');
    HexAllParts(vs, '_');
    SplitUndoesJoin(HexAll(vs), ',');
    JoinAvoids(HexAll(vs), ',', '_');
    ValuesOfHex(vs);
    forall i | 0 <= i < |vs|
      ensures IsHex(HexAll(vs)[i]) && Unhex(HexAll(vs)[i]) == vs[i]
    {
      assert Values(HexAll(vs))[i] == Unhex(HexAll(vs)[i]);
    }
  }

  /** The text of extensions and signature algorithms to hash: none without a listed extension; else those, sorted,
      and behind an underscore the signature algorithms without GREASE, in order, if there are any. */
  ghost predicate ExtensionText(text: Option<string>, exts: seq<u16>, sigAlgs: seq<u16>) {
    && (text.None? <==> forall v :: v in exts ==> !IsListed(v))
    && (text.Some? ==>
          var halves := Split(text.value, '_');
          && SortedHexes(Split(halves[0], ','))
          && (forall v: u16 :: multiset(Values(Split(halves[0], ',')))[v] == if IsListed(v) then multiset(exts)[v] else 0)
          && (if sigAlgs == [] then |halves| == 1 else |halves| == 2 && ListsHexes(halves[1], sigAlgs)))
  }

  lemma {:induction false} Halves(x: string, sigAlgs: seq<u16>)
    requires '_' !in x
    ensures var halves := Split(x + Tail(sigAlgs), '_');
            halves[0] == x && if sigAlgs == [] then |halves| == 1 else |halves| == 2 && ListsHexes(halves[1], sigAlgs)
  {
    if sigAlgs == [] {
      assert x + "" == x;
      SplitOne(x, '_');
    } else {
      HexListReads(sigAlgs);
      SplitOne(HexList(sigAlgs), '_');
      SplitPair(x, HexList(sigAlgs), '_');
    }
  }

  lemma {:induction false} PartCReads(f: Fingerprint)
    ensures ExtensionText(PartC(f), f.extensions, Plain(f.sigAlgs))
  {
    HashedNone(f.extensions);
    if PartC(f).Some? {
      var exts := HashedExts(f.extensions);
      SortedHexReads(exts);
      SortedHexAvoids(exts);
      Halves(SortedHex(exts), Plain(f.sigAlgs));
      assert PartC(f).value == SortedHex(exts) + Tail(Plain(f.sigAlgs));
      forall v: u16
        ensures multiset(Values(Split(SortedHex(exts), ',')))[v] == if IsListed(v) then multiset(f.extensions)[v] else 0
      {
        PlainBag(f.extensions, v);
      }
    }
  }

  function Digest(trunc12: string -> string, text: Option<string>): string {
    match text
    case None => "000000000000"
    case Some(t) => trunc12(t)
  }

  /** JA4 is the readable part, the digest of the ciphers and the digest of extensions and signature algorithms. */
  lemma {:induction false} JA4Reads(trunc12: string -> string, f: Fingerprint)
    returns (a: string, b: Option<string>, c: Option<string>)
    ensures JA4(trunc12, f) == a + ("_" + (Digest(trunc12, b) + ("_" + Digest(trunc12, c))))
    ensures ReadablePart(a, f) && CipherText(b, f.ciphers) && ExtensionText(c, f.extensions, Plain(f.sigAlgs))
  {
    a, b, c := PartA(f), PartB(f), PartC(f);
    PartAReads(f);
    PartBReads(f);
    PartCReads(f);
    assert Digest(trunc12, b) == Hashed(trunc12, b) && Digest(trunc12, c) == Hashed(trunc12, c);
  }
}
