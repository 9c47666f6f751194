/** JA3 and JA4 fingerprints of a decoded ClientHello: exactly which features they depend on. */
module HelloHashes {
  import opened Basics
  import opened ClientHello
  import opened Numerals
  import Ordering

  // ---- Rendering ----

  /** `%02d` on a number below one hundred. */
  function TwoDigits(n: nat): string
    requires n < 100
  {
    [Digit(n / 10), Digit(n % 10)]
  }

  /** `%04x`. */
  function Hex(v: u16): string {
    HexByte(v / 256) + HexByte(v % 256)
  }

  function HexByte(b: byte): string {
    [Digit(b / 16), Digit(b % 16)]
  }

  /** `strings.Join` with a one-character separator. */
  function Join(parts: seq<string>, sep: char): string {
    if parts == [] then "" else if |parts| == 1 then parts[0] else parts[0] + ([sep] + Join(parts[1..], sep))
  }

  function DecAll(vs: seq<nat>): (r: seq<string>)
    ensures |r| == |vs|
  {
    if vs == [] then [] else [Dec(vs[0])] + DecAll(vs[1..])
  }

  function HexAll(vs: seq<u16>): (r: seq<string>)
    ensures |r| == |vs|
  {
    if vs == [] then [] else [Hex(vs[0])] + HexAll(vs[1..])
  }

  /** The values that are not GREASE. */
  function Plain(vs: seq<u16>): seq<u16> {
    if vs == [] then [] else (if IsGrease(vs[0]) then [] else [vs[0]]) + Plain(vs[1..])
  }

  /** The extension types JA4 hashes: neither GREASE nor server_name nor ALPN. */
  predicate IsHashed(e: u16) {
    !(IsGrease(e) || e == 0x0000 || e == 0x0010)
  }

  function HashedExts(vs: seq<u16>): seq<u16> {
    if vs == [] then [] else (if IsHashed(vs[0]) then [vs[0]] else []) + HashedExts(vs[1..])
  }

  // ---- The two fingerprints ----

  function Numbers(vs: seq<nat>): string {
    Join(DecAll(vs), '-')
  }

  function JA3Fields(f: Fingerprint): seq<string> {
    [Dec(f.legacyVersion), Numbers(Plain(f.ciphers)), Numbers(Plain(f.extensions)), Numbers(Plain(f.curves)), Numbers(f.pointFormats)]
  }

  function JA3(f: Fingerprint): string {
    Join(JA3Fields(f), ',')
  }

  function VersionCode(v: u16): (s: string)
    ensures |s| == 2
  {
    if v == 0x0304 then "13" else if v == 0x0303 then "12" else if v == 0x0302 then "11"
    else if v == 0x0301 then "10" else if v == 0x0300 then "s3" else if v == 0x0002 then "s2" else "00"
  }

  function AlpnCode(names: seq<seq<byte>>): (s: string)
    ensures |s| == 2
  {
    if |names| > 0 && names[0] != [] then [names[0][0] as char, names[0][|names[0]| - 1] as char] else "00"
  }

  function AtMost99(n: nat): (r: nat)
    ensures r < 100
  {
    if n < 99 then n else 99
  }

  /** JA4 before hashing: the readable part and the two texts to hash, if there are any. */
  datatype JA4Text = JA4Text(a: string, b: Option<string>, c: Option<string>)

  function PartA(f: Fingerprint): string {
    "t" + VersionCode(f.version) + (if f.sni != [] then "d" else "i")
    + TwoDigits(AtMost99(|Plain(f.ciphers)|)) + TwoDigits(AtMost99(|Plain(f.extensions)|)) + AlpnCode(f.alpn)
  }

  function HexList(vs: seq<u16>): string {
    Join(HexAll(vs), ',')
  }

  function SortedHex(vs: seq<u16>): string {
    Join(Ordering.Sort(HexAll(vs)), ',')
  }

  function PartB(f: Fingerprint): Option<string> {
    if Plain(f.ciphers) == [] then None else Some(SortedHex(Plain(f.ciphers)))
  }

  function PartC(f: Fingerprint): Option<string> {
    if HashedExts(f.extensions) == [] then None
    else Some(SortedHex(HashedExts(f.extensions)) + (if Plain(f.sigAlgs) == [] then "" else "_" + HexList(Plain(f.sigAlgs))))
  }

  function TextOf(f: Fingerprint): JA4Text {
    JA4Text(PartA(f), PartB(f), PartC(f))
  }

  function Hashed(trunc12: string -> string, t: Option<string>): string {
    if t.None? then "000000000000" else trunc12(t.value)
  }

  function JA4(trunc12: string -> string, f: Fingerprint): string {
    var t := TextOf(f);
    t.a + ("_" + (Hashed(trunc12, t.b) + ("_" + Hashed(trunc12, t.c))))
  }

  // ---- The program ----

  lemma {:induction false} DecAllCons(v: nat, rest: seq<nat>)
    ensures DecAll([v] + rest) == [Dec(v)] + DecAll(rest)
  {
    assert ([v] + rest)[1..] == rest;
  }

  lemma {:induction false} HexAllCons(v: u16, rest: seq<u16>)
    ensures HexAll([v] + rest) == [Hex(v)] + HexAll(rest)
  {
    assert ([v] + rest)[1..] == rest;
  }

  lemma {:induction false} FilterStep(vs: seq<u16>, i: nat)
    requires i < |vs|
    ensures Plain(vs[i..]) == (if IsGrease(vs[i]) then [] else [vs[i]]) + Plain(vs[i + 1..])
    ensures HashedExts(vs[i..]) == (if IsHashed(vs[i]) then [vs[i]] else []) + HashedExts(vs[i + 1..])
  {
    assert vs[i..][1..] == vs[i + 1..];
  }

  /** The values `joinU16` renders. */
  function Kept(vs: seq<u16>, skipGrease: bool): seq<u16> {
    if skipGrease then Plain(vs) else vs
  }

  function KeptTexts(vs: seq<u16>, skipGrease: bool): seq<string> {
    DecAll(Kept(vs, skipGrease))
  }

  lemma {:induction false} KeptStep(vs: seq<u16>, i: nat, skipGrease: bool)
    requires i < |vs|
    ensures KeptTexts(vs[i..], skipGrease) ==
            (if skipGrease && IsGrease(vs[i]) then [] else [Dec(vs[i])]) + KeptTexts(vs[i + 1..], skipGrease)
  {
    FilterStep(vs, i);
    if skipGrease && IsGrease(vs[i]) {
      assert Kept(vs[i..], skipGrease) == Kept(vs[i + 1..], skipGrease);
    } else {
      assert Kept(vs[i..], skipGrease) == [vs[i]] + Kept(vs[i + 1..], skipGrease);
      DecAllCons(vs[i], Kept(vs[i + 1..], skipGrease));
    }
  }

  function TextsFrom(vs: seq<u16>, i: nat, skipGrease: bool): seq<string>
    requires i <= |vs|
    decreases |vs| - i
  {
    if i == |vs| then []
    else (if skipGrease && IsGrease(vs[i]) then [] else [Dec(vs[i])]) + TextsFrom(vs, i + 1, skipGrease)
  }

  lemma {:induction false} TextsFromKept(vs: seq<u16>, i: nat, skipGrease: bool)
    requires i <= |vs|
    ensures TextsFrom(vs, i, skipGrease) == KeptTexts(vs[i..], skipGrease)
    decreases |vs| - i
  {
    if i < |vs| {
      TextsFromKept(vs, i + 1, skipGrease);
      KeptStep(vs, i, skipGrease);
    }
  }

  /** `joinU16`. */
  method JoinU16(vs: seq<u16>, sep: char, skipGrease: bool) returns (s: string)
    ensures s == Join(KeptTexts(vs, skipGrease), sep)
  {
    var parts: seq<string> := [];
    for i := 0 to |vs|
      invariant parts + TextsFrom(vs, i, skipGrease) == TextsFrom(vs, 0, skipGrease)
    {
      if skipGrease && IsGrease(vs[i]) {
        continue;
      }
      parts := parts + [Dec(vs[i])];
    }
    assert parts == TextsFrom(vs, 0, skipGrease);
    assert vs[0..] == vs;
    TextsFromKept(vs, 0, skipGrease);
    assert parts == KeptTexts(vs, skipGrease);
    s := Join(parts, sep);
  }

  /** `hex4`. */
  method Hex4(vs: seq<u16>) returns (out: seq<string>)
    ensures out == HexAll(Plain(vs))
  {
    out := [];
    assert vs[0..] == vs;
    for i := 0 to |vs|
      invariant out + HexAll(Plain(vs[i..])) == HexAll(Plain(vs))
    {
      FilterStep(vs, i);
      if IsGrease(vs[i]) {
        assert Plain(vs[i..]) == Plain(vs[i + 1..]);
        continue;
      }
      HexAllCons(vs[i], Plain(vs[i + 1..]));
      out := out + [Hex(vs[i])];
    }
  }

  method CountPlain(vs: seq<u16>) returns (n: nat)
    ensures n == |Plain(vs)|
  {
    n := 0;
    assert vs[0..] == vs;
    for i := 0 to |vs|
      invariant n + |Plain(vs[i..])| == |Plain(vs)|
    {
      FilterStep(vs, i);
      if !IsGrease(vs[i]) {
        n := n + 1;
      }
    }
  }

  method HexHashed(vs: seq<u16>) returns (exts: seq<string>)
    ensures exts == HexAll(HashedExts(vs))
  {
    exts := [];
    assert vs[0..] == vs;
    for i := 0 to |vs|
      invariant exts + HexAll(HashedExts(vs[i..])) == HexAll(HashedExts(vs))
    {
      FilterStep(vs, i);
      if IsGrease(vs[i]) || vs[i] == 0x0000 || vs[i] == 0x0010 {
        assert HashedExts(vs[i..]) == HashedExts(vs[i + 1..]);
        continue;
      }
      HexAllCons(vs[i], HashedExts(vs[i + 1..]));
      exts := exts + [Hex(vs[i])];
    }
  }

  method DecimalFormats(vs: seq<byte>) returns (pf: seq<string>)
    ensures pf == DecAll(vs)
  {
    pf := [];
    for i := 0 to |vs|
      invariant pf + DecAll(vs[i..]) == DecAll(vs)
    {
      assert vs[i..][1..] == vs[i + 1..];
      pf := pf + [Dec(vs[i])];
    }
  }

  /** The JA3 half of `computeHashes`. */
  method ComputeJA3(f: Fingerprint) returns (ja3: string)
    ensures ja3 == JA3(f)
  {
    var pf := DecimalFormats(f.pointFormats);
    var ciphers := JoinU16(f.ciphers, '-', true);
    var extensions := JoinU16(f.extensions, '-', true);
    var curves := JoinU16(f.curves, '-', true);
    ja3 := Join([Dec(f.legacyVersion), ciphers, extensions, curves, Join(pf, '-')], ',');
  }

  /** The readable part of JA4: version, server name, counts and ALPN. */
  method ComputeA(f: Fingerprint) returns (a: string)
    ensures a == PartA(f)
  {
    var nCiphers := CountPlain(f.ciphers);
    var nExts := CountPlain(f.extensions);
    a := "t" + VersionCode(f.version) + (if f.sni != [] then "d" else "i")
      + TwoDigits(AtMost99(nCiphers)) + TwoDigits(AtMost99(nExts)) + AlpnCode(f.alpn);
  }

  /** The cipher hash. */
  method ComputeB(trunc12: string -> string, f: Fingerprint) returns (b: string)
    ensures b == Hashed(trunc12, PartB(f))
  {
    var ciphers := Hex4(f.ciphers);
    b := "000000000000";
    if |ciphers| > 0 {
      b := trunc12(Join(Ordering.Sort(ciphers), ','));
    }
  }

  /** The hash of extensions and signature algorithms. */
  method ComputeC(trunc12: string -> string, f: Fingerprint) returns (c: string)
    ensures c == Hashed(trunc12, PartC(f))
  {
    var exts := HexHashed(f.extensions);
    var cs := Join(Ordering.Sort(exts), ',');
    var sa := Hex4(f.sigAlgs);
    assert cs + "" == cs;
    if |sa| > 0 {
      cs := cs + ("_" + Join(sa, ','));
    }
    c := "000000000000";
    if |exts| > 0 {
      c := trunc12(cs);
    }
  }

  /** The JA4 half. */
  method ComputeJA4(trunc12: string -> string, f: Fingerprint) returns (ja4: string)
    ensures ja4 == JA4(trunc12, f)
  {
    var a := ComputeA(f);
    var b := ComputeB(trunc12, f);
    var c := ComputeC(trunc12, f);
    ja4 := a + ("_" + (b + ("_" + c)));
  }

  // ---- Renderings can be read back ----

  lemma {:induction false} HexByteInjective(b: byte, c: byte)
    requires HexByte(b) == HexByte(c)
    ensures b == c
  {
    var x, y := HexByte(b), HexByte(c);
    assert x[0] == y[0] && x[1] == y[1];
    assert DigitValue(x[0]) == b / 16 && DigitValue(y[0]) == c / 16;
    assert DigitValue(x[1]) == b % 16 && DigitValue(y[1]) == c % 16;
  }

  lemma {:induction false} HexInjective(v: u16, w: u16)
    requires Hex(v) == Hex(w)
    ensures v == w
  {
    assert HexByte(v / 256) == Hex(v)[..2] && HexByte(w / 256) == Hex(w)[..2];
    assert HexByte(v % 256) == Hex(v)[2..] && HexByte(w % 256) == Hex(w)[2..];
    HexByteInjective(v / 256, w / 256);
    HexByteInjective(v % 256, w % 256);
  }

  /** No digit and no hexadecimal digit is a separator. */
  predicate IsSeparator(c: char) {
    c == '-' || c == ',' || c == '_'
  }

  lemma {:induction false} DecAvoids(n: nat, c: char)
    requires IsSeparator(c)
    ensures c !in Dec(n)
  {
    if n >= 10 {
      DecAvoids(n / 10, c);
    }
  }

  predicate Avoid(parts: seq<string>, c: char) {
    forall i :: 0 <= i < |parts| ==> c !in parts[i]
  }

  lemma {:induction false} DecAllParts(vs: seq<nat>, c: char)
    requires IsSeparator(c)
    ensures Avoid(DecAll(vs), c)
  {
    if vs != [] {
      DecAvoids(vs[0], c);
      DecAllParts(vs[1..], c);
    }
  }

  lemma {:induction false} HexAllParts(vs: seq<u16>, c: char)
    requires IsSeparator(c)
    ensures Avoid(HexAll(vs), c)
  {
    if vs != [] {
      HexAllParts(vs[1..], c);
    }
  }

  lemma {:induction false} JoinAvoids(parts: seq<string>, sep: char, c: char)
    requires Avoid(parts, c) && c != sep
    ensures c !in Join(parts, sep)
  {
    if |parts| > 1 {
      JoinAvoids(parts[1..], sep, c);
    }
  }

  /** The first separator cuts a text in one way. */
  lemma {:induction false} CutUnique(x: string, y: string, r: string, t: string, sep: char)
    requires sep !in x && sep !in y && x + ([sep] + r) == y + ([sep] + t)
    ensures x == y && r == t
  {
    var s := x + ([sep] + r);
    assert s[|x|] == sep && s[|y|] == sep;
    assert forall k :: 0 <= k < |x| ==> s[k] == x[k] && s[k] != sep;
    assert forall k :: 0 <= k < |y| ==> s[k] == y[k] && s[k] != sep;
    assert s[..|x|] == x && s[..|y|] == y;
    assert s[|x| + 1..] == r && s[|y| + 1..] == t;
  }

  /** A joined list determines its parts. */
  lemma {:induction false} JoinInjective(a: seq<string>, b: seq<string>, sep: char)
    requires a != [] && b != [] && Avoid(a, sep) && Avoid(b, sep) && Join(a, sep) == Join(b, sep)
    ensures a == b
  {
    if |a| == 1 || |b| == 1 {
      assert sep in Join(a, sep) <==> |a| > 1;
      assert sep in Join(b, sep) <==> |b| > 1;
      assert a == [a[0]] && b == [b[0]];
    } else {
      CutUnique(a[0], b[0], Join(a[1..], sep), Join(b[1..], sep), sep);
      JoinInjective(a[1..], b[1..], sep);
      assert a == [a[0]] + a[1..] && b == [b[0]] + b[1..];
    }
  }

  lemma {:induction false} JoinEmpty(parts: seq<string>, sep: char)
    requires forall i :: 0 <= i < |parts| ==> parts[i] != ""
    ensures Join(parts, sep) == "" <==> parts == []
  {
  }

  lemma {:induction false} DecAllAt(vs: seq<nat>, i: nat)
    requires i < |vs|
    ensures DecAll(vs)[i] == Dec(vs[i])
  {
    if i > 0 {
      DecAllAt(vs[1..], i - 1);
    }
  }

  lemma {:induction false} HexAllAt(vs: seq<u16>, i: nat)
    requires i < |vs|
    ensures HexAll(vs)[i] == Hex(vs[i])
  {
    if i > 0 {
      HexAllAt(vs[1..], i - 1);
    }
  }

  lemma {:induction false} NumbersInjective(a: seq<nat>, b: seq<nat>)
    requires Numbers(a) == Numbers(b)
    ensures a == b
  {
    DecAllParts(a, '-');
    DecAllParts(b, '-');
    forall i | 0 <= i < |a| ensures DecAll(a)[i] == Dec(a[i]) && Undec(DecAll(a)[i]) == a[i] {
      DecAllAt(a, i);
      UndecDec(a[i]);
    }
    forall i | 0 <= i < |b| ensures DecAll(b)[i] == Dec(b[i]) && Undec(DecAll(b)[i]) == b[i] {
      DecAllAt(b, i);
      UndecDec(b[i]);
    }
    JoinEmpty(DecAll(a), '-');
    JoinEmpty(DecAll(b), '-');
    if a != [] && b != [] {
      JoinInjective(DecAll(a), DecAll(b), '-');
    }
  }

  lemma {:induction false} NumbersAvoidComma(vs: seq<nat>)
    ensures ',' !in Numbers(vs)
  {
    DecAllParts(vs, ',');
    JoinAvoids(DecAll(vs), '-', ',');
  }

  // ---- JA3 ----

  /** What JA3 sees: the GREASE-filtered sequences. */
  datatype JA3Key = JA3Key(
    legacyVersion: u16, ciphers: seq<u16>, extensions: seq<u16>, curves: seq<u16>, pointFormats: seq<byte>)

  function JA3KeyOf(f: Fingerprint): JA3Key {
    JA3Key(f.legacyVersion, Plain(f.ciphers), Plain(f.extensions), Plain(f.curves), f.pointFormats)
  }

  lemma {:induction false} JA3FieldsAvoidComma(f: Fingerprint)
    ensures Avoid(JA3Fields(f), ',')
  {
    DecAvoids(f.legacyVersion, ',');
    NumbersAvoidComma(Plain(f.ciphers));
    NumbersAvoidComma(Plain(f.extensions));
    NumbersAvoidComma(Plain(f.curves));
    NumbersAvoidComma(f.pointFormats);
  }

  lemma {:induction false} JA3FieldsInjective(f: Fingerprint, g: Fingerprint)
    requires JA3Fields(f) == JA3Fields(g)
    ensures JA3KeyOf(f) == JA3KeyOf(g)
  {
    var x, y := JA3Fields(f), JA3Fields(g);
    assert x[0] == y[0] && x[1] == y[1] && x[2] == y[2] && x[3] == y[3] && x[4] == y[4];
    UndecDec(f.legacyVersion);
    UndecDec(g.legacyVersion);
    NumbersInjective(Plain(f.ciphers), Plain(g.ciphers));
    NumbersInjective(Plain(f.extensions), Plain(g.extensions));
    NumbersInjective(Plain(f.curves), Plain(g.curves));
    NumbersInjective(f.pointFormats, g.pointFormats);
  }

  /** JA3 strings agree exactly when the filtered sequences do. */
  lemma {:induction false} JA3Exact(f: Fingerprint, g: Fingerprint)
    ensures JA3(f) == JA3(g) <==> JA3KeyOf(f) == JA3KeyOf(g)
  {
    if JA3(f) == JA3(g) {
      JA3FieldsAvoidComma(f);
      JA3FieldsAvoidComma(g);
      JoinInjective(JA3Fields(f), JA3Fields(g), ',');
      JA3FieldsInjective(f, g);
    }
  }

  // ---- JA4 ----

  lemma {:induction false} HexCount(vs: seq<u16>, v: u16)
    ensures multiset(HexAll(vs))[Hex(v)] == multiset(vs)[v]
  {
    if vs != [] {
      HexCount(vs[1..], v);
      assert vs == [vs[0]] + vs[1..];
      if Hex(vs[0]) == Hex(v) {
        HexInjective(vs[0], v);
      }
    }
  }

  lemma {:induction false} HexSource(vs: seq<u16>, s: string)
    requires s in HexAll(vs)
    ensures exists v: u16 :: v in vs && s == Hex(v)
  {
    var i :| 0 <= i < |vs| && HexAll(vs)[i] == s;
    HexAllAt(vs, i);
    assert vs[i] in vs;
  }

  /** Equal bags of values render to equal bags of strings, and conversely. */
  lemma {:induction false} HexBags(a: seq<u16>, b: seq<u16>)
    ensures multiset(HexAll(a)) == multiset(HexAll(b)) <==> multiset(a) == multiset(b)
  {
    if multiset(HexAll(a)) == multiset(HexAll(b)) {
      forall v: u16
        ensures multiset(a)[v] == multiset(b)[v]
      {
        HexCount(a, v);
        HexCount(b, v);
      }
    }
    if multiset(a) == multiset(b) {
      forall s: string
        ensures multiset(HexAll(a))[s] == multiset(HexAll(b))[s]
      {
        if s in HexAll(a) || s in HexAll(b) {
          if s in HexAll(a) { HexSource(a, s); } else { HexSource(b, s); }
          var v: u16 :| s == Hex(v);
          HexCount(a, v);
          HexCount(b, v);
        }
      }
    }
  }

  lemma {:induction false} SortedParts(vs: seq<u16>, c: char)
    requires IsSeparator(c)
    ensures |Ordering.Sort(HexAll(vs))| == |vs| && Avoid(Ordering.Sort(HexAll(vs)), c)
  {
    var s := Ordering.Sort(HexAll(vs));
    assert |multiset(s)| == |s| && |multiset(HexAll(vs))| == |vs|;
    HexAllParts(vs, c);
    forall i | 0 <= i < |s|
      ensures c !in s[i]
    {
      assert s[i] in multiset(s);
      assert s[i] in HexAll(vs);
    }
  }

  /** The sorted rendering carries exactly the bag. */
  lemma {:induction false} SortedHexExact(a: seq<u16>, b: seq<u16>)
    requires a != [] && b != []
    ensures SortedHex(a) == SortedHex(b) <==> multiset(a) == multiset(b)
  {
    HexBags(a, b);
    if SortedHex(a) == SortedHex(b) {
      SortedParts(a, ',');
      SortedParts(b, ',');
      JoinInjective(Ordering.Sort(HexAll(a)), Ordering.Sort(HexAll(b)), ',');
    }
    if multiset(a) == multiset(b) {
      Ordering.SortOfBag(HexAll(a), HexAll(b));
    }
  }

  lemma {:induction false} HexListInjective(a: seq<u16>, b: seq<u16>)
    requires a != [] && b != [] && HexList(a) == HexList(b)
    ensures a == b
  {
    HexAllParts(a, ',');
    HexAllParts(b, ',');
    JoinInjective(HexAll(a), HexAll(b), ',');
    forall i | 0 <= i < |a|
      ensures a[i] == b[i]
    {
      HexAllAt(a, i);
      HexAllAt(b, i);
      HexInjective(a[i], b[i]);
    }
  }

  /** What JA4 sees. Lengths beyond 99 are not told apart, and signature algorithms count only
      beside at least one hashed extension. */
  datatype JA4Key = JA4Key(
    version: string, named: bool, alpn: string, extCount: nat,
    ciphers: multiset<u16>, extensions: multiset<u16>, sigAlgs: seq<u16>)

  function JA4KeyOf(f: Fingerprint): JA4Key {
    JA4Key(VersionCode(f.version), f.sni != [], AlpnCode(f.alpn), AtMost99(|Plain(f.extensions)|),
           multiset(Plain(f.ciphers)), multiset(HashedExts(f.extensions)), SigKey(f))
  }

  function SigKey(f: Fingerprint): seq<u16> {
    if HashedExts(f.extensions) == [] then [] else Plain(f.sigAlgs)
  }

  lemma {:induction false} TwoDigitsInjective(m: nat, n: nat)
    requires m < 100 && n < 100 && TwoDigits(m) == TwoDigits(n)
    ensures m == n
  {
    var x, y := TwoDigits(m), TwoDigits(n);
    assert x[0] == y[0] && x[1] == y[1];
    assert DigitValue(x[0]) == m / 10 && DigitValue(y[0]) == n / 10;
    assert DigitValue(x[1]) == m % 10 && DigitValue(y[1]) == n % 10;
  }

  lemma {:induction false} PartAExact(f: Fingerprint, g: Fingerprint)
    ensures |PartA(f)| == 10
    ensures PartA(f) == PartA(g) <==>
            && VersionCode(f.version) == VersionCode(g.version) && (f.sni != [] <==> g.sni != [])
            && AlpnCode(f.alpn) == AlpnCode(g.alpn)
            && AtMost99(|Plain(f.ciphers)|) == AtMost99(|Plain(g.ciphers)|)
            && AtMost99(|Plain(f.extensions)|) == AtMost99(|Plain(g.extensions)|)
  {
    PartASlices(f);
    PartASlices(g);
    if PartA(f) == PartA(g) {
      assert PartA(f)[3] == PartA(g)[3];
      TwoDigitsInjective(AtMost99(|Plain(f.ciphers)|), AtMost99(|Plain(g.ciphers)|));
      TwoDigitsInjective(AtMost99(|Plain(f.extensions)|), AtMost99(|Plain(g.extensions)|));
    }
  }

  lemma {:induction false} PartASlices(f: Fingerprint)
    ensures var a := PartA(f);
            && |a| == 10 && a[1..3] == VersionCode(f.version) && (a[3] == 'd' <==> f.sni != [])
            && a[4..6] == TwoDigits(AtMost99(|Plain(f.ciphers)|)) && a[6..8] == TwoDigits(AtMost99(|Plain(f.extensions)|))
            && a[8..10] == AlpnCode(f.alpn)
  {
  }

  lemma {:induction false} BagSize<T>(a: seq<T>, b: seq<T>)
    requires multiset(a) == multiset(b)
    ensures |a| == |b|
  {
    assert |multiset(a)| == |a| && |multiset(b)| == |b|;
  }

  lemma {:induction false} PartBExact(f: Fingerprint, g: Fingerprint)
    ensures PartB(f) == PartB(g) <==> multiset(Plain(f.ciphers)) == multiset(Plain(g.ciphers))
  {
    var a, b := Plain(f.ciphers), Plain(g.ciphers);
    if a != [] && b != [] {
      SortedHexExact(a, b);
    } else if multiset(a) == multiset(b) {
      BagSize(a, b);
    }
  }

  lemma {:induction false} SortedHexAvoids(vs: seq<u16>)
    ensures '_' !in SortedHex(vs)
  {
    SortedParts(vs, '_');
    JoinAvoids(Ordering.Sort(HexAll(vs)), ',', '_');
  }

  function Tail(sa: seq<u16>): string {
    if sa == [] then "" else "_" + HexList(sa)
  }

  lemma {:induction false} TailMarks(x: string, p: seq<u16>)
    requires '_' !in x
    ensures '_' in x + Tail(p) <==> p != []
  {
    if p != [] {
      assert (x + Tail(p))[|x|] == '_';
    }
  }

  /** The signature algorithms can be cut off behind the extensions. */
  lemma {:induction false} CutTail(x: string, y: string, p: seq<u16>, q: seq<u16>)
    requires '_' !in x && '_' !in y && x + Tail(p) == y + Tail(q)
    ensures x == y && p == q
  {
    TailMarks(x, p);
    TailMarks(y, q);
    if p != [] {
      CutUnique(x, y, HexList(p), HexList(q), '_');
      HexListInjective(p, q);
    } else {
      assert x + "" == x && y + "" == y;
    }
  }

  lemma {:induction false} PartCExact(f: Fingerprint, g: Fingerprint)
    ensures PartC(f) == PartC(g) <==>
            multiset(HashedExts(f.extensions)) == multiset(HashedExts(g.extensions)) && SigKey(f) == SigKey(g)
  {
    var a, b := HashedExts(f.extensions), HashedExts(g.extensions);
    if a != [] && b != [] {
      var p, q := Plain(f.sigAlgs), Plain(g.sigAlgs);
      assert PartC(f) == Some(SortedHex(a) + Tail(p)) && PartC(g) == Some(SortedHex(b) + Tail(q));
      SortedHexExact(a, b);
      if PartC(f) == PartC(g) {
        SortedHexAvoids(a);
        SortedHexAvoids(b);
        CutTail(SortedHex(a), SortedHex(b), p, q);
      }
    } else if multiset(a) == multiset(b) {
      BagSize(a, b);
    }
  }

  /** The texts JA4 hashes carry exactly the bags of ciphers and extensions and the other features. */
  lemma {:induction false} JA4TextExact(f: Fingerprint, g: Fingerprint)
    ensures TextOf(f) == TextOf(g) <==> JA4KeyOf(f) == JA4KeyOf(g)
  {
    PartAExact(f, g);
    PartBExact(f, g);
    PartCExact(f, g);
    if multiset(Plain(f.ciphers)) == multiset(Plain(g.ciphers)) {
      BagSize(Plain(f.ciphers), Plain(g.ciphers));
    }
  }

  /** The hash tells these two texts apart and yields twelve characters. */
  predicate Distinguishes(trunc12: string -> string, s: Option<string>, t: Option<string>) {
    && |Hashed(trunc12, s)| == 12 && |Hashed(trunc12, t)| == 12
    && (Hashed(trunc12, s) == Hashed(trunc12, t) ==> s == t)
  }

  lemma {:induction false} Slices(a: string, b: string, c: string)
    requires |a| == 10 && |b| == 12 && |c| == 12
    ensures var s := a + ("_" + (b + ("_" + c)));
            |s| == 36 && s[..10] == a && s[11..23] == b && s[24..] == c
  {
    var s := a + ("_" + (b + ("_" + c)));
    assert s[11..] == b + ("_" + c);
    assert s[11..][..12] == b && s[11..23] == s[11..][..12];
    assert s[24..] == c;
  }

  /** Absent a collision between the hashed texts, JA4 agrees exactly when those features agree. */
  lemma {:induction false} JA4Exact(trunc12: string -> string, f: Fingerprint, g: Fingerprint)
    requires Distinguishes(trunc12, PartB(f), PartB(g)) && Distinguishes(trunc12, PartC(f), PartC(g))
    ensures JA4(trunc12, f) == JA4(trunc12, g) <==> JA4KeyOf(f) == JA4KeyOf(g)
  {
    JA4TextExact(f, g);
    if JA4(trunc12, f) == JA4(trunc12, g) {
      PartAExact(f, g);
      PartAExact(g, f);
      Slices(PartA(f), Hashed(trunc12, PartB(f)), Hashed(trunc12, PartC(f)));
      Slices(PartA(g), Hashed(trunc12, PartB(g)), Hashed(trunc12, PartC(g)));
    }
  }

  // ---- GREASE and order ----

  lemma {:induction false} PlainConcat(a: seq<u16>, b: seq<u16>)
    ensures Plain(a + b) == Plain(a) + Plain(b)
  {
    if a == [] {
      assert a + b == b;
    } else {
      assert (a + b)[1..] == a[1..] + b;
      PlainConcat(a[1..], b);
    }
  }

  lemma {:induction false} PlainCount(vs: seq<u16>, v: u16)
    ensures multiset(Plain(vs))[v] == (if IsGrease(v) then 0 else multiset(vs)[v])
    ensures multiset(HashedExts(vs))[v] == (if IsHashed(v) then multiset(vs)[v] else 0)
  {
    if vs != [] {
      PlainCount(vs[1..], v);
      assert vs == [vs[0]] + vs[1..];
    }
  }

  /** The bag of hashed extensions is a function of the bag of non-GREASE extensions. */
  lemma {:induction false} PlainBagsSuffice(a: seq<u16>, b: seq<u16>)
    requires multiset(Plain(a)) == multiset(Plain(b))
    ensures multiset(HashedExts(a)) == multiset(HashedExts(b))
  {
    forall v: u16
      ensures multiset(HashedExts(a))[v] == multiset(HashedExts(b))[v]
    {
      PlainCount(a, v);
      PlainCount(b, v);
    }
  }

  lemma {:induction false} PermutedPlain(a: seq<u16>, b: seq<u16>)
    requires multiset(a) == multiset(b)
    ensures multiset(Plain(a)) == multiset(Plain(b))
  {
    forall v: u16
      ensures multiset(Plain(a))[v] == multiset(Plain(b))[v]
    {
      PlainCount(a, v);
      PlainCount(b, v);
    }
  }

  /** The same features up to GREASE and the order of ciphers and extensions. */
  predicate Alike(f: Fingerprint, g: Fingerprint) {
    && f.version == g.version && (f.sni == [] <==> g.sni == []) && (f.alpn == [] <==> g.alpn == [])
    && (f.alpn != [] ==> f.alpn[0] == g.alpn[0])
    && multiset(Plain(f.ciphers)) == multiset(Plain(g.ciphers)) && multiset(Plain(f.extensions)) == multiset(Plain(g.extensions))
    && Plain(f.sigAlgs) == Plain(g.sigAlgs)
  }

  /** JA4 depends on nothing else, whatever the hash. */
  lemma {:induction false} JA4DependsOnlyOn(trunc12: string -> string, f: Fingerprint, g: Fingerprint)
    requires Alike(f, g)
    ensures JA4(trunc12, f) == JA4(trunc12, g)
  {
    PlainBagsSuffice(f.extensions, g.extensions);
    BagSize(HashedExts(f.extensions), HashedExts(g.extensions));
    BagSize(Plain(f.extensions), Plain(g.extensions));
    assert JA4KeyOf(f) == JA4KeyOf(g);
    JA4TextExact(f, g);
  }
}
