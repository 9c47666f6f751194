/** From the wire to the fingerprint: where GREASE shows, that JA4 ignores the order of ciphers and
    extensions, and which version is decoded. */
module HelloInvariance {
  import opened Basics
  import opened ClientHello
  import opened HelloEncoding
  import opened HelloHashes
  import Ordering

  /** Every length fits its field, and the message fits one record. */
  predicate Sendable(h: Hello) {
    HelloFits(h) && |EncodeBody(h)| + 4 < 0x1_0000
  }

  /** The fingerprint a ClientHello arrives as. */
  predicate ArrivesAs(h: Hello, minor: byte, trailing: seq<byte>, f: Fingerprint)
    requires Sendable(h)
  {
    Decode(EncodeRecord(minor, EncodeBody(h)) + trailing) == Some(f)
  }

  // ---- GREASE ----

  /** The sixteen GREASE protocol names: two equal bytes whose word is a GREASE value. */
  predicate IsGreaseName(n: seq<byte>) {
    |n| == 2 && IsGrease(Word(n[0], n[1]))
  }

  function PlainNames(ns: seq<seq<byte>>): seq<seq<byte>> {
    if ns == [] then [] else (if IsGreaseName(ns[0]) then [] else [ns[0]]) + PlainNames(ns[1..])
  }

  /** An extension without the GREASE values of section 2 of RFC 8701: groups, signature algorithms, versions
      and protocol names. The payload of an extension the decoder does not look into goes altogether, and with
      it the GREASE in key shares and key exchange modes. */
  function EraseExt(e: Ext): Ext {
    match e
    case Groups(vs) => Groups(Plain(vs))
    case SigAlgs(vs) => SigAlgs(Plain(vs))
    case Versions(vs) => Versions(Plain(vs))
    case Alpn(ns) => Alpn(PlainNames(ns))
    case Other(typ, _) => Other(typ, [])
    case _ => e
  }

  function EraseExts(es: seq<Ext>): seq<Ext> {
    if es == [] then [] else (if IsGrease(TypeOf(es[0])) then [] else [EraseExt(es[0])]) + EraseExts(es[1..])
  }

  function ExtsOf(h: Hello): seq<Ext> {
    if h.extensions.None? then [] else h.extensions.value
  }

  /** Everything but the unused random, session and compression bytes and payloads, GREASE removed. */
  datatype Offer = Offer(legacyVersion: u16, ciphers: seq<u16>, extensions: seq<Ext>)

  function Erase(h: Hello): Offer {
    Offer(h.legacyVersion, Plain(h.ciphers), EraseExts(ExtsOf(h)))
  }

  function Cleaned(f: Fingerprint): Fingerprint {
    f.(ciphers := Plain(f.ciphers), extensions := Plain(f.extensions), curves := Plain(f.curves), sigAlgs := Plain(f.sigAlgs),
       alpn := PlainNames(f.alpn))
  }

  lemma {:induction false} PlainTwice(vs: seq<u16>)
    ensures Plain(Plain(vs)) == Plain(vs)
  {
    if vs != [] {
      PlainTwice(vs[1..]);
      PlainConcat(if IsGrease(vs[0]) then [] else [vs[0]], Plain(vs[1..]));
      assert [vs[0]][1..] == [];
    }
  }

  lemma {:induction false} PlainNamesConcat(a: seq<seq<byte>>, b: seq<seq<byte>>)
    ensures PlainNames(a + b) == PlainNames(a) + PlainNames(b)
  {
    if a == [] {
      assert a + b == b;
    } else {
      assert (a + b)[1..] == a[1..] + b;
      PlainNamesConcat(a[1..], b);
    }
  }

  lemma {:induction false} HighestPlain(start: u16, vs: seq<u16>)
    ensures Highest(start, Plain(vs)) == Highest(start, vs)
    decreases |vs|
  {
    if vs != [] {
      if IsGrease(vs[0]) {
        HighestPlain(start, vs[1..]);
        assert Plain(vs) == Plain(vs[1..]);
      } else {
        HighestPlain(if vs[0] > start then vs[0] else start, vs[1..]);
        assert Plain(vs)[1..] == Plain(vs[1..]);
      }
    }
  }

  lemma {:induction false} CleanedFields(f: Fingerprint, e: Ext)
    ensures Cleaned(Told(f, e)).(extensions := []) == Told(Cleaned(f), EraseExt(e)).(extensions := [])
  {
    match e
    case ServerName(_) =>
    case Groups(vs) => PlainConcat(f.curves, vs);
    case PointFormats(_) =>
    case SigAlgs(vs) => PlainConcat(f.sigAlgs, vs);
    case Versions(vs) => HighestPlain(f.version, vs);
    case Alpn(ns) => PlainNamesConcat(f.alpn, ns);
    case Other(_, _) =>
  }

  lemma {:induction false} CleanedTypes(f: Fingerprint, e: Ext)
    ensures Cleaned(Told(f, e)).extensions == Plain(f.extensions) + if IsGrease(TypeOf(e)) then [] else [TypeOf(e)]
    ensures Told(Cleaned(f), EraseExt(e)).extensions == Plain(f.extensions) + [TypeOf(e)]
  {
    ToldType(f, e);
    ToldType(Cleaned(f), EraseExt(e));
    PlainConcat(f.extensions, [TypeOf(e)]);
    assert [TypeOf(e)][1..] == [];
  }

  lemma {:induction false} CleanedTold(f: Fingerprint, e: Ext)
    ensures Cleaned(Told(f, e)) == if IsGrease(TypeOf(e)) then Cleaned(f) else Told(Cleaned(f), EraseExt(e))
  {
    CleanedFields(f, e);
    CleanedTypes(f, e);
    var x, y := Cleaned(Told(f, e)), Told(Cleaned(f), EraseExt(e));
    assert x == x.(extensions := []).(extensions := x.extensions);
    assert y == y.(extensions := []).(extensions := y.extensions);
    if IsGrease(TypeOf(e)) {
      assert e.Other?;
      assert Plain(f.extensions) + [] == Plain(f.extensions);
    }
  }

  lemma {:induction false} CleanedToldAll(f: Fingerprint, es: seq<Ext>)
    ensures Cleaned(ToldAll(f, es)) == ToldAll(Cleaned(f), EraseExts(es))
    decreases |es|
  {
    if es != [] {
      CleanedTold(f, es[0]);
      CleanedToldAll(Told(f, es[0]), es[1..]);
      if IsGrease(TypeOf(es[0])) {
        assert EraseExts(es) == EraseExts(es[1..]);
      } else {
        assert EraseExts(es)[1..] == EraseExts(es[1..]);
      }
    }
  }

  /** Two messages that differ only in GREASE arrive as fingerprints that do. */
  lemma {:induction false} SameWhenCleaned(
    h: Hello, g: Hello, m: byte, n: byte, s: seq<byte>, t: seq<byte>, a: Fingerprint, b: Fingerprint)
    requires Sendable(h) && Sendable(g) && ArrivesAs(h, m, s, a) && ArrivesAs(g, n, t, b)
    requires Erase(h) == Erase(g)
    ensures Cleaned(a) == Cleaned(b) && a.alpn == NamesOf(ExtsOf(h)) && b.alpn == NamesOf(ExtsOf(g))
  {
    DecodeInvertsEncode(h, m, s);
    DecodeInvertsEncode(g, n, t);
    CleanedToldAll(Blank(h.legacyVersion, h.ciphers), ExtsOf(h));
    CleanedToldAll(Blank(g.legacyVersion, g.ciphers), ExtsOf(g));
    assert a == ToldAll(Blank(h.legacyVersion, h.ciphers), ExtsOf(h));
    assert b == ToldAll(Blank(g.legacyVersion, g.ciphers), ExtsOf(g));
    NamesToldAll(Blank(h.legacyVersion, h.ciphers), ExtsOf(h));
    NamesToldAll(Blank(g.legacyVersion, g.ciphers), ExtsOf(g));
  }

  lemma {:induction false} CleanedJA3(a: Fingerprint, b: Fingerprint)
    requires Cleaned(a) == Cleaned(b)
    ensures JA3(a) == JA3(b)
  {
    JA3Exact(a, b);
  }

  /** JA4 sees GREASE only through the first protocol name, which `computeHashes` does not filter. */
  lemma {:induction false} CleanedJA4(trunc12: string -> string, a: Fingerprint, b: Fingerprint)
    requires Cleaned(a) == Cleaned(b)
    ensures JA4(trunc12, a) == JA4(trunc12, b) <==> AlpnCode(a.alpn) == AlpnCode(b.alpn)
  {
    assert a.version == b.version && a.sni == b.sni && Plain(a.ciphers) == Plain(b.ciphers);
    assert Plain(a.extensions) == Plain(b.extensions) && Plain(a.sigAlgs) == Plain(b.sigAlgs);
    PartAExact(a, b);
    PartAExact(b, a);
    PlainBagsSuffice(a.extensions, b.extensions);
    BagSize(HashedExts(a.extensions), HashedExts(b.extensions));
    PartBExact(a, b);
    PartCExact(a, b);
    if JA4(trunc12, a) == JA4(trunc12, b) {
      assert JA4(trunc12, a)[..10] == PartA(a) && JA4(trunc12, b)[..10] == PartA(b);
    }
  }

  /** Two ClientHellos that differ only in GREASE values (and in the random, session, compression and trailing
      bytes and in payloads the decoder does not look into) arrive with the same JA3. They arrive with the
      same JA4 exactly when their first protocol names have the same code. */
  lemma {:induction false} GreaseIsInvisible(
    trunc12: string -> string, h: Hello, g: Hello, m: byte, n: byte, s: seq<byte>, t: seq<byte>, a: Fingerprint, b: Fingerprint)
    requires Sendable(h) && Sendable(g) && ArrivesAs(h, m, s, a) && ArrivesAs(g, n, t, b)
    requires Erase(h) == Erase(g)
    ensures JA3(a) == JA3(b)
    ensures JA4(trunc12, a) == JA4(trunc12, b) <==> AlpnCode(NamesOf(ExtsOf(h))) == AlpnCode(NamesOf(ExtsOf(g)))
  {
    SameWhenCleaned(h, g, m, n, s, t, a, b);
    CleanedJA3(a, b);
    CleanedJA4(trunc12, a, b);
  }

  /** A message whose one extension offers the given protocol names. */
  function Offering(names: seq<seq<byte>>): Hello {
    Hello(0x0303, seq(32, _ => 0), [], [0x1301], [0], Some([Alpn(names)]))
  }

  predicate ShortNames(names: seq<seq<byte>>) {
    (forall i :: 0 <= i < |names| ==> |names[i]| < 0x100) && |Names(names)| < 0x1000
  }

  lemma {:induction false} OfferingSendable(names: seq<seq<byte>>)
    requires ShortNames(names)
    ensures Sendable(Offering(names))
  {
    var h, e := Offering(names), Alpn(names);
    assert Fits(e) && |Payload(e)| == 2 + |Names(names)|;
    assert [e][1..] == [] && EncodeExts([e]) == EncodeExt(e) + EncodeExts([]);
    assert |EncodeExts([e])| == 6 + |Names(names)|;
    assert HelloFits(h) && |ExtBlock(h)| == 8 + |Names(names)|;
    assert |Words(h.ciphers)| == 2;
  }

  lemma {:induction false} OfferingNames(names: seq<seq<byte>>)
    ensures NamesOf(ExtsOf(Offering(names))) == names
    ensures EraseExts(ExtsOf(Offering(names))) == [Alpn(PlainNames(names))]
  {
    var es := [Alpn(names)];
    assert es[1..] == [] && NamesOf(es) == names + NamesOf([]);
    assert EraseExts(es) == [Alpn(PlainNames(names))] + EraseExts([]);
  }

  /** A GREASE name in front of the others. */
  function GreaseFirst(names: seq<seq<byte>>): seq<seq<byte>> {
    [[0x0a, 0x0a]] + names
  }

  lemma {:induction false} GreaseFirstErased(names: seq<seq<byte>>)
    ensures PlainNames(GreaseFirst(names)) == PlainNames(names)
    ensures AlpnCode(GreaseFirst(names)) == [10 as char, 10 as char]
  {
    var more := GreaseFirst(names);
    assert more[0] == [0x0a, 0x0a] && more[1..] == names;
    assert IsGreaseName(more[0]);
  }

  lemma {:induction false} OfferingsErased(names: seq<seq<byte>>)
    ensures Erase(Offering(GreaseFirst(names))) == Erase(Offering(names))
  {
    OfferingNames(names);
    OfferingNames(GreaseFirst(names));
    GreaseFirstErased(names);
  }

  lemma {:induction false} OfferingArrives(names: seq<seq<byte>>)
    requires ShortNames(names)
    ensures Sendable(Offering(names)) && ArrivesAs(Offering(names), 1, [], Contents(Offering(names)))
  {
    OfferingSendable(names);
    DecodeInvertsEncode(Offering(names), 1, []);
  }

  /** GREASE does show in JA4: a GREASE name before the others is invisible only if they already begin with
      a name of the same first and last byte. */
  lemma {:induction false} GreaseNameFirst(trunc12: string -> string, names: seq<seq<byte>>)
    requires ShortNames(names) && ShortNames(GreaseFirst(names))
    ensures var f, g := Contents(Offering(names)), Contents(Offering(GreaseFirst(names)));
            && JA3(f) == JA3(g)
            && (JA4(trunc12, f) == JA4(trunc12, g) <==> AlpnCode(names) == [10 as char, 10 as char])
  {
    var more := GreaseFirst(names);
    OfferingArrives(names);
    OfferingArrives(more);
    OfferingsErased(names);
    OfferingNames(names);
    OfferingNames(more);
    GreaseFirstErased(names);
    GreaseIsInvisible(trunc12, Offering(names), Offering(more), 1, 1, [], [], Contents(Offering(names)), Contents(Offering(more)));
  }

  /** So a GREASE name before `h2` changes JA4, whatever the hash. */
  lemma {:induction false} GreaseNameShows(trunc12: string -> string)
    ensures JA4(trunc12, Contents(Offering([[0x68, 0x32]]))) != JA4(trunc12, Contents(Offering([[0x0a, 0x0a], [0x68, 0x32]])))
  {
    var names: seq<seq<byte>> := [[0x68, 0x32]];
    var more := GreaseFirst(names);
    assert more == [[0x0a, 0x0a], [0x68, 0x32]];
    assert names[1..] == [] && Names(names) == [2] + names[0] + [];
    assert more[1..] == names && Names(more) == [2] + more[0] + Names(names);
    assert AlpnCode(names)[0] != 10 as char;
    GreaseNameFirst(trunc12, names);
  }

  // ---- Version ----

  /** The versions offered in supported_versions, GREASE left out. */
  function Offered(h: Hello): seq<u16> {
    Plain(VersionsOf(ExtsOf(h)))
  }

  /** What the field is documented to hold: the highest offered version, else the legacy version. */
  predicate IsDocumented(h: Hello, v: u16) {
    if Offered(h) == [] then v == h.legacyVersion
    else v in Offered(h) && forall x :: x in Offered(h) ==> x <= v
  }

  lemma {:induction false} PlainHasNoGrease(vs: seq<u16>, v: u16)
    requires v in Plain(vs)
    ensures !IsGrease(v)
  {
    if v in Plain(vs[1..]) {
      PlainHasNoGrease(vs[1..], v);
    }
  }

  lemma {:induction false} DecodedVersion(h: Hello)
    ensures Contents(h).version == Highest(h.legacyVersion, Offered(h))
  {
    ContentsOf(h, ExtsOf(h));
    HighestPlain(h.legacyVersion, VersionsOf(ExtsOf(h)));
  }

  /** The decoded version is the documented one exactly when no version is offered or some offered
      version is at least the legacy version. */
  lemma {:induction false} VersionDocumentedIff(h: Hello)
    ensures IsDocumented(h, Contents(h).version) <==> Offered(h) == [] || exists v :: v in Offered(h) && v >= h.legacyVersion
  {
    DecodedVersion(h);
    var vs := Offered(h);
    var top := Highest(h.legacyVersion, vs);
    forall x | x in vs
      ensures x <= top
    {
      PlainHasNoGrease(VersionsOf(ExtsOf(h)), x);
    }
    assert vs != [] ==> vs[0] in vs;
  }

  /** A client that offers only TLS 1.0 under a legacy version of TLS 1.2 is decoded as TLS 1.2. */
  lemma {:induction false} LowOfferIsHidden()
    ensures var h := Hello(0x0303, seq(32, _ => 0), [], [0x1301], [0], Some([Versions([0x0301])]));
            Contents(h).version == 0x0303 && !IsDocumented(h, Contents(h).version)
  {
    var h := Hello(0x0303, seq(32, _ => 0), [], [0x1301], [0], Some([Versions([0x0301])]));
    var es: seq<Ext> := [Versions([0x0301])];
    assert es[1..] == [] && VersionsOf(es) == [0x0301] + VersionsOf([]);
    var vs: seq<u16> := [0x0301];
    assert vs[1..] == [] && Plain(vs) == [0x0301] + Plain([]);
    assert Offered(h) == vs;
    DecodedVersion(h);
  }

  // ---- Order ----

  /** Equal but for the order of ciphers and extension types. */
  predicate SameBags(f: Fingerprint, g: Fingerprint) {
    && f == g.(ciphers := f.ciphers, extensions := f.extensions)
    && multiset(f.ciphers) == multiset(g.ciphers) && multiset(f.extensions) == multiset(g.extensions)
  }

  /** The extensions of one type, in order. */
  function OfType(es: seq<Ext>, t: u16): seq<Ext> {
    if es == [] then [] else (if TypeOf(es[0]) == t then [es[0]] else []) + OfType(es[1..], t)
  }

  /** A permutation that keeps the order of extensions of one type. */
  ghost predicate Rearranged(es: seq<Ext>, ds: seq<Ext>) {
    forall t :: OfType(es, t) == OfType(ds, t)
  }

  /** As section 4.2 of RFC 8446 demands: at most one extension of each type. */
  predicate OnePerType(es: seq<Ext>) {
    forall i, j :: 0 <= i < j < |es| ==> TypeOf(es[i]) != TypeOf(es[j])
  }

  lemma {:induction false} ToldKeepsSameBags(f: Fingerprint, g: Fingerprint, e: Ext)
    requires SameBags(f, g)
    ensures SameBags(Told(f, e), Told(g, e))
  {
  }

  lemma {:induction false} ToldAllKeepsSameBags(f: Fingerprint, g: Fingerprint, es: seq<Ext>)
    requires SameBags(f, g)
    ensures SameBags(ToldAll(f, es), ToldAll(g, es))
    decreases |es|
  {
    if es != [] {
      ToldKeepsSameBags(f, g, es[0]);
      ToldAllKeepsSameBags(Told(f, es[0]), Told(g, es[0]), es[1..]);
    }
  }

  lemma {:induction false} ToldType(f: Fingerprint, e: Ext)
    ensures Told(f, e).extensions == f.extensions + [TypeOf(e)]
  {
  }

  lemma {:induction false} ToldTypes(f: Fingerprint, d: Ext, e: Ext)
    ensures Told(Told(f, d), e).extensions == f.extensions + [TypeOf(d), TypeOf(e)]
    ensures multiset(Told(Told(f, d), e).extensions) == multiset(f.extensions) + multiset{TypeOf(d), TypeOf(e)}
  {
    ToldType(f, d);
    ToldType(Told(f, d), e);
    assert f.extensions + [TypeOf(d)] + [TypeOf(e)] == f.extensions + [TypeOf(d), TypeOf(e)];
  }

  lemma {:induction false} FieldsCommute(f: Fingerprint, d: Ext, e: Ext)
    requires Fits(d) && Fits(e) && TypeOf(d) != TypeOf(e)
    ensures Told(Told(f, d), e).(extensions := []) == Told(Told(f, e), d).(extensions := [])
  {
    match d
    case ServerName(_) =>
    case Groups(_) =>
    case PointFormats(_) =>
    case SigAlgs(_) =>
    case Alpn(_) =>
    case Versions(_) =>
    case Other(_, _) =>
  }

  lemma {:induction false} ToldCommutes(f: Fingerprint, d: Ext, e: Ext)
    requires Fits(d) && Fits(e) && TypeOf(d) != TypeOf(e)
    ensures SameBags(Told(Told(f, d), e), Told(Told(f, e), d))
  {
    var x, y := Told(Told(f, d), e), Told(Told(f, e), d);
    ToldTypes(f, d, e);
    ToldTypes(f, e, d);
    FieldsCommute(f, d, e);
    assert x.(extensions := []).ciphers == y.(extensions := []).ciphers;
    assert x == x.(extensions := []).(extensions := x.extensions);
  }

  /** No extension before the `k`-th has its type. */
  predicate FirstOfType(es: seq<Ext>, k: nat)
    requires k < |es|
  {
    forall i :: 0 <= i < k ==> TypeOf(es[i]) != TypeOf(es[k])
  }

  /** Such an extension may be told first. */
  lemma {:induction false} ToldFirst(f: Fingerprint, es: seq<Ext>, k: nat)
    requires k < |es| && AllFit(es) && FirstOfType(es, k)
    ensures SameBags(ToldAll(f, es), ToldAll(Told(f, es[k]), es[..k] + es[k + 1..]))
    decreases k
  {
    if k == 0 {
      assert es[..0] + es[1..] == es[1..];
    } else {
      var rest := es[..k] + es[k + 1..];
      assert rest[1..] == es[1..][..k - 1] + es[1..][k..];
      ToldFirst(Told(f, es[0]), es[1..], k - 1);
      ToldCommutes(f, es[0], es[k]);
      ToldAllKeepsSameBags(Told(Told(f, es[0]), es[k]), Told(Told(f, es[k]), es[0]), rest[1..]);
    }
  }

  lemma {:induction false} OfTypeConcat(a: seq<Ext>, b: seq<Ext>, t: u16)
    ensures OfType(a + b, t) == OfType(a, t) + OfType(b, t)
  {
    if a == [] {
      assert a + b == b;
    } else {
      assert (a + b)[0] == a[0] && (a + b)[1..] == a[1..] + b;
      OfTypeConcat(a[1..], b, t);
      var x := if TypeOf(a[0]) == t then [a[0]] else [];
      assert OfType(a + b, t) == x + (OfType(a[1..], t) + OfType(b, t));
      assert OfType(a, t) == x + OfType(a[1..], t);
    }
  }

  lemma {:induction false} NoneOfType(es: seq<Ext>, t: u16)
    requires forall i :: 0 <= i < |es| ==> TypeOf(es[i]) != t
    ensures OfType(es, t) == []
  {
    if es != [] {
      NoneOfType(es[1..], t);
    }
  }

  /** Where the first extension of a type stands. */
  lemma {:induction false} FindType(es: seq<Ext>, t: u16) returns (k: nat)
    requires OfType(es, t) != []
    ensures k < |es| && TypeOf(es[k]) == t && FirstOfType(es, k) && es[k] == OfType(es, t)[0]
    decreases |es|
  {
    k := 0;
    if TypeOf(es[0]) != t {
      var j := FindType(es[1..], t);
      k := j + 1;
    }
  }

  /** Taking it out leaves the other extensions in order. */
  lemma {:induction false} OfTypeWithout(es: seq<Ext>, k: nat, u: u16)
    requires k < |es| && FirstOfType(es, k)
    ensures OfType(es, u) == (if u == TypeOf(es[k]) then [es[k]] else []) + OfType(es[..k] + es[k + 1..], u)
  {
    var t := TypeOf(es[k]);
    assert es == es[..k] + ([es[k]] + es[k + 1..]);
    OfTypeConcat(es[..k], [es[k]] + es[k + 1..], u);
    OfTypeConcat([es[k]], es[k + 1..], u);
    OfTypeConcat(es[..k], es[k + 1..], u);
    assert [es[k]][1..] == [];
    if u == t {
      NoneOfType(es[..k], t);
    }
  }

  lemma {:induction false} RestRearranged(es: seq<Ext>, ds: seq<Ext>, k: nat)
    requires Rearranged(es, ds) && ds != [] && k < |es| && FirstOfType(es, k) && es[k] == ds[0]
    ensures Rearranged(es[..k] + es[k + 1..], ds[1..])
  {
    forall u
      ensures OfType(es[..k] + es[k + 1..], u) == OfType(ds[1..], u)
    {
      OfTypeWithout(es, k, u);
      assert OfType(es, u) == OfType(ds, u);
      var a, b := OfType(es[..k] + es[k + 1..], u), OfType(ds[1..], u);
      if u == TypeOf(ds[0]) {
        assert [ds[0]] + a == [ds[0]] + b;
        assert a == ([ds[0]] + a)[1..] && b == ([ds[0]] + b)[1..];
      } else {
        assert [] + a == a && [] + b == b;
      }
    }
  }

  lemma {:induction false} RearrangedEmpty(es: seq<Ext>)
    requires Rearranged(es, [])
    ensures es == []
  {
    if es != [] {
      HeadOfType(es);
    }
  }

  lemma {:induction false} HeadOfType(es: seq<Ext>)
    requires es != []
    ensures OfType(es, TypeOf(es[0])) != []
  {
  }

  /** Rearranged extensions tell the same, up to the order of their types. */
  lemma {:induction false} ToldPermuted(f: Fingerprint, es: seq<Ext>, ds: seq<Ext>)
    requires Rearranged(es, ds) && AllFit(es)
    ensures SameBags(ToldAll(f, es), ToldAll(f, ds))
    decreases |ds|
  {
    if ds == [] {
      RearrangedEmpty(es);
    } else {
      assert OfType(es, TypeOf(ds[0])) == OfType(ds, TypeOf(ds[0]));
      var k := FindType(es, TypeOf(ds[0]));
      var rest := es[..k] + es[k + 1..];
      assert AllFit(rest);
      ToldFirst(f, es, k);
      RestRearranged(es, ds, k);
      ToldPermuted(Told(f, ds[0]), rest, ds[1..]);
    }
  }

  lemma {:induction false} OfTypeMembers(es: seq<Ext>, t: u16, e: Ext)
    ensures e in OfType(es, t) <==> e in es && TypeOf(e) == t
  {
    if es != [] {
      OfTypeMembers(es[1..], t, e);
      assert e in es <==> e == es[0] || e in es[1..];
    }
  }

  lemma {:induction false} OfTypeOnce(es: seq<Ext>, t: u16)
    requires OnePerType(es)
    ensures |OfType(es, t)| <= 1
  {
    if es != [] {
      OfTypeOnce(es[1..], t);
      if TypeOf(es[0]) == t {
        NoneOfType(es[1..], t);
      }
    }
  }

  /** With one extension of each type, every permutation is such a rearrangement. */
  lemma {:induction false} PermutationsRearrange(es: seq<Ext>, ds: seq<Ext>)
    requires multiset(es) == multiset(ds) && OnePerType(es) && OnePerType(ds)
    ensures Rearranged(es, ds)
  {
    forall t
      ensures OfType(es, t) == OfType(ds, t)
    {
      OfTypeOnce(es, t);
      OfTypeOnce(ds, t);
      forall e
        ensures e in OfType(es, t) <==> e in OfType(ds, t)
      {
        OfTypeMembers(es, t, e);
        OfTypeMembers(ds, t, e);
        assert e in es <==> e in multiset(es);
        assert e in ds <==> e in multiset(ds);
      }
      assert OfType(es, t) != [] ==> OfType(es, t)[0] in OfType(ds, t);
      assert OfType(ds, t) != [] ==> OfType(ds, t)[0] in OfType(es, t);
    }
  }

  lemma {:induction false} SameBagsAlike(trunc12: string -> string, f: Fingerprint, g: Fingerprint)
    requires SameBags(f, g)
    ensures JA4(trunc12, f) == JA4(trunc12, g)
  {
    PermutedPlain(f.ciphers, g.ciphers);
    PermutedPlain(f.extensions, g.extensions);
    JA4DependsOnlyOn(trunc12, f, g);
  }

  /** Two ClientHellos whose ciphers are permuted and whose extensions are rearranged, those of one type in
      the same order, arrive with the same JA4. */
  lemma {:induction false} OrderIsInvisible(
    trunc12: string -> string, h: Hello, g: Hello, m: byte, n: byte, s: seq<byte>, t: seq<byte>, a: Fingerprint, b: Fingerprint)
    requires Sendable(h) && Sendable(g) && ArrivesAs(h, m, s, a) && ArrivesAs(g, n, t, b)
    requires h.legacyVersion == g.legacyVersion && multiset(h.ciphers) == multiset(g.ciphers)
    requires Rearranged(ExtsOf(h), ExtsOf(g))
    ensures JA4(trunc12, a) == JA4(trunc12, b)
  {
    DecodeInvertsEncode(h, m, s);
    DecodeInvertsEncode(g, n, t);
    var x, y := Blank(h.legacyVersion, h.ciphers), Blank(g.legacyVersion, g.ciphers);
    assert a == ToldAll(x, ExtsOf(h)) && b == ToldAll(y, ExtsOf(g));
    ToldPermuted(x, ExtsOf(h), ExtsOf(g));
    ToldAllKeepsSameBags(x, y, ExtsOf(g));
    SameBagsAlike(trunc12, a, ToldAll(x, ExtsOf(g)));
    SameBagsAlike(trunc12, ToldAll(x, ExtsOf(g)), b);
  }
}
