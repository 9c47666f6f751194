/** The wire encoding of a ClientHello and the proof that the decoder inverts it, plus
    what the decoder guarantees on arbitrary bytes. */
module HelloEncoding {
  import opened Basics
  import opened ClientHello

  /** The extensions the decoder looks into, and any other. Section 3 of RFC 6066 (server_name),
      section 4.2.7 of RFC 8446 (supported_groups), section 5.1.2 of RFC 8422 (ec_point_formats),
      section 4.2.3 of RFC 8446 (signature_algorithms), section 3.1 of RFC 7301 (ALPN) and
      section 4.2.1 of RFC 8446 (supported_versions). */
  datatype Ext =
    | ServerName(host: seq<byte>)
    | Groups(groups: seq<u16>)
    | PointFormats(formats: seq<byte>)
    | SigAlgs(algs: seq<u16>)
    | Alpn(names: seq<seq<byte>>)
    | Versions(versions: seq<u16>)
    | Other(typ: u16, data: seq<byte>)

  datatype Hello = Hello(
    legacyVersion: u16, random: seq<byte>, sessionId: seq<byte>, ciphers: seq<u16>, compression: seq<byte>,
    extensions: Option<seq<Ext>>)

  // ---- Encoding ----

  function Words(vs: seq<u16>): (r: seq<byte>)
    ensures |r| == 2 * |vs|
  {
    if vs == [] then [] else Word16(vs[0]) + Words(vs[1..])
  }

  function Names(ns: seq<seq<byte>>): seq<byte>
    requires forall i :: 0 <= i < |ns| ==> |ns[i]| < 0x100
  {
    if ns == [] then [] else [|ns[0]|] + ns[0] + Names(ns[1..])
  }

  function TypeOf(e: Ext): u16 {
    match e
    case ServerName(_) => 0x0000
    case Groups(_) => 0x000a
    case PointFormats(_) => 0x000b
    case SigAlgs(_) => 0x000d
    case Alpn(_) => 0x0010
    case Versions(_) => 0x002b
    case Other(t, _) => t
  }

  predicate IsKnown(t: u16) {
    t == 0x0000 || t == 0x000a || t == 0x000b || t == 0x000d || t == 0x0010 || t == 0x002b
  }

  /** Every length fits its field. */
  predicate Fits(e: Ext) {
    match e
    case ServerName(h) => |h| + 5 < 0x1_0000
    case Groups(vs) => 2 * |vs| + 2 < 0x1_0000
    case PointFormats(fs) => |fs| < 0x100
    case SigAlgs(vs) => 2 * |vs| + 2 < 0x1_0000
    case Alpn(ns) => (forall i :: 0 <= i < |ns| ==> |ns[i]| < 0x100) && |Names(ns)| + 2 < 0x1_0000
    case Versions(vs) => 2 * |vs| < 0x100
    case Other(t, d) => !IsKnown(t) && |d| < 0x1_0000
  }

  function Payload(e: Ext): (r: seq<byte>)
    requires Fits(e)
    ensures |r| < 0x1_0000
  {
    match e
    case ServerName(h) => Word16(|h| + 3) + ([0] + (Word16(|h|) + h))
    case Groups(vs) => Word16(2 * |vs|) + Words(vs)
    case PointFormats(fs) => [|fs|] + fs
    case SigAlgs(vs) => Word16(2 * |vs|) + Words(vs)
    case Alpn(ns) => Word16(|Names(ns)|) + Names(ns)
    case Versions(vs) => [2 * |vs|] + Words(vs)
    case Other(_, d) => d
  }

  function EncodeExt(e: Ext): seq<byte>
    requires Fits(e)
  {
    Word16(TypeOf(e)) + (Word16(|Payload(e)|) + Payload(e))
  }

  predicate AllFit(es: seq<Ext>) {
    forall i :: 0 <= i < |es| ==> Fits(es[i])
  }

  function EncodeExts(es: seq<Ext>): seq<byte>
    requires AllFit(es)
  {
    if es == [] then [] else EncodeExt(es[0]) + EncodeExts(es[1..])
  }

  predicate HelloFits(h: Hello) {
    && |h.random| == 32 && |h.sessionId| < 0x100 && 2 * |h.ciphers| < 0x1_0000 && |h.compression| < 0x100
    && (h.extensions.Some? ==> AllFit(h.extensions.value) && |EncodeExts(h.extensions.value)| < 0x1_0000)
  }

  function ExtBlock(h: Hello): seq<byte>
    requires HelloFits(h)
  {
    if h.extensions.None? then [] else Word16(|EncodeExts(h.extensions.value)|) + EncodeExts(h.extensions.value)
  }

  /** The parts of a handshake body; `tail` is what stands behind the compression methods. */
  datatype Parts = Parts(
    legacy: u16, random: seq<byte>, sessionId: seq<byte>, ciphers: seq<byte>, compression: seq<byte>, tail: seq<byte>)

  predicate PartsFit(p: Parts) {
    |p.random| == 32 && |p.sessionId| < 0x100 && |p.ciphers| < 0x1_0000 && |p.compression| < 0x100
  }

  function OpeningBytes(legacy: u16, random: seq<byte>, sessionId: seq<byte>, rest: seq<byte>): seq<byte>
    requires |sessionId| < 0x100
  {
    Word16(legacy) + (random + ([|sessionId|] + (sessionId + rest)))
  }

  function SuiteBytes(ciphers: seq<byte>, compression: seq<byte>, tail: seq<byte>): seq<byte>
    requires |ciphers| < 0x1_0000 && |compression| < 0x100
  {
    Word16(|ciphers|) + (ciphers + ([|compression|] + (compression + tail)))
  }

  function BodyBytes(p: Parts): seq<byte>
    requires PartsFit(p)
  {
    OpeningBytes(p.legacy, p.random, p.sessionId, SuiteBytes(p.ciphers, p.compression, p.tail))
  }

  function PartsOf(h: Hello): (p: Parts)
    requires HelloFits(h)
    ensures PartsFit(p)
  {
    Parts(h.legacyVersion, h.random, h.sessionId, Words(h.ciphers), h.compression, ExtBlock(h))
  }

  function EncodeBody(h: Hello): seq<byte>
    requires HelloFits(h)
  {
    BodyBytes(PartsOf(h))
  }

  function Word24(v: nat): (r: seq<byte>)
    requires v < 0x100_0000
    ensures |r| == 3
  {
    [v / 65536, v / 256 % 256, v % 256]
  }

  function Handshake(body: seq<byte>): (hs: seq<byte>)
    requires |body| + 4 < 0x1_0000
    ensures |hs| == |body| + 4
  {
    [0x01] + (Word24(|body|) + body)
  }

  /** A handshake message in one TLS record. */
  function EncodeRecord(minor: byte, body: seq<byte>): seq<byte>
    requires |body| + 4 < 0x1_0000
  {
    [0x16, 0x03, minor] + (Word16(|body| + 4) + Handshake(body))
  }

  // ---- What a ClientHello says ----

  /** One extension's contribution, read off the message itself. */
  function Told(f: Fingerprint, e: Ext): Fingerprint {
    var g := f.(extensions := f.extensions + [TypeOf(e)]);
    match e
    case ServerName(h) => g.(sni := h)
    case Groups(vs) => g.(curves := g.curves + vs)
    case PointFormats(fs) => g.(pointFormats := g.pointFormats + fs)
    case SigAlgs(vs) => g.(sigAlgs := g.sigAlgs + vs)
    case Alpn(ns) => g.(alpn := g.alpn + ns)
    case Versions(vs) => g.(version := Highest(g.version, vs))
    case Other(_, _) => g
  }

  function ToldAll(f: Fingerprint, es: seq<Ext>): Fingerprint
    decreases |es|
  {
    if es == [] then f else ToldAll(Told(f, es[0]), es[1..])
  }

  function Contents(h: Hello): Fingerprint {
    var f := Blank(h.legacyVersion, h.ciphers);
    if h.extensions.None? then f else ToldAll(f, h.extensions.value)
  }

  // ---- Reading back ----

  lemma {:induction false} ReadWord(v: u16, rest: seq<byte>, err: bool)
    ensures U16(Cur(Word16(v) + rest, err)) == (v, Cur(rest, err))
  {
    assert (Word16(v) + rest)[2..] == rest;
  }

  lemma {:induction false} ReadByte(v: byte, rest: seq<byte>, err: bool)
    ensures U8(Cur([v] + rest, err)) == (v, Cur(rest, err))
  {
    assert ([v] + rest)[1..] == rest;
  }

  lemma {:induction false} ReadRest(x: seq<byte>, rest: seq<byte>, err: bool)
    ensures Rest(Cur(x + rest, err), |x|) == (x, Cur(rest, err)) && Skip(Cur(x + rest, err), |x|) == Cur(rest, err)
  {
    assert (x + rest)[..|x|] == x && (x + rest)[|x|..] == rest;
  }

  lemma {:induction false} ReadWords(vs: seq<u16>)
    ensures U16List(Words(vs)) == vs
  {
    if vs != [] {
      ReadWords(vs[1..]);
      var b := Words(vs);
      assert b == Word16(vs[0]) + Words(vs[1..]);
      assert b[2..] == Words(vs[1..]) && Word(b[0], b[1]) == vs[0];
    }
  }

  lemma {:induction false} ReadNames(ns: seq<seq<byte>>)
    requires forall i :: 0 <= i < |ns| ==> |ns[i]| < 0x100
    ensures NameList(Names(ns)) == ns
  {
    if ns != [] {
      ReadNames(ns[1..]);
      var n, b, rest := |ns[0]|, Names(ns), Names(ns[1..]);
      assert b == [n] + ns[0] + rest;
      assert b[1..1 + n] == ns[0] && b[1 + n..] == rest;
    }
  }

  lemma {:induction false} ReadVec16(x: seq<byte>)
    requires |x| < 0x1_0000
    ensures Vec16(Word16(|x|) + x) == x
  {
    ReadWord(|x|, x, false);
    assert x + [] == x;
    ReadRest(x, [], false);
  }

  lemma {:induction false} ReadVec8(x: seq<byte>)
    requires |x| < 0x100
    ensures Vec8([|x|] + x) == x
  {
    ReadByte(|x|, x, false);
    assert x + [] == x;
    ReadRest(x, [], false);
  }

  lemma {:induction false} ReadHost(h: seq<byte>)
    requires |h| + 5 < 0x1_0000
    ensures HostName(Word16(|h| + 3) + ([0] + (Word16(|h|) + h))) == Some(h)
  {
    ReadRest(Word16(|h| + 3), [0] + (Word16(|h|) + h), false);
    ReadByte(0, Word16(|h|) + h, false);
    ReadWord(|h|, h, false);
    assert h + [] == h;
    ReadRest(h, [], false);
  }

  /** Reading an encoded extension tells exactly what it says. */
  lemma {:induction false} ReadExt(f: Fingerprint, e: Ext)
    requires Fits(e)
    ensures Apply(f, TypeOf(e), Payload(e)) == Told(f, e)
  {
    match e
    case ServerName(h) => ReadHost(h);
    case Groups(vs) => ReadVec16(Words(vs)); ReadWords(vs);
    case PointFormats(fs) => ReadVec8(fs);
    case SigAlgs(vs) => ReadVec16(Words(vs)); ReadWords(vs);
    case Alpn(ns) => ReadVec16(Names(ns)); ReadNames(ns);
    case Versions(vs) => ReadVec8(Words(vs)); ReadWords(vs);
    case Other(_, _) =>
  }

  lemma {:induction false} ExtensionStep(f: Fingerprint, typ: u16, data: seq<byte>, rest: seq<byte>)
    requires |data| < 0x1_0000
    ensures Extensions(f, Word16(typ) + (Word16(|data|) + data) + rest) == Extensions(Apply(f, typ, data), rest)
  {
    var b := Word16(typ) + (Word16(|data|) + data) + rest;
    assert Word(b[0], b[1]) == typ && Word(b[2], b[3]) == |data|;
    assert b[4..4 + |data|] == data && b[4 + |data|..] == rest;
  }

  lemma {:induction false} ReadExts(f: Fingerprint, es: seq<Ext>)
    requires AllFit(es)
    ensures Extensions(f, EncodeExts(es)) == ToldAll(f, es)
    decreases |es|
  {
    if es != [] {
      ExtensionStep(f, TypeOf(es[0]), Payload(es[0]), EncodeExts(es[1..]));
      ReadExt(f, es[0]);
      ReadExts(Told(f, es[0]), es[1..]);
    }
  }

  lemma {:induction false} ReadOpening(legacy: u16, random: seq<byte>, sessionId: seq<byte>, rest: seq<byte>)
    requires |random| == 32 && |sessionId| < 0x100
    ensures Opening(Cur(OpeningBytes(legacy, random, sessionId, rest), false)) == (legacy, Cur(rest, false))
  {
    var b2 := [|sessionId|] + (sessionId + rest);
    ReadWord(legacy, random + b2, false);
    ReadRest(random, b2, false);
    ReadByte(|sessionId|, sessionId + rest, false);
    ReadRest(sessionId, rest, false);
  }

  lemma {:induction false} ReadSuites(ciphers: seq<byte>, compression: seq<byte>, tail: seq<byte>)
    requires |ciphers| < 0x1_0000 && |compression| < 0x100
    ensures Suites(Cur(SuiteBytes(ciphers, compression, tail), false)) == (ciphers, Cur(tail, false))
  {
    var b2 := [|compression|] + (compression + tail);
    ReadWord(|ciphers|, ciphers + b2, false);
    ReadRest(ciphers, b2, false);
    ReadByte(|compression|, compression + tail, false);
    ReadRest(compression, tail, false);
  }

  /** The parts of a body are read as they were written. */
  lemma {:induction false} PartsRead(p: Parts)
    requires PartsFit(p)
    ensures FixedPart(BodyBytes(p)) == (p.legacy, p.ciphers, Cur(p.tail, false))
  {
    ReadOpening(p.legacy, p.random, p.sessionId, SuiteBytes(p.ciphers, p.compression, p.tail));
    ReadSuites(p.ciphers, p.compression, p.tail);
  }

  lemma {:induction false} ReadFixed(h: Hello)
    requires HelloFits(h)
    ensures FixedPart(EncodeBody(h)) == (h.legacyVersion, Words(h.ciphers), Cur(ExtBlock(h), false))
  {
    PartsRead(PartsOf(h));
  }

  lemma {:induction false} ReadBlock(h: Hello)
    requires HelloFits(h)
    ensures ExtensionBytes(Cur(ExtBlock(h), false)) == if h.extensions.Some? then EncodeExts(h.extensions.value) else []
  {
    if h.extensions.Some? {
      var x := EncodeExts(h.extensions.value);
      ReadWord(|x|, x, false);
      assert x + [] == x;
      ReadRest(x, [], false);
    }
  }

  lemma {:induction false} ReadBody(h: Hello)
    requires HelloFits(h)
    ensures Body(EncodeBody(h)) == Some(Contents(h))
  {
    ReadFixed(h);
    ReadWords(h.ciphers);
    ReadBlock(h);
    if h.extensions.Some? {
      ReadExts(Blank(h.legacyVersion, h.ciphers), h.extensions.value);
    }
  }

  lemma {:induction false} ReadLength16(v: nat)
    requires v < 0x1_0000
    ensures Len16(Word16(v)) == v
  {
  }

  lemma {:induction false} ReadLength24(v: nat)
    requires v < 0x100_0000
    ensures Len24(Word24(v)) == v
  {
    assert v / 65536 == v / 256 / 256;
  }

  lemma {:induction false} ReadHandshake(body: seq<byte>)
    requires |body| + 4 < 0x1_0000
    ensures var hs := Handshake(body);
            hs[0] == 0x01 && Len24(hs[1..4]) == |body| && hs[4..4 + |body|] == body
  {
    var hs := Handshake(body);
    assert hs[1..4] == Word24(|body|);
    ReadLength24(|body|);
    assert hs[4..4 + |body|] == body;
  }

  lemma {:induction false} ReadRecord(minor: byte, body: seq<byte>, trailing: seq<byte>)
    requires |body| + 4 < 0x1_0000
    ensures Unwrap(EncodeRecord(minor, body) + trailing) == Some(body)
  {
    var hs := Handshake(body);
    var rec := EncodeRecord(minor, body) + trailing;
    assert rec[3..5] == Word16(|hs|);
    ReadLength16(|hs|);
    assert rec[5..5 + |hs|] == hs;
    ReadHandshake(body);
  }

  /** Every well-formed ClientHello, whatever follows its record, decodes to exactly its contents. */
  lemma {:induction false} DecodeInvertsEncode(h: Hello, minor: byte, trailing: seq<byte>)
    requires HelloFits(h) && |EncodeBody(h)| + 4 < 0x1_0000
    ensures Decode(EncodeRecord(minor, EncodeBody(h)) + trailing) == Some(Contents(h))
  {
    ReadRecord(minor, EncodeBody(h), trailing);
    ReadBody(h);
  }

  // ---- The parts of the contents, read off the message ----

  function TypesOf(es: seq<Ext>): (r: seq<u16>)
    ensures |r| == |es|
  {
    if es == [] then [] else [TypeOf(es[0])] + TypesOf(es[1..])
  }

  function GroupsOf(es: seq<Ext>): seq<u16> {
    if es == [] then [] else (if es[0].Groups? then es[0].groups else []) + GroupsOf(es[1..])
  }

  function AlgsOf(es: seq<Ext>): seq<u16> {
    if es == [] then [] else (if es[0].SigAlgs? then es[0].algs else []) + AlgsOf(es[1..])
  }

  function FormatsOf(es: seq<Ext>): seq<byte> {
    if es == [] then [] else (if es[0].PointFormats? then es[0].formats else []) + FormatsOf(es[1..])
  }

  function NamesOf(es: seq<Ext>): seq<seq<byte>> {
    if es == [] then [] else (if es[0].Alpn? then es[0].names else []) + NamesOf(es[1..])
  }

  function VersionsOf(es: seq<Ext>): seq<u16> {
    if es == [] then [] else (if es[0].Versions? then es[0].versions else []) + VersionsOf(es[1..])
  }

  lemma {:induction false} HighestConcat(start: u16, a: seq<u16>, b: seq<u16>)
    ensures Highest(start, a + b) == Highest(Highest(start, a), b)
    decreases |a|
  {
    if a == [] {
      assert a + b == b;
    } else {
      assert (a + b)[1..] == a[1..] + b;
      HighestConcat(if !IsGrease(a[0]) && a[0] > start then a[0] else start, a[1..], b);
    }
  }

  lemma {:induction false} TypesToldAll(f: Fingerprint, es: seq<Ext>)
    ensures ToldAll(f, es).extensions == f.extensions + TypesOf(es)
    decreases |es|
  {
    if es != [] {
      TypesToldAll(Told(f, es[0]), es[1..]);
      assert f.extensions + [TypeOf(es[0])] + TypesOf(es[1..]) == f.extensions + TypesOf(es);
    }
  }

  lemma {:induction false} GroupsToldAll(f: Fingerprint, es: seq<Ext>)
    ensures ToldAll(f, es).curves == f.curves + GroupsOf(es)
    decreases |es|
  {
    if es != [] {
      GroupsToldAll(Told(f, es[0]), es[1..]);
      var x := if es[0].Groups? then es[0].groups else [];
      assert f.curves + x + GroupsOf(es[1..]) == f.curves + GroupsOf(es);
    }
  }

  lemma {:induction false} AlgsToldAll(f: Fingerprint, es: seq<Ext>)
    ensures ToldAll(f, es).sigAlgs == f.sigAlgs + AlgsOf(es)
    decreases |es|
  {
    if es != [] {
      AlgsToldAll(Told(f, es[0]), es[1..]);
      var x := if es[0].SigAlgs? then es[0].algs else [];
      assert f.sigAlgs + x + AlgsOf(es[1..]) == f.sigAlgs + AlgsOf(es);
    }
  }

  lemma {:induction false} FormatsToldAll(f: Fingerprint, es: seq<Ext>)
    ensures ToldAll(f, es).pointFormats == f.pointFormats + FormatsOf(es)
    decreases |es|
  {
    if es != [] {
      FormatsToldAll(Told(f, es[0]), es[1..]);
      var x := if es[0].PointFormats? then es[0].formats else [];
      assert f.pointFormats + x + FormatsOf(es[1..]) == f.pointFormats + FormatsOf(es);
    }
  }

  lemma {:induction false} NamesToldAll(f: Fingerprint, es: seq<Ext>)
    ensures ToldAll(f, es).alpn == f.alpn + NamesOf(es)
    decreases |es|
  {
    if es != [] {
      NamesToldAll(Told(f, es[0]), es[1..]);
      var x := if es[0].Alpn? then es[0].names else [];
      assert f.alpn + x + NamesOf(es[1..]) == f.alpn + NamesOf(es);
    }
  }

  lemma {:induction false} VersionToldAll(f: Fingerprint, es: seq<Ext>)
    ensures ToldAll(f, es).version == Highest(f.version, VersionsOf(es))
    decreases |es|
  {
    if es != [] {
      var x := if es[0].Versions? then es[0].versions else [];
      assert VersionsOf(es) == x + VersionsOf(es[1..]);
      assert Told(f, es[0]).version == Highest(f.version, x);
      VersionToldAll(Told(f, es[0]), es[1..]);
      HighestConcat(f.version, x, VersionsOf(es[1..]));
    }
  }

  /** The last server_name extension wins. */
  function HostOf(start: seq<byte>, es: seq<Ext>): seq<byte>
    decreases |es|
  {
    if es == [] then start else HostOf(if es[0].ServerName? then es[0].host else start, es[1..])
  }

  lemma {:induction false} RestToldAll(f: Fingerprint, es: seq<Ext>)
    ensures ToldAll(f, es).legacyVersion == f.legacyVersion && ToldAll(f, es).ciphers == f.ciphers
    ensures ToldAll(f, es).sni == HostOf(f.sni, es)
    decreases |es|
  {
    if es != [] {
      RestToldAll(Told(f, es[0]), es[1..]);
    }
  }

  /** The decoded lists are those of the message, in order, and the version is the highest of the
      legacy version and the non-GREASE versions offered. */
  lemma {:induction false} ContentsOf(h: Hello, es: seq<Ext>)
    requires es == if h.extensions.None? then [] else h.extensions.value
    ensures Contents(h) == Fingerprint(h.legacyVersion, Highest(h.legacyVersion, VersionsOf(es)), h.ciphers, TypesOf(es), GroupsOf(es),
                                       FormatsOf(es), AlgsOf(es), NamesOf(es), HostOf([], es))
  {
    var f := Blank(h.legacyVersion, h.ciphers);
    assert Contents(h) == ToldAll(f, es);
    TypesToldAll(f, es);
    GroupsToldAll(f, es);
    AlgsToldAll(f, es);
    FormatsToldAll(f, es);
    NamesToldAll(f, es);
    VersionToldAll(f, es);
    RestToldAll(f, es);
  }

  // ---- Arbitrary bytes ----

  function Size(f: Fingerprint): nat {
    |f.ciphers| + |f.extensions| + |f.curves| + |f.pointFormats| + |f.sigAlgs| + |f.alpn|
  }

  lemma {:induction false} ApplySize(f: Fingerprint, typ: u16, data: seq<byte>)
    ensures Size(Apply(f, typ, data)) <= Size(f) + 1 + |data|
  {
    var g := f.(extensions := f.extensions + [typ]);
    assert Size(g) == Size(f) + 1;
    if typ == 0x0010 {
      assert |NameList(Vec16(data))| <= |data|;
    }
  }

  lemma {:induction false} ApplyHost(f: Fingerprint, typ: u16, data: seq<byte>)
    ensures |Apply(f, typ, data).sni| <= (if |f.sni| > |data| then |f.sni| else |data|)
  {
    if typ == 0x0000 {
      var h := HostName(data);
      assert h.Some? ==> |h.value| <= |data|;
    }
  }

  lemma {:induction false} ExtensionsSize(f: Fingerprint, b: seq<byte>)
    ensures Size(Extensions(f, b)) <= Size(f) + |b|
    ensures |Extensions(f, b).sni| <= (if |f.sni| > |b| then |f.sni| else |b|)
    decreases |b|
  {
    if |b| >= 4 {
      var typ, n := Word(b[0], b[1]), Word(b[2], b[3]);
      if n <= |b| - 4 {
        ApplySize(f, typ, b[4..4 + n]);
        ApplyHost(f, typ, b[4..4 + n]);
        ExtensionsSize(Apply(f, typ, b[4..4 + n]), b[4 + n..]);
      }
    }
  }

  lemma {:induction false} FixedPartSize(b: seq<byte>)
    ensures var (_, cs, c) := FixedPart(b); |cs| + |ExtensionBytes(c)| <= |b|
  {
  }

  /** Whatever bytes arrive, the lists learned from them have no more entries than there are bytes. */
  lemma {:induction false} DecodeIsBounded(rec: seq<byte>)
    requires Decode(rec).Some?
    ensures Size(Decode(rec).value) <= |rec| && |Decode(rec).value.sni| <= |rec|
  {
    var b := Unwrap(rec).value;
    var (legacy, cs, c) := FixedPart(b);
    FixedPartSize(b);
    ExtensionsSize(Blank(legacy, U16List(cs)), ExtensionBytes(c));
  }
}
