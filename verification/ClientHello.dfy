/** The TLS ClientHello decoder: a bounds-checked cursor over nested length-prefixed
    data, and the wire format of section 4.1.2 of RFC 8446 it must invert. */
module ClientHello {
  import opened Basics
  import opened Bits

  /** What is learned from a ClientHello, before hashing. */
  datatype Fingerprint = Fingerprint(
    legacyVersion: u16, version: u16, ciphers: seq<u16>, extensions: seq<u16>, curves: seq<u16>,
    pointFormats: seq<byte>, sigAlgs: seq<u16>, alpn: seq<seq<byte>>, sni: seq<byte>)

  // ---- GREASE ----

  /** The bit test of the program: `v & 0x0f0f == 0x0a0a && v >> 8 == v & 0xff`. */
  predicate IsGreaseBits(v: u16) {
    And(v, 0x0f0f) == 0x0a0a && v / 256 == And(v, 0xff)
  }

  /** The same on numbers: two equal bytes ending in the digit A. */
  predicate IsGrease(v: u16) {
    v / 256 == v % 256 && v % 16 == 10
  }

  lemma {:induction false} LowByte(v: u16)
    ensures And(v, 0xff) == v % 256
  {
    AndDigit(v, 0xf);
    AndDigit(v / 16, 0);
    DigitsOf(v);
  }

  lemma {:induction false} DigitsOf(v: u16)
    ensures v % 256 == 16 * (v / 16 % 16) + v % 16 && v / 16 / 16 == v / 256 && v % 256 % 16 == v % 16
  {
  }

  lemma {:induction false} LowDigits(v: u16)
    ensures And(v, 0x0f0f) == 256 * (v / 256 % 16) + v % 16
  {
    AndDigit(v, 0xf0);
    AndNoDigit(v / 16, 0xf);
    AndDigit(v / 256, 0);
    DigitsOf(v);
  }

  lemma {:induction false} DigitsAreTens(v: u16, digits: nat, low: nat)
    requires digits == 256 * (v / 256 % 16) + v % 16 && low == v % 256
    ensures digits == 0x0a0a && v / 256 == low <==> IsGrease(v)
  {
    DigitsOf(v);
    var x, y := v / 256 % 16, v % 16;
    assert 256 * x + y == 0x0a0a <==> x == 10 && y == 10;
  }

  /** The program's test and the one on numbers agree. */
  lemma {:induction false} GreaseBitsAgree(v: u16)
    ensures IsGreaseBits(v) <==> IsGrease(v)
  {
    LowByte(v);
    LowDigits(v);
    DigitsAreTens(v, And(v, 0x0f0f), And(v, 0xff));
  }

  /** The sixteen values of section 2 of RFC 8701. */
  lemma {:induction false} GreaseValues(v: u16)
    ensures IsGreaseBits(v) <==> exists k :: 0 <= k < 16 && v == 0x0a0a + k * 0x1010
  {
    GreaseBitsAgree(v);
    GreaseNumbers(v);
  }

  lemma {:induction false} GreaseNumbers(v: u16)
    ensures IsGrease(v) <==> exists k :: 0 <= k < 16 && v == 0x0a0a + k * 0x1010
  {
    if IsGrease(v) {
      var k := (v % 256) / 16;
      assert v == 0x0a0a + k * 0x1010;
    }
  }

  // ---- The cursor ----

  /** Bytes left and whether an overrun happened. */
  datatype Cur = Cur(b: seq<byte>, err: bool)

  function Skip(c: Cur, n: nat): Cur {
    if n > |c.b| then Cur([], true) else Cur(c.b[n..], c.err)
  }

  function Rest(c: Cur, n: nat): (seq<byte>, Cur) {
    if n > |c.b| then ([], Cur([], true)) else (c.b[..n], Cur(c.b[n..], c.err))
  }

  function U8(c: Cur): (byte, Cur) {
    if |c.b| < 1 then (0, c.(err := true)) else (c.b[0], Cur(c.b[1..], c.err))
  }

  function U16(c: Cur): (u16, Cur) {
    if |c.b| < 2 then (0, Cur([], true)) else (Word(c.b[0], c.b[1]), Cur(c.b[2..], c.err))
  }

  /** `reader`. Overruns set `err` and yield zeros; no read leaves the buffer. */
  class Reader {
    var b: seq<byte>
    var err: bool

    constructor (b: seq<byte>, err: bool)
      ensures this.b == b && this.err == err
    {
      this.b, this.err := b, err;
    }

    function View(): Cur
      reads this
    {
      Cur(b, err)
    }

    method SkipBytes(n: nat)
      modifies this
      ensures View() == Skip(old(View()), n)
    {
      if n > |b| {
        err, b := true, [];
        return;
      }
      b := b[n..];
    }

    method RestBytes(n: nat) returns (out: seq<byte>)
      modifies this
      ensures (out, View()) == Rest(old(View()), n)
    {
      if n > |b| {
        err, b := true, [];
        return [];
      }
      out := b[..n];
      b := b[n..];
    }

    method Sub(n: nat) returns (r: Reader)
      modifies this
      ensures fresh(r) && (r.b, View()) == Rest(old(View()), n) && r.err == err
    {
      var out := RestBytes(n);
      r := new Reader(out, err);
    }

    method ReadU8() returns (v: byte)
      modifies this
      ensures (v, View()) == U8(old(View()))
    {
      if |b| < 1 {
        err := true;
        return 0;
      }
      v := b[0];
      b := b[1..];
    }

    method ReadU16() returns (v: u16)
      modifies this
      ensures (v, View()) == U16(old(View()))
    {
      if |b| < 2 {
        err, b := true, [];
        return 0;
      }
      v := Word(b[0], b[1]);
      b := b[2..];
    }

    /** `for l.len() >= 2 { append(l.u16()) }`. */
    method ReadU16s() returns (vs: seq<u16>)
      modifies this
      ensures vs == U16List(old(b))
    {
      vs := [];
      while |b| >= 2
        invariant vs + U16List(b) == U16List(old(b))
        decreases |b|
      {
        var v := ReadU16();
        vs := vs + [v];
      }
    }

    /** `for l.len() >= 1 { append(l.u8()) }`. */
    method ReadU8s() returns (vs: seq<byte>)
      modifies this
      ensures vs == old(b)
    {
      vs := [];
      while |b| >= 1
        invariant vs + b == old(b)
        decreases |b|
      {
        var v := ReadU8();
        vs := vs + [v];
      }
    }

    /** The ALPN loop: one-byte lengths; an overlong name ends the list with an empty one. */
    method ReadNames() returns (vs: seq<seq<byte>>)
      modifies this
      ensures vs == NameList(old(b))
    {
      vs := [];
      while |b| >= 1
        invariant vs + NameList(b) == NameList(old(b))
        decreases |b|
      {
        NameStep(b);
        ghost var before := b;
        var n := ReadU8();
        var s := RestBytes(n);
        assert NameList(before) == [s] + NameList(b);
        vs := vs + [s];
      }
    }

    /** The supported_versions loop. */
    method ReadVersions(start: u16) returns (version: u16)
      modifies this
      ensures version == Highest(start, U16List(old(b)))
    {
      version := start;
      while |b| >= 2
        invariant Highest(version, U16List(b)) == Highest(start, U16List(old(b)))
        decreases |b|
      {
        var v := ReadU16();
        if !IsGrease(v) && v > version {
          version := v;
        }
      }
    }
  }

  // ---- Decoding ----

  function U16List(b: seq<byte>): (vs: seq<u16>)
    ensures 2 * |vs| <= |b|
  {
    if |b| < 2 then [] else [Word(b[0], b[1])] + U16List(b[2..])
  }

  function NameList(b: seq<byte>): (vs: seq<seq<byte>>)
    ensures |vs| <= |b|
  {
    if |b| < 1 then []
    else if b[0] > |b| - 1 then [[]]
    else [b[1..1 + b[0]]] + NameList(b[1 + b[0]..])
  }

  lemma {:induction false} NameStep(b: seq<byte>)
    requires |b| >= 1
    ensures var (n, c) := U8(Cur(b, false));
            NameList(b) == [Rest(c, n).0] + NameList(Rest(c, n).1.b)
  {
    var n: int := b[0];
    if n <= |b| - 1 {
      assert b[1..][..n] == b[1..1 + n] && b[1..][n..] == b[1 + n..];
    }
  }

  /** The highest of `start` and the non-GREASE versions offered. */
  function Highest(start: u16, vs: seq<u16>): (v: u16)
    ensures start <= v && (v == start || (v in vs && !IsGrease(v)))
    ensures forall x :: x in vs && !IsGrease(x) ==> x <= v
    decreases |vs|
  {
    if vs == [] then start
    else Highest(if !IsGrease(vs[0]) && vs[0] > start then vs[0] else start, vs[1..])
  }

  /** Contents of a vector with a two-byte length; nothing if it overruns. */
  function Vec16(data: seq<byte>): (v: seq<byte>)
    ensures |v| <= |data|
  {
    var (n, c) := U16(Cur(data, false));
    Rest(c, n).0
  }

  function Vec8(data: seq<byte>): (v: seq<byte>)
    ensures |v| <= |data|
  {
    var (n, c) := U8(Cur(data, false));
    Rest(c, n).0
  }

  /** The host name of a server_name extension, if its first entry is of type 0. */
  function HostName(data: seq<byte>): Option<seq<byte>> {
    var (kind, c) := U8(Skip(Cur(data, false), 2));
    if kind == 0 then
      var (n, d) := U16(c);
      Some(Rest(d, n).0)
    else None
  }

  /** One extension's effect on the fingerprint. */
  function Apply(f: Fingerprint, typ: u16, data: seq<byte>): Fingerprint {
    var g := f.(extensions := f.extensions + [typ]);
    if typ == 0x0000 then
      var h := HostName(data);
      if h.Some? then g.(sni := h.value) else g
    else if typ == 0x000a then g.(curves := g.curves + U16List(Vec16(data)))
    else if typ == 0x000b then g.(pointFormats := g.pointFormats + Vec8(data))
    else if typ == 0x000d then g.(sigAlgs := g.sigAlgs + U16List(Vec16(data)))
    else if typ == 0x0010 then g.(alpn := g.alpn + NameList(Vec16(data)))
    else if typ == 0x002b then g.(version := Highest(g.version, U16List(Vec8(data))))
    else g
  }

  /** The extension loop; a truncated extension ends it. */
  function Extensions(f: Fingerprint, b: seq<byte>): Fingerprint
    decreases |b|
  {
    if |b| < 4 then f
    else
      var typ, n := Word(b[0], b[1]), Word(b[2], b[3]);
      if n > |b| - 4 then f else Extensions(Apply(f, typ, b[4..4 + n]), b[4 + n..])
  }

  function Blank(legacy: u16, ciphers: seq<u16>): Fingerprint {
    Fingerprint(legacy, legacy, ciphers, [], [], [], [], [], [])
  }

  /** The fixed part of the body: version, cipher bytes and what is left behind the compression methods. */
  function FixedPart(b: seq<byte>): (u16, seq<byte>, Cur) {
    var (legacy, c) := Opening(Cur(b, false));
    var (cs, d) := Suites(c);
    (legacy, cs, d)
  }

  /** Version, random and session id. */
  function Opening(c: Cur): (u16, Cur) {
    var (legacy, c1) := U16(c);
    var (sid, c3) := U8(Skip(c1, 32));
    (legacy, Skip(c3, sid))
  }

  /** Cipher suites and compression methods. */
  function Suites(c: Cur): (seq<byte>, Cur) {
    var (n, c5) := U16(c);
    var (cs, c6) := Rest(c5, n);
    var (comp, c7) := U8(c6);
    (cs, Skip(c7, comp))
  }

  /** The extensions vector, if any bytes are left for it. */
  function ExtensionBytes(c: Cur): seq<byte> {
    if |c.b| < 2 then [] else
      var (m, d) := U16(c);
      Rest(d, m).0
  }

  /** The handshake body. */
  function Body(b: seq<byte>): Option<Fingerprint> {
    var (legacy, cs, c) := FixedPart(b);
    if c.err then None else Some(Extensions(Blank(legacy, U16List(cs)), ExtensionBytes(c)))
  }

  /** Length fields: two and three bytes, big-endian. */
  function Len16(b: seq<byte>): nat
    requires |b| == 2
  {
    Word(b[0], b[1])
  }

  function Len24(b: seq<byte>): nat
    requires |b| == 3
  {
    var hi: int := b[0];
    hi * 65536 + Word(b[1], b[2])
  }

  /** The record and handshake headers around the body. */
  function Unwrap(rec: seq<byte>): Option<seq<byte>> {
    if |rec| < 9 || rec[0] != 0x16 || rec[1] != 0x03 then None
    else
      var recLen := Len16(rec[3..5]);
      if |rec| < 5 + recLen then None
      else
        var hs := rec[5..5 + recLen];
        if |hs| < 4 || hs[0] != 0x01 then None
        else
          var hsLen := Len24(hs[1..4]);
          if |hs| < 4 + hsLen then None else Some(hs[4..4 + hsLen])
  }

  /** What `parseClientHello` reports, before hashing. */
  function Decode(rec: seq<byte>): Option<Fingerprint> {
    var b := Unwrap(rec);
    if b.None? then None else Body(b.value)
  }

  /** The switch over extension types. */
  method ApplyExtension(f: Fingerprint, typ: u16, data: Reader) returns (g: Fingerprint)
    requires !data.err
    modifies data
    ensures g == Apply(f, typ, old(data.b))
  {
    g := f.(extensions := f.extensions + [typ]);
    if typ == 0x0000 {
      data.SkipBytes(2);
      var kind := data.ReadU8();
      if kind == 0 {
        var n := data.ReadU16();
        var host := data.RestBytes(n);
        g := g.(sni := host);
      }
    } else if typ == 0x000a {
      var n := data.ReadU16();
      var l := data.Sub(n);
      var vs := l.ReadU16s();
      g := g.(curves := g.curves + vs);
    } else if typ == 0x000b {
      var n := data.ReadU8();
      var l := data.Sub(n);
      var vs := l.ReadU8s();
      g := g.(pointFormats := g.pointFormats + vs);
    } else if typ == 0x000d {
      var n := data.ReadU16();
      var l := data.Sub(n);
      var vs := l.ReadU16s();
      g := g.(sigAlgs := g.sigAlgs + vs);
    } else if typ == 0x0010 {
      var n := data.ReadU16();
      var l := data.Sub(n);
      var vs := l.ReadNames();
      g := g.(alpn := g.alpn + vs);
    } else if typ == 0x002b {
      var n := data.ReadU8();
      var l := data.Sub(n);
      var v := l.ReadVersions(g.version);
      g := g.(version := v);
    }
  }

  method ReadExtensions(f: Fingerprint, exts: Reader) returns (g: Fingerprint)
    requires exts.err ==> exts.b == []
    modifies exts
    ensures g == Extensions(f, old(exts.b))
  {
    g := f;
    while |exts.b| >= 4 && !exts.err
      invariant exts.err ==> exts.b == []
      invariant Extensions(g, exts.b) == Extensions(f, old(exts.b))
      decreases |exts.b|
    {
      ghost var b := exts.b;
      var typ := exts.ReadU16();
      var n := exts.ReadU16();
      assert exts.b == b[4..] && n == Word(b[2], b[3]);
      var data := exts.Sub(n);
      if exts.err {
        return;
      }
      assert data.b == b[4..4 + n] && exts.b == b[4 + n..];
      g := ApplyExtension(g, typ, data);
    }
  }

  method ReadFixedPart(rd: Reader) returns (legacy: u16, ciphers: seq<u16>)
    requires !rd.err
    modifies rd
    ensures var p := FixedPart(old(rd.b)); legacy == p.0 && ciphers == U16List(p.1) && rd.View() == p.2
  {
    legacy := rd.ReadU16();
    rd.SkipBytes(32);
    var sid := rd.ReadU8();
    rd.SkipBytes(sid);
    var n := rd.ReadU16();
    var cs := rd.Sub(n);
    ciphers := cs.ReadU16s();
    var comp := rd.ReadU8();
    rd.SkipBytes(comp);
  }

  /** The record and handshake headers. */
  method ReadHeaders(rec: seq<byte>) returns (b: Option<seq<byte>>)
    ensures b == Unwrap(rec)
  {
    if |rec| < 9 || rec[0] != 0x16 || rec[1] != 0x03 {
      return None;
    }
    var recLen := Len16(rec[3..5]);
    if |rec| < 5 + recLen {
      return None;
    }
    var hs := rec[5..5 + recLen];
    if |hs| < 4 || hs[0] != 0x01 {
      return None;
    }
    var hsLen := Len24(hs[1..4]);
    if |hs| < 4 + hsLen {
      return None;
    }
    return Some(hs[4..4 + hsLen]);
  }

  /** `parseClientHello` up to hashing. It terminates and stays in range on every input. */
  method ParseClientHello(rec: seq<byte>) returns (r: Option<Fingerprint>)
    ensures r == Decode(rec)
  {
    var b := ReadHeaders(rec);
    if b.None? {
      return None;
    }
    r := ParseBody(b.value);
  }

  method ParseBody(b: seq<byte>) returns (r: Option<Fingerprint>)
    ensures r == Body(b)
  {
    var rd := new Reader(b, false);
    var legacy, ciphers := ReadFixedPart(rd);
    if rd.err {
      return None;
    }
    var f := Blank(legacy, ciphers);
    if |rd.b| >= 2 {
      var m := rd.ReadU16();
      var exts := rd.Sub(m);
      f := ReadExtensions(f, exts);
    }
    r := Some(f);
  }
}
