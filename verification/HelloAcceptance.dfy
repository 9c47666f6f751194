/** Which bytes the ClientHello decoder accepts, and what it reads from malformed ones. */
module HelloAcceptance {
  import opened Basics
  import opened ClientHello
  import opened HelloEncoding

  // ---- The fixed part ----

  /** Reads without an overrun take the bytes apart. */
  lemma {:induction false} WordTaken(c: Cur)
    ensures !U16(c).1.err ==> !c.err && |c.b| >= 2 && c.b == Word16(U16(c).0) + U16(c).1.b
  {
    if |c.b| >= 2 {
      assert c.b == [c.b[0], c.b[1]] + c.b[2..];
    }
  }

  lemma {:induction false} ByteTaken(c: Cur)
    ensures !U8(c).1.err ==> !c.err && |c.b| >= 1 && c.b == [U8(c).0] + U8(c).1.b
  {
    if |c.b| >= 1 {
      assert c.b == [c.b[0]] + c.b[1..];
    }
  }

  lemma {:induction false} RestTaken(c: Cur, n: nat)
    ensures Skip(c, n) == Rest(c, n).1
    ensures !Rest(c, n).1.err ==> !c.err && |Rest(c, n).0| == n && c.b == Rest(c, n).0 + Rest(c, n).1.b
  {
    if n <= |c.b| {
      assert c.b == c.b[..n] + c.b[n..];
    }
  }

  lemma {:induction false} OpeningTaken(c: Cur) returns (random: seq<byte>, sessionId: seq<byte>)
    requires !Opening(c).1.err
    ensures |random| == 32 && |sessionId| < 0x100 && !c.err
    ensures c.b == OpeningBytes(Opening(c).0, random, sessionId, Opening(c).1.b)
  {
    var (legacy, c1) := U16(c);
    var (r, c2) := Rest(c1, 32);
    RestTaken(c1, 32);
    var (n, c3) := U8(c2);
    var (sid, c4) := Rest(c3, n);
    RestTaken(c3, n);
    ByteTaken(c2);
    WordTaken(c);
    random, sessionId := r, sid;
  }

  lemma {:induction false} SuitesTaken(c: Cur) returns (compression: seq<byte>)
    requires !Suites(c).1.err
    ensures |compression| < 0x100 && |Suites(c).0| < 0x1_0000 && !c.err
    ensures c.b == SuiteBytes(Suites(c).0, compression, Suites(c).1.b)
  {
    var (m, c5) := U16(c);
    var (cs, c6) := Rest(c5, m);
    RestTaken(c5, m);
    var (k, c7) := U8(c6);
    var (comp, c8) := Rest(c7, k);
    RestTaken(c7, k);
    ByteTaken(c6);
    WordTaken(c);
    compression := comp;
  }

  /** A body read without an overrun is made of such parts. */
  lemma {:induction false} BodyHasParts(b: seq<byte>) returns (p: Parts)
    requires !FixedPart(b).2.err
    ensures PartsFit(p) && BodyBytes(p) == b
  {
    var (legacy, c) := Opening(Cur(b, false));
    var (ciphers, d) := Suites(c);
    var compression := SuitesTaken(c);
    var random, sessionId := OpeningTaken(Cur(b, false));
    p := Parts(legacy, random, sessionId, ciphers, compression, d.b);
  }

  // ---- The headers ----

  /** A record that holds a ClientHello with this body; bytes may follow it in the record and behind the record. */
  ghost predicate IsRecord(rec: seq<byte>, minor: byte, body: seq<byte>, rest: seq<byte>, trailing: seq<byte>) {
    && |body| + |rest| + 4 < 0x1_0000
    && rec == [0x16, 0x03, minor] + (Word16(|body| + |rest| + 4) + ([0x01] + (Word24(|body|) + (body + rest)) + trailing))
  }

  lemma {:induction false} RecordRead(
    rec: seq<byte>, minor: byte, body: seq<byte>, rest: seq<byte>, trailing: seq<byte>)
    requires IsRecord(rec, minor, body, rest, trailing)
    ensures Unwrap(rec) == Some(body)
  {
    var hs := [0x01] + (Word24(|body|) + (body + rest));
    assert |hs| == |body| + |rest| + 4;
    assert rec[3..5] == Word16(|hs|) && rec[5..5 + |hs|] == hs;
    ReadLength16(|hs|);
    assert hs[1..4] == Word24(|body|) && hs[4..4 + |body|] == body;
    ReadLength24(|body|);
  }

  lemma {:induction false} Length16Read(b: seq<byte>)
    requires |b| == 2
    ensures Word16(Len16(b)) == b
  {
    assert b == [b[0], b[1]];
  }

  lemma {:induction false} Digits24(x: nat, y: nat, z: nat)
    requires x < 256 && y < 256 && z < 256
    ensures var v := x * 65536 + (y * 256 + z); v < 0x100_0000 && v / 65536 == x && v / 256 % 256 == y && v % 256 == z
  {
    var v := x * 65536 + (y * 256 + z);
    assert v / 256 == x * 256 + y;
  }

  lemma {:induction false} Length24Read(b: seq<byte>)
    requires |b| == 3
    ensures Len24(b) < 0x100_0000 && Word24(Len24(b)) == b
  {
    Digits24(b[0], b[1], b[2]);
    assert b == [b[0], b[1], b[2]];
  }

  lemma {:induction false} RecordParts(rec: seq<byte>) returns (minor: byte, rest: seq<byte>, trailing: seq<byte>)
    requires Unwrap(rec).Some?
    ensures IsRecord(rec, minor, Unwrap(rec).value, rest, trailing)
  {
    var n := Len16(rec[3..5]);
    var hs := rec[5..5 + n];
    var m := Len24(hs[1..4]);
    minor, rest, trailing := rec[2], hs[4 + m..], rec[5 + n..];
    Length16Read(rec[3..5]);
    Length24Read(hs[1..4]);
    assert hs == [hs[0]] + (hs[1..4] + (hs[4..4 + m] + hs[4 + m..]));
    assert rec == [rec[0], rec[1], rec[2]] + (rec[3..5] + (rec[5..5 + n] + rec[5 + n..]));
  }

  /** Exactly the records of this form with a complete fixed part are accepted. */
  lemma {:induction false} AcceptedIff(rec: seq<byte>)
    ensures Decode(rec).Some? <==>
            exists minor, p, rest, trailing :: PartsFit(p) && IsRecord(rec, minor, BodyBytes(p), rest, trailing)
  {
    if Decode(rec).Some? {
      var minor, rest, trailing := RecordParts(rec);
      var p := BodyHasParts(Unwrap(rec).value);
      assert IsRecord(rec, minor, BodyBytes(p), rest, trailing);
    }
    if minor, p, rest, trailing :| PartsFit(p) && IsRecord(rec, minor, BodyBytes(p), rest, trailing) {
      RecordRead(rec, minor, BodyBytes(p), rest, trailing);
      PartsRead(p);
    }
  }

  // ---- Malformed extensions ----

  /** A list of extensions of any contents. */
  datatype Item = Item(typ: u16, data: seq<byte>)

  function ItemBytes(items: seq<Item>): seq<byte>
    requires forall i :: 0 <= i < |items| ==> |items[i].data| < 0x1_0000
  {
    if items == [] then []
    else Word16(items[0].typ) + (Word16(|items[0].data|) + items[0].data) + ItemBytes(items[1..])
  }

  function ApplyAll(f: Fingerprint, items: seq<Item>): Fingerprint
    decreases |items|
  {
    if items == [] then f else ApplyAll(Apply(f, items[0].typ, items[0].data), items[1..])
  }

  /** The start of an extension that is not all there. */
  predicate IsCut(b: seq<byte>) {
    |b| < 4 || 4 + Word(b[2], b[3]) > |b|
  }

  /** Extensions are read up to the first one that is cut off. */
  lemma {:induction false} ItemsRead(f: Fingerprint, items: seq<Item>, cut: seq<byte>)
    requires (forall i :: 0 <= i < |items| ==> |items[i].data| < 0x1_0000) && IsCut(cut)
    ensures Extensions(f, ItemBytes(items) + cut) == ApplyAll(f, items)
    decreases |items|
  {
    if items == [] {
      assert ItemBytes(items) + cut == cut;
    } else {
      var x := items[0];
      var first := Word16(x.typ) + (Word16(|x.data|) + x.data);
      assert ItemBytes(items) + cut == first + (ItemBytes(items[1..]) + cut);
      ExtensionStep(f, x.typ, x.data, ItemBytes(items[1..]) + cut);
      ItemsRead(Apply(f, x.typ, x.data), items[1..], cut);
    }
  }

  /** A vector behind its length; nothing if it is not all there. What stands behind it is not looked at. */
  lemma {:induction false} VectorsRead(data: seq<byte>)
    ensures Vec16(data) == if |data| >= 2 && 2 + Word(data[0], data[1]) <= |data| then data[2..2 + Word(data[0], data[1])] else []
    ensures Vec8(data) == if |data| >= 1 && 1 + data[0] <= |data| then data[1..1 + data[0]] else []
  {
    if |data| >= 2 && 2 + Word(data[0], data[1]) <= |data| {
      assert data[2..][..Word(data[0], data[1])] == data[2..2 + Word(data[0], data[1])];
    }
    if |data| >= 1 && 1 + data[0] <= |data| {
      assert data[1..][..data[0]] == data[1..1 + data[0]];
    }
  }

  /** The version only grows, and the name changes only through server_name. */
  lemma {:induction false} ItemEffects(f: Fingerprint, x: Item)
    ensures var g := Apply(f, x.typ, x.data);
            && g.extensions == f.extensions + [x.typ] && g.legacyVersion == f.legacyVersion && g.ciphers == f.ciphers
            && g.version >= f.version && (x.typ != 0x002b ==> g.version == f.version)
            && (x.typ != 0x0000 ==> g.sni == f.sni) && (x.typ != 0x000a ==> g.curves == f.curves)
            && (x.typ != 0x000b ==> g.pointFormats == f.pointFormats) && (x.typ != 0x000d ==> g.sigAlgs == f.sigAlgs)
            && (x.typ != 0x0010 ==> g.alpn == f.alpn)
  {
  }
}
