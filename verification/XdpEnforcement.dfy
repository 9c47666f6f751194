/** What the XDP program and the userspace ban calls guarantee together, from packets on the wire
    to events decoded in userspace. */
module XdpEnforcement {
  import opened Basics
  import opened Xdp
  import Numerals

  // ---- Packets ----

  /** An Ethernet frame carrying IPv4 or IPv6 and a transport header with its payload. The program does not look
      at the version an IPv4 header states. */
  datatype Frame =
    | Frame4(
        macs: seq<byte>, version: nat, words: nat, middle: seq<byte>, proto: byte, sum: seq<byte>, src: seq<byte>, dst: seq<byte>,
        options: seq<byte>, l4: seq<byte>)
    | Frame6(macs: seq<byte>, head: seq<byte>, proto: byte, hops: byte, src: seq<byte>, dst: seq<byte>, l4: seq<byte>)

  /** Field sizes of section 3.1 of RFC 791 and section 3 of RFC 8200. */
  predicate FrameOk(f: Frame) {
    match f
    case Frame4(macs, version, words, middle, _, sum, src, dst, options, _) =>
      && |macs| == 12 && version < 16 && 5 <= words < 16 && |middle| == 8 && |sum| == 2 && |src| == 4 && |dst| == 4
      && |options| == (words - 5) * 4
    case Frame6(macs, head, _, _, src, dst, _) =>
      |macs| == 12 && |head| == 6 && |src| == 16 && |dst| == 16
  }

  function Encode(f: Frame): seq<byte>
    requires FrameOk(f)
  {
    match f
    case Frame4(macs, version, words, middle, proto, sum, src, dst, options, l4) =>
      macs + [0x08, 0x00, version * 16 + words] + middle + [proto] + sum + src + dst + options + l4
    case Frame6(macs, head, proto, hops, src, dst, l4) =>
      macs + [0x86, 0xdd] + head + [proto, hops] + src + dst + l4
  }

  /** Multicast, or the limited broadcast address. */
  predicate ToMany(f: Frame)
    requires FrameOk(f)
  {
    match f
    case Frame4(_, _, _, _, _, _, _, dst, _, _) => 224 <= dst[0] < 240 || dst == [0xff, 0xff, 0xff, 0xff]
    case Frame6(_, _, _, _, _, dst, _) => dst[0] == 0xff
  }

  function Source(f: Frame): (s: seq<byte>)
    requires FrameOk(f)
    ensures |s| == 16
  {
    match f
    case Frame4(_, _, _, _, _, _, src, _, _, _) => V4_PREFIX + src
    case Frame6(_, _, _, _, src, _, _) => src
  }

  lemma {:induction false} Slice4(f: Frame)
    requires FrameOk(f) && f.Frame4?
    ensures var p := Encode(f);
            && |p| >= 34 && p[12] == 0x08 && p[13] == 0x00 && p[14] == f.version * 16 + f.words && p[23] == f.proto
            && p[26..30] == f.src && p[30..34] == f.dst
            && |p| == 14 + 4 * f.words + |f.l4| && p[14 + 4 * f.words..] == f.l4
  {
  }

  lemma {:induction false} Slice6(f: Frame)
    requires FrameOk(f) && f.Frame6?
    ensures var p := Encode(f);
            && |p| == 54 + |f.l4| && p[12] == 0x86 && p[13] == 0xdd && p[20] == f.proto
            && p[22..38] == f.src && p[38..54] == f.dst && p[54..] == f.l4
  {
  }

  /** The IP header of every unicast frame is read as it was written, wherever options end. */
  lemma {:induction false} NetworkRead(f: Frame)
    requires FrameOk(f)
    ensures ToMany(f) ==> NetworkOf(Encode(f)) == NoIp
    ensures !ToMany(f) ==>
              var n := NetworkOf(Encode(f));
              n.Ip? && n.src == Source(f) && n.proto == f.proto && |Encode(f)| == n.l4 + |f.l4| && Encode(f)[n.l4..] == f.l4
  {
    var p := Encode(f);
    if f.Frame4? {
      Slice4(f);
      assert p[30..34][0] == p[30] && p[30..34][1] == p[31] && p[30..34][2] == p[32] && p[30..34][3] == p[33];
      assert p[14] % 16 == f.words;
      assert Multicast4(p) <==> ToMany(f);
    } else {
      Slice6(f);
      assert p[38..54][0] == p[38];
    }
  }

  /** A TCP or UDP header, complete, to `port`. */
  predicate Complete(proto: byte, port: u16, l4: seq<byte>) {
    ((proto == 6 && |l4| >= 20) || (proto == 17 && |l4| >= 8)) && l4[2..4] == Word16(port)
  }

  /** Every complete unicast TCP or UDP packet is seen with its source and port. */
  lemma {:induction false} TransportRead(f: Frame, port: u16)
    requires FrameOk(f) && !ToMany(f) && Complete(f.proto, port, f.l4)
    ensures var s := SeenIn(Encode(f)); s.Transport? && s.src == Source(f) && s.proto == f.proto && s.port == port
  {
    NetworkRead(f);
    var p, n := Encode(f), NetworkOf(Encode(f)).l4;
    assert p[n..][2] == p[n + 2] && p[n..][3] == p[n + 3];
    assert f.l4[2..4][0] == f.l4[2] && f.l4[2..4][1] == f.l4[3];
    assert Word(Word16(port)[0], Word16(port)[1]) == port;
  }

  // ---- Runs of ban calls ----

  datatype Op = Ban(ip: seq<byte>, port: u16, uptime: int, duration: int) | Unban(ip: seq<byte>, port: u16)

  datatype Ops = NoOps | Then(ops: Ops, op: Op)

  function Do(t: Tables, op: Op): Tables {
    var r := match op
      case Ban(ip, port, u, d) => AfterBan(t, ip, port, u, d)
      case Unban(ip, port) => AfterUnban(t, ip, port);
    if r.Some? then r.value else t
  }

  function After(t: Tables, ops: Ops): Tables {
    match ops
    case NoOps => t
    case Then(os, op) => Do(After(t, os), op)
  }

  /** The call is about this address and port. */
  predicate Touches(op: Op, src: seq<byte>, port: u16) {
    To16(op.ip) == Some(src) && op.port == port
  }

  predicate Untouched(ops: Ops, src: seq<byte>, port: u16) {
    match ops
    case NoOps => true
    case Then(os, op) => Untouched(os, src, port) && !Touches(op, src, port)
  }

  lemma {:induction false} OtherKeysKept(t: Tables, op: Op, src: seq<byte>, port: u16, now: nat)
    requires |src| == 16 && !Touches(op, src, port)
    ensures var k := KeyBytes(src, port);
            && (k in Do(t, op).bans <==> k in t.bans) && (k in t.bans ==> Do(t, op).bans[k] == t.bans[k])
    ensures Banned(Do(t, op), now, src, port) == Banned(t, now, src, port)
    ensures Do(t, op).mgmtPorts == t.mgmtPorts && Do(t, op).allowed == t.allowed
  {
    if To16(op.ip).Some? {
      KeyInjective(To16(op.ip).value, op.port, src, port);
    }
  }

  lemma {:induction false} UntouchedKept(t: Tables, ops: Ops, src: seq<byte>, port: u16, now: nat)
    requires |src| == 16 && Untouched(ops, src, port)
    ensures Banned(After(t, ops), now, src, port) == Banned(t, now, src, port)
    ensures Managed(After(t, ops), src, port) == Managed(t, src, port)
  {
    match ops
    case NoOps =>
    case Then(os, op) =>
      UntouchedKept(t, os, src, port, now);
      OtherKeysKept(After(t, os), op, src, port, now);
  }

  /** A ban call changes the verdict of no packet from another source or to another port. */
  lemma {:induction false} OtherPacketsUnaffected(t: Tables, op: Op, now: nat, p: seq<byte>)
    requires var s := SeenIn(p); s.Transport? ==> !Touches(op, s.src, s.port)
    ensures Judge(Do(t, op), now, p) == Judge(t, now, p)
  {
    var s := SeenIn(p);
    if s.Transport? {
      OtherKeysKept(t, op, s.src, s.port, now);
    }
  }

  /** After a successful `Ban` at uptime `u` for `d`, and until another call for the same address and
      port, every complete unicast TCP or UDP packet from there that is not management traffic is
      dropped exactly while the kernel clock is before `u + d`. */
  lemma {:induction false} EnforcedExactly(
    t: Tables, ip: seq<byte>, port: u16, u: int, d: int, ops: Ops, now: nat, f: Frame)
    requires 0 <= u < I64 && -I64 <= d < I64 && u + d >= 0
    requires AfterBan(t, ip, port, u, d).Some?
    requires FrameOk(f) && !ToMany(f) && Complete(f.proto, port, f.l4) && To16(ip) == Some(Source(f))
    requires Untouched(ops, Source(f), port) && !Managed(t, Source(f), port)
    ensures Judge(After(AfterBan(t, ip, port, u, d).value, ops), now, Encode(f)).Dropped? <==> now < u + d
  {
    TransportRead(f, port);
    var b := AfterBan(t, ip, port, u, d).value;
    UntouchedKept(b, ops, Source(f), port, now);
    ExpiryExactIff(u, d);
  }

  /** A duration that reaches back before boot wraps around: the ban then outlasts every clock. */
  lemma {:induction false} NegativeBanSticks(t: Tables, ip: seq<byte>, port: u16, u: int, d: int, now: nat)
    requires 0 <= u < I64 && -I64 <= d < I64 && u + d < 0 && now < I64
    requires AfterBan(t, ip, port, u, d).Some?
    ensures Banned(AfterBan(t, ip, port, u, d).value, now, To16(ip).value, port)
  {
    assert Expiry(u, d) == U64 + u + d >= I64;
  }

  /** After `Unban`, and until another call for that address and port, nothing is dropped. */
  lemma {:induction false} UnbanLifts(t: Tables, ip: seq<byte>, port: u16, ops: Ops, now: nat, p: seq<byte>)
    requires To16(ip).Some? && Untouched(ops, To16(ip).value, port)
    requires var s := SeenIn(p); s.Transport? ==> s.src == To16(ip).value && s.port == port
    ensures !Judge(After(Do(t, Unban(ip, port)), ops), now, p).Dropped?
  {
    UntouchedKept(Do(t, Unban(ip, port)), ops, To16(ip).value, port, now);
  }

  /** ICMP, multicast, broadcast and management traffic is never dropped, whatever is banned. */
  lemma {:induction false} NeverDropped(t: Tables, now: nat, f: Frame)
    requires FrameOk(f)
    requires ToMany(f) || (f.proto != 6 && f.proto != 17) || Source(f) in t.allowed
             || exists port :: Complete(f.proto, port, f.l4) && port in t.mgmtPorts
    ensures !Judge(t, now, Encode(f)).Dropped?
  {
    NetworkRead(f);
    if !ToMany(f) && (f.proto == 6 || f.proto == 17) && Source(f) !in t.allowed {
      var port :| Complete(f.proto, port, f.l4) && port in t.mgmtPorts;
      TransportRead(f, port);
    }
  }

  /** The map never outgrows its capacity, and a full map still takes a refresh. */
  lemma {:induction false} CapacityKept(t: Tables, ops: Ops)
    requires |t.bans| <= MAX_BANS
    ensures |After(t, ops).bans| <= MAX_BANS
  {
    match ops
    case NoOps =>
    case Then(os, op) =>
      CapacityKept(t, os);
      OpCapacity(After(t, os), op);
  }

  /** A call keeps the capacity, and a ban of a readable address is refused only for want of room. */
  lemma {:induction false} OpCapacity(t: Tables, op: Op)
    requires |t.bans| <= MAX_BANS
    ensures |Do(t, op).bans| <= MAX_BANS
    ensures op.Ban? && To16(op.ip).Some? && |t.bans| < 65536 ==>
              AfterBan(t, op.ip, op.port, op.uptime, op.duration).Some?
    ensures op.Ban? && To16(op.ip).Some? && KeyBytes(To16(op.ip).value, op.port) in t.bans ==>
              AfterBan(t, op.ip, op.port, op.uptime, op.duration).Some?
  {
    if To16(op.ip).Some? {
      var k := KeyBytes(To16(op.ip).value, op.port);
      RemovedSize(t.bans, k);
      if op.Ban? {
        UpdatedSize(t.bans, k, Expiry(op.uptime, op.duration));
      }
    }
  }

  lemma {:induction false} RemovedSize(m: map<seq<byte>, nat>, k: seq<byte>)
    ensures |m - {k}| <= |m|
  {
    if k in m {
      assert m == (m - {k})[k := m[k]];
      UpdatedSize(m - {k}, k, m[k]);
    } else {
      assert m - {k} == m;
    }
  }

  lemma {:induction false} UpdatedSize(m: map<seq<byte>, nat>, k: seq<byte>, v: nat)
    ensures |m[k := v]| == |m| + if k in m then 0 else 1
  {
    assert m[k := v].Keys == m.Keys + {k};
    assert |m[k := v].Keys| == |m[k := v]| && |m.Keys| == |m|;
  }

  // ---- Events ----

  datatype Event = Event(src: seq<byte>, port: u16, dropped: bool, protocol: string)

  /** `protoString`. */
  function ProtoString(p: byte): string {
    if p == 6 then "tcp" else if p == 17 then "udp" else if p == 1 || p == 58 then "icmp" else "proto-" + Numerals.Dec(p)
  }

  function Parsed(little: bool, b: seq<byte>): Option<Event> {
    if |b| < 20 then None
    else Some(Event(Shortened(b[..16]), Load16(little, b[16], b[17]), b[18] != 0, ProtoString(b[19])))
  }

  /** `parseEvent`. */
  method ParseEvent(little: bool, b: seq<byte>) returns (ev: Option<Event>)
    ensures ev == Parsed(little, b)
  {
    if |b| < 20 {
      return None;
    }
    var buf := new byte[16](_ => 0);
    CopyInto(buf, 0, b[..16]);
    assert buf[..] == b[..16];
    var ip := Shortened(buf[..]);
    return Some(Event(ip, Load16(little, b[16], b[17]), b[18] != 0, ProtoString(b[19])));
  }

  lemma {:induction false} RawDecodes(little: bool, r: Raw)
    requires |r.src| == 16
    ensures Parsed(little, RawBytes(little, r)) == Some(Event(Shortened(r.src), r.port, r.dropped, ProtoString(r.proto)))
  {
    var b := RawBytes(little, r);
    assert b[..16] == r.src && b[16..18] == Store16(little, r.port);
    assert b[16..18][0] == b[16] && b[16..18][1] == b[17];
    LoadStore(little, 0, 0, r.port);
  }

  /** The decoded event tells what was seen and what became of it. */
  predicate Tells(ev: Option<Event>, s: Seen, o: Outcome) {
    && ev.Some? && !s.Unseen?
    && To16(ev.value.src) == Some(s.src) && ev.value.dropped == o.Dropped?
    && ev.value.port == (if s.Transport? then s.port else 0)
    && ev.value.protocol == (if s.Icmp? then "icmp" else if s.proto == 6 then "tcp" else "udp")
  }

  lemma {:induction false} SeenDecodes(little: bool, t: Tables, now: nat, s: Seen)
    requires !s.Unseen? ==> |s.src| == 16
    requires s.Icmp? ==> s.proto == 1 || s.proto == 58
    requires s.Transport? ==> s.proto == 6 || s.proto == 17
    requires EventOf(JudgeSeen(t, now, s)).Some?
    ensures var o := JudgeSeen(t, now, s); Tells(Parsed(little, RawBytes(little, EventOf(o).value)), s, o)
  {
    var r := EventOf(JudgeSeen(t, now, s)).value;
    RawDecodes(little, r);
    ShortenedSame(r.src);
  }

  /** Every emitted event decodes to the packet's source, port and protocol and to what became of it. */
  lemma {:induction false} EventsDecode(little: bool, t: Tables, now: nat, p: seq<byte>)
    requires EventOf(Judge(t, now, p)).Some?
    ensures var o := Judge(t, now, p); Tells(Parsed(little, RawBytes(little, EventOf(o).value)), SeenIn(p), o)
  {
    SeenDecodes(little, t, now, SeenIn(p));
  }
}
