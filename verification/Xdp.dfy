/** The XDP program, the userspace side of its ban map and the events it emits. Addresses and ports
    cross between the two programs as raw bytes; `little` is the byte order of the machine. */
module Xdp {
  import opened Basics

  const U64: int := 0x1_0000_0000_0000_0000
  const I64: int := 0x8000_0000_0000_0000
  const MAX_BANS: nat := 65536

  // ---- Byte order ----

  /** A native 16-bit load. */
  function Load16(little: bool, b0: byte, b1: byte): u16 {
    if little then Word(b1, b0) else Word(b0, b1)
  }

  /** A native 16-bit store. */
  function Store16(little: bool, v: u16): (b: seq<byte>)
    ensures |b| == 2
  {
    if little then [v % 256, v / 256] else [v / 256, v % 256]
  }

  /** `bpf_ntohs`. */
  function Ntohs(little: bool, v: u16): u16 {
    if little then Word(v % 256, v / 256) else v
  }

  lemma {:induction false} LoadStore(little: bool, b0: byte, b1: byte, v: u16)
    ensures Store16(little, Load16(little, b0, b1)) == [b0, b1] == Word16(Word(b0, b1))
    ensures Ntohs(little, Load16(little, b0, b1)) == Word(b0, b1)
    ensures Load16(little, Store16(little, v)[0], Store16(little, v)[1]) == v
  {
  }

  // ---- Addresses and keys ----

  const V4_PREFIX: seq<byte> := [0, 0, 0, 0, 0, 0, 0, 0, 0, 0, 0xff, 0xff]

  /** `net.IP.To16`. */
  function To16(ip: seq<byte>): Option<seq<byte>> {
    if |ip| == 4 then Some(V4_PREFIX + ip) else if |ip| == 16 then Some(ip) else None
  }

  /** `net.IP.To4` on sixteen bytes: the IPv4 form of a v4-mapped address. */
  function Shortened(ip: seq<byte>): seq<byte>
    requires |ip| == 16
  {
    if ip[..12] == V4_PREFIX then ip[12..] else ip
  }

  lemma {:induction false} ShortenedSame(ip: seq<byte>)
    requires |ip| == 16
    ensures To16(Shortened(ip)) == Some(ip)
  {
    assert ip == ip[..12] + ip[12..];
  }

  /** The map key: address, port in network order, padding. */
  function KeyBytes(src: seq<byte>, port: u16): seq<byte> {
    src + Word16(port) + [0, 0]
  }

  lemma {:induction false} KeyInjective(a: seq<byte>, p: u16, b: seq<byte>, q: u16)
    requires |a| == 16 && |b| == 16
    ensures KeyBytes(a, p) == KeyBytes(b, q) <==> a == b && p == q
  {
    var k, l := KeyBytes(a, p), KeyBytes(b, q);
    assert k[..16] == a && l[..16] == b;
    assert k[16..18] == Word16(p) && l[16..18] == Word16(q);
    if k == l {
      assert Word16(p)[0] == Word16(q)[0] && Word16(p)[1] == Word16(q)[1];
    }
  }

  // ---- What a packet says ----

  datatype Network = NoIp | Ip(src: seq<byte>, proto: byte, l4: nat)

  predicate Multicast4(p: seq<byte>)
    requires |p| >= 34
  {
    p[30] / 16 == 14 || (p[30] == 0xff && p[31] == 0xff && p[32] == 0xff && p[33] == 0xff)
  }

  /** Ethernet and IP headers: the sixteen-byte source and where the transport header starts. */
  function NetworkOf(p: seq<byte>): (n: Network)
    ensures n.Ip? ==> |n.src| == 16 && n.l4 >= 34
  {
    if |p| < 14 then NoIp
    else
      var kind := Word(p[12], p[13]);
      if kind == 0x0800 then
        if |p| < 34 || p[14] % 16 < 5 || Multicast4(p) then NoIp
        else Ip(V4_PREFIX + p[26..30], p[23], 14 + p[14] % 16 * 4)
      else if kind == 0x86dd then
        if |p| < 54 || p[38] == 0xff then NoIp else Ip(p[22..38], p[20], 54)
      else NoIp
  }

  /** What the program sees: nothing of interest, an ICMP message, or a packet to a port that may
      open a connection. */
  datatype Seen = Unseen | Icmp(src: seq<byte>, proto: byte, kind: byte) | Transport(src: seq<byte>, proto: byte, port: u16, opens: bool)

  predicate Icmp4Reply(t: byte) {
    t == 0 || t == 3 || t == 4 || t == 5 || t == 11 || t == 12 || t == 14 || t == 16 || t == 18
  }

  predicate Icmp6Reply(t: byte) {
    (1 <= t <= 4) || (129 <= t <= 137)
  }

  predicate UdpReply(sport: u16, dport: u16) {
    dport >= 32768 && (sport < 1024 || sport == 5353 || sport == 1900 || sport == 3478 || sport == 4500 || sport == 5060)
  }

  /** SYN without ACK. */
  predicate Opens(flags: byte) {
    flags / 2 % 2 == 1 && flags / 16 % 2 == 0
  }

  function SeenIn(p: seq<byte>): (s: Seen)
    ensures !s.Unseen? ==> |s.src| == 16
    ensures s.Icmp? ==> s.proto == 1 || s.proto == 58
    ensures s.Transport? ==> s.proto == 6 || s.proto == 17
  {
    match NetworkOf(p)
    case NoIp => Unseen
    case Ip(src, proto, l4) =>
      if proto == 6 then
        if |p| < l4 + 20 then Unseen else Transport(src, 6, Word(p[l4 + 2], p[l4 + 3]), Opens(p[l4 + 13]))
      else if proto == 17 then
        if |p| < l4 + 8 then Unseen
        else
          var port := Word(p[l4 + 2], p[l4 + 3]);
          Transport(src, 17, port, !UdpReply(Word(p[l4], p[l4 + 1]), port))
      else if proto == 1 || proto == 58 then
        if |p| < l4 + 1 then Unseen else Icmp(src, proto, p[l4])
      else Unseen
  }

  // ---- Verdict ----

  datatype Tables = Tables(bans: map<seq<byte>, nat>, mgmtPorts: set<u16>, allowed: set<seq<byte>>)

  datatype Raw = Raw(src: seq<byte>, port: u16, dropped: bool, proto: byte)

  datatype Outcome = Ignored | Passed(event: Option<Raw>) | Dropped(event: Option<Raw>)

  predicate Banned(t: Tables, now: nat, src: seq<byte>, port: u16) {
    KeyBytes(src, port) in t.bans && now < t.bans[KeyBytes(src, port)]
  }

  predicate Managed(t: Tables, src: seq<byte>, port: u16) {
    port in t.mgmtPorts || src in t.allowed
  }

  function Judge(t: Tables, now: nat, p: seq<byte>): Outcome {
    JudgeSeen(t, now, SeenIn(p))
  }

  function JudgeSeen(t: Tables, now: nat, s: Seen): Outcome {
    match s
    case Unseen => Ignored
    case Icmp(src, proto, kind) =>
      Passed(if (if proto == 1 then Icmp4Reply(kind) else Icmp6Reply(kind)) then None else Some(Raw(src, 0, false, proto)))
    case Transport(src, proto, port, opens) =>
      if Managed(t, src, port) then Ignored
      else if Banned(t, now, src, port) then Dropped(if opens then Some(Raw(src, port, true, proto)) else None)
      else Passed(if opens then Some(Raw(src, port, false, proto)) else None)
  }

  function EventOf(o: Outcome): Option<Raw> {
    if o.Ignored? then None else o.event
  }

  /** The twenty bytes of `struct event`. */
  function RawBytes(little: bool, r: Raw): seq<byte> {
    r.src + Store16(little, r.port) + [if r.dropped then 1 else 0, r.proto]
  }

  // ---- The programs ----

  method CopyInto(dst: array<byte>, at: nat, src: seq<byte>)
    requires at + |src| <= dst.Length
    modifies dst
    ensures dst[..] == old(dst[..at]) + src + old(dst[at + |src|..])
  {
    for i := 0 to |src|
      invariant dst[..] == old(dst[..at]) + src[..i] + old(dst[at + i..])
    {
      dst[at + i] := src[i];
    }
  }

  predicate Zeroed(key: array<byte>)
    reads key
  {
    key.Length == 20 && forall i :: 0 <= i < 20 ==> key[i] == 0
  }

  /** The v4-mapped source of an IPv4 packet. */
  method FillMapped(key: array<byte>, ip: seq<byte>)
    requires Zeroed(key) && |ip| == 4
    modifies key
    ensures key[..16] == V4_PREFIX + ip && key[16..] == [0, 0, 0, 0]
  {
    key[10] := 0xff;
    key[11] := 0xff;
    assert key[..12] == V4_PREFIX && key[16..] == [0, 0, 0, 0];
    CopyInto(key, 12, ip);
  }

  method FillWhole(key: array<byte>, ip: seq<byte>)
    requires Zeroed(key) && |ip| == 16
    modifies key
    ensures key[..16] == ip && key[16..] == [0, 0, 0, 0]
  {
    assert key[16..] == [0, 0, 0, 0];
    CopyInto(key, 0, ip);
  }

  /** `makeBanKey`. */
  method MakeBanKey(ip: seq<byte>, port: u16) returns (key: Option<seq<byte>>)
    ensures key == if To16(ip).None? then None else Some(KeyBytes(To16(ip).value, port))
  {
    var ip16 := To16(ip);
    if ip16.None? {
      return None;
    }
    var k := new byte[20](_ => 0);
    FillWhole(k, ip16.value);
    assert k[18..] == k[16..][2..];
    CopyInto(k, 16, Word16(port));
    assert k[..] == KeyBytes(ip16.value, port);
    key := Some(k[..]);
  }

  /** `uint64(uptime) + uint64(duration)`, wrapping. */
  function Expiry(uptime: int, duration: int): nat {
    (uptime % U64 + duration % U64) % U64
  }

  /** Durations are signed: the sum is right exactly when it is not negative. */
  lemma {:induction false} ExpiryExactIff(uptime: int, duration: int)
    requires 0 <= uptime < I64 && -I64 <= duration < I64
    ensures Expiry(uptime, duration) == uptime + duration <==> uptime + duration >= 0
  {
  }

  /** The table updates of `Ban` and `Unban`. A full map refuses new keys. */
  function AfterBan(t: Tables, ip: seq<byte>, port: u16, uptime: int, duration: int): Option<Tables> {
    if To16(ip).None? then None
    else
      var key := KeyBytes(To16(ip).value, port);
      if key !in t.bans && |t.bans| >= MAX_BANS then None else Some(t.(bans := t.bans[key := Expiry(uptime, duration)]))
  }

  function AfterUnban(t: Tables, ip: seq<byte>, port: u16): Option<Tables> {
    if To16(ip).None? then None else Some(t.(bans := t.bans - {KeyBytes(To16(ip).value, port)}))
  }

  /** The kernel's maps, counters and event stream, with the manager's switch. */
  class Filter {
    const little: bool
    var active: bool
    var tables: Tables
    var passed: nat
    var dropped: nat
    var events: seq<seq<byte>>

    constructor (little: bool, mgmtPorts: set<u16>, allowed: set<seq<byte>>)
      ensures this.little == little && active && tables == Tables(map[], mgmtPorts, allowed)
      ensures passed == 0 && dropped == 0 && events == []
    {
      this.little, active, tables, passed, dropped, events := little, true, Tables(map[], mgmtPorts, allowed), 0, 0, [];
    }

    /** `Manager.Ban`, the address parsed. False is an error. */
    method Ban(ip: seq<byte>, port: u16, uptime: int, duration: int) returns (ok: bool)
      modifies this`tables
      ensures !active ==> ok && tables == old(tables)
      ensures active ==> ok == AfterBan(old(tables), ip, port, uptime, duration).Some?
      ensures active ==> tables == if ok then AfterBan(old(tables), ip, port, uptime, duration).value else old(tables)
    {
      if !active {
        return true;
      }
      var key := MakeBanKey(ip, port);
      if key.None? {
        return false;
      }
      if key.value !in tables.bans && |tables.bans| >= MAX_BANS {
        return false;
      }
      tables := tables.(bans := tables.bans[key.value := Expiry(uptime, duration)]);
      return true;
    }

    /** `Manager.Unban`. */
    method Unban(ip: seq<byte>, port: u16) returns (ok: bool)
      modifies this`tables
      ensures !active ==> ok && tables == old(tables)
      ensures active ==> ok == AfterUnban(old(tables), ip, port).Some?
      ensures active ==> tables == if ok then AfterUnban(old(tables), ip, port).value else old(tables)
    {
      if !active {
        return true;
      }
      var key := MakeBanKey(ip, port);
      if key.None? {
        return false;
      }
      tables := tables.(bans := tables.bans - {key.value});
      return true;
    }

    /** `emit`. */
    method Emit(src: seq<byte>, port: u16, wasDropped: bool, proto: byte)
      requires |src| == 16
      modifies this`events
      ensures events == old(events) + [RawBytes(little, Raw(src, port, wasDropped, proto))]
    {
      var ev := new byte[20](_ => 0);
      CopyInto(ev, 0, src);
      CopyInto(ev, 16, Store16(little, port));
      ev[18] := if wasDropped then 1 else 0;
      ev[19] := proto;
      assert ev[..] == RawBytes(little, Raw(src, port, wasDropped, proto));
      events := events + [ev[..]];
    }

    /** `bpf_ntohs` of a header field. */
    method ReadHost16(b0: byte, b1: byte) returns (v: u16)
      ensures v == Word(b0, b1)
    {
      v := Ntohs(little, Load16(little, b0, b1));
      LoadStore(little, b0, b1, 0);
    }

    /** A header field as it stands. */
    method ReadNet16(b0: byte, b1: byte) returns (v: u16)
      ensures Carries(v, Word(b0, b1))
    {
      v := Load16(little, b0, b1);
      LoadStore(little, b0, b1, 0);
    }

    /** `net` is `port` in network order. */
    predicate Carries(net: u16, port: u16) {
      Store16(little, net) == Word16(port) && Ntohs(little, net) == port
    }

    /** Fills the source part of the key from the IP header; none if the packet is to be passed over. */
    method ReadNetwork(p: seq<byte>, key: array<byte>) returns (ip: bool, proto: byte, l4: nat)
      requires Zeroed(key)
      modifies key
      ensures ip == NetworkOf(p).Ip?
      ensures ip ==> NetworkOf(p) == Ip(key[..16], proto, l4) && key[16..] == [0, 0, 0, 0]
    {
      ip, proto, l4 := false, 0, 0;
      if |p| < 14 {
        return;
      }
      var kind := ReadHost16(p[12], p[13]);
      if kind == 0x0800 {
        if |p| < 34 {
          return;
        }
        if p[14] % 16 < 5 {
          return;
        }
        if p[30] / 16 == 14 || (p[30] == 0xff && p[31] == 0xff && p[32] == 0xff && p[33] == 0xff) {
          return;
        }
        ip, proto, l4 := true, p[23], 14 + p[14] % 16 * 4;
        FillMapped(key, p[26..30]);
      } else if kind == 0x86dd {
        if |p| < 54 {
          return;
        }
        if p[38] == 0xff {
          return;
        }
        ip, proto, l4 := true, p[20], 54;
        FillWhole(key, p[22..38]);
      }
    }

    /** `xdp_capture`; the result is whether the packet is dropped. */
    method Capture(p: seq<byte>, now: nat) returns (drop: bool)
      modifies this`passed, this`dropped, this`events
      ensures var o := Judge(tables, now, p);
              && drop == o.Dropped?
              && passed == old(passed) + (if o.Passed? then 1 else 0) && dropped == old(dropped) + (if o.Dropped? then 1 else 0)
              && events == old(events) + (if EventOf(o).Some? then [RawBytes(little, EventOf(o).value)] else [])
    {
      var key := new byte[20](_ => 0);
      var ip, proto, l4 := ReadNetwork(p, key);
      if !ip {
        return false;
      }
      var dstNet, opens := 0, true;
      if proto == 6 {
        if |p| < l4 + 20 {
          return false;
        }
        dstNet := ReadNet16(p[l4 + 2], p[l4 + 3]);
        opens := p[l4 + 13] / 2 % 2 == 1 && !(p[l4 + 13] / 16 % 2 == 1);
      } else if proto == 17 {
        if |p| < l4 + 8 {
          return false;
        }
        dstNet := ReadNet16(p[l4 + 2], p[l4 + 3]);
        var source := ReadHost16(p[l4], p[l4 + 1]);
        opens := !UdpReply(source, Ntohs(little, dstNet));
      } else if proto == 1 || proto == 58 {
        if |p| < l4 + 1 {
          return false;
        }
        passed := passed + 1;
        var reply := if proto == 1 then Icmp4Reply(p[l4]) else Icmp6Reply(p[l4]);
        if !reply {
          Emit(key[..16], 0, false, proto);
        }
        return false;
      } else {
        return false;
      }
      drop := Enforce(key, proto, dstNet, Word(p[l4 + 2], p[l4 + 3]), opens, now);
    }

    /** The table lookups behind the headers. `port` is the port the packet carries. */
    method Enforce(
      key: array<byte>, proto: byte, dstNet: u16, ghost port: u16, opens: bool, now: nat) returns (drop: bool)
      requires key.Length == 20 && key[16..] == [0, 0, 0, 0]
      requires Carries(dstNet, port)
      modifies key, this`passed, this`dropped, this`events
      ensures var src := old(key[..16]);
              var managed, banned := Managed(tables, src, port), Banned(tables, now, src, port);
              && drop == (!managed && banned)
              && passed == old(passed) + (if !managed && !banned then 1 else 0) && dropped == old(dropped) + (if drop then 1 else 0)
              && events == old(events) + (if !managed && opens then [RawBytes(little, Raw(src, port, drop, proto))] else [])
    {
      var dstPort := Ntohs(little, dstNet);
      if dstPort in tables.mgmtPorts {
        return false;
      }
      var src := key[..16];
      if src in tables.allowed {
        return false;
      }
      CopyInto(key, 16, Store16(little, dstNet));
      assert key[..] == KeyBytes(src, port);
      drop := key[..] in tables.bans && now < tables.bans[key[..]];
      if drop {
        dropped := dropped + 1;
      } else {
        passed := passed + 1;
      }
      if opens {
        Emit(src, dstPort, drop, proto);
      }
    }
  }
}
