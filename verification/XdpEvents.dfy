/** Which packets the XDP program counts, drops and reports, said of the frames on the wire. */
module XdpEvents {
  import opened Basics
  import opened Xdp
  import opened XdpEnforcement
  import Bits

  // ---- Frames ----

  const TCP: byte := 6
  const UDP: byte := 17
  const ICMP: byte := 1
  const ICMPV6: byte := 58

  predicate IsTransport(f: Frame) {
    (f.proto == TCP && |f.l4| >= 20) || (f.proto == UDP && |f.l4| >= 8)
  }

  predicate IsIcmp(f: Frame) {
    (f.proto == ICMP || f.proto == ICMPV6) && |f.l4| >= 1
  }

  function SourcePort(f: Frame): u16
    requires IsTransport(f)
  {
    Word(f.l4[0], f.l4[1])
  }

  function DestPort(f: Frame): u16
    requires IsTransport(f)
  {
    Word(f.l4[2], f.l4[3])
  }

  /** Every packet the program does not pass over is such a frame. */
  lemma {:induction false} PacketIsFrame(p: seq<byte>) returns (f: Frame)
    requires !SeenIn(p).Unseen?
    ensures FrameOk(f) && Encode(f) == p && !ToMany(f) && (IsTransport(f) || IsIcmp(f))
  {
    if Word(p[12], p[13]) == 0x0800 {
      f := Frame4Of(p);
      NetworkRead(f);
    } else {
      f := Frame6Of(p);
      NetworkRead(f);
    }
  }

  lemma {:induction false} Frame4Of(p: seq<byte>) returns (f: Frame)
    requires |p| >= 34 && Word(p[12], p[13]) == 0x0800 && p[14] % 16 >= 5 && |p| >= 14 + p[14] % 16 * 4
    ensures FrameOk(f) && Encode(f) == p
  {
    var w := p[14] % 16;
    f := Frame4(p[..12], p[14] / 16, w, p[15..23], p[23], p[24..26], p[26..30], p[30..34], p[34..14 + 4 * w], p[14 + 4 * w..]);
    assert p[12] == 0x08 && p[13] == 0x00 && p[14] / 16 * 16 + w == p[14];
  }

  lemma {:induction false} Frame6Of(p: seq<byte>) returns (f: Frame)
    requires |p| >= 54 && Word(p[12], p[13]) == 0x86dd
    ensures FrameOk(f) && Encode(f) == p
  {
    f := Frame6(p[..12], p[14..20], p[20], p[21], p[22..38], p[38..54], p[54..]);
    assert p[12] == 0x86 && p[13] == 0xdd;
  }

  // ---- What opens a conversation ----

  lemma {:induction false} FlagBits(flags: byte)
    ensures Bits.And(flags, 0x02) != 0 <==> flags / 2 % 2 == 1
    ensures Bits.And(flags, 0x10) != 0 <==> flags / 16 % 2 == 1
  {
    Bits.AndOdd(flags / 2, 0);
    Bits.AndEven(flags, 1);
    Bits.AndOdd(flags / 16, 0);
    Bits.AndNoDigit(flags, 1);
  }

  /** A TCP segment with SYN and without ACK. */
  predicate OpensTcp(f: Frame)
    requires IsTransport(f) && f.proto == TCP
  {
    Bits.And(f.l4[13], 0x02) != 0 && Bits.And(f.l4[13], 0x10) == 0
  }

  const SERVER_PORTS: set<u16> := {5353, 1900, 3478, 4500, 5060}

  /** A datagram from a server's port to an ephemeral one looks like a reply. */
  predicate LooksLikeReply(f: Frame)
    requires IsTransport(f)
  {
    DestPort(f) >= 32768 && (SourcePort(f) < 1024 || SourcePort(f) in SERVER_PORTS)
  }

  const ICMP_REPLIES: set<byte> := {0, 3, 4, 5, 11, 12, 14, 16, 18}
  const ICMPV6_REPLIES: set<byte> := {1, 2, 3, 4, 129, 130, 131, 132, 133, 134, 135, 136, 137}

  /** Echo requests and other probes, not replies and errors. */
  predicate IsProbe(f: Frame)
    requires IsIcmp(f)
  {
    f.l4[0] !in if f.proto == ICMP then ICMP_REPLIES else ICMPV6_REPLIES
  }

  /** The packet starts something. */
  predicate Starts(f: Frame)
    requires IsTransport(f) || IsIcmp(f)
  {
    if IsIcmp(f) then IsProbe(f) else if f.proto == TCP then OpensTcp(f) else !LooksLikeReply(f)
  }

  /** Management traffic is left alone. */
  predicate LeftAlone(t: Tables, f: Frame)
    requires FrameOk(f) && IsTransport(f)
  {
    DestPort(f) in t.mgmtPorts || Source(f) in t.allowed
  }

  /** A ban of source and port has not expired. */
  predicate UnderBan(t: Tables, now: nat, f: Frame)
    requires FrameOk(f) && IsTransport(f)
  {
    KeyBytes(Source(f), DestPort(f)) in t.bans && now < t.bans[KeyBytes(Source(f), DestPort(f))]
  }

  lemma {:induction false} Located(f: Frame, i: nat)
    requires FrameOk(f) && !ToMany(f) && i < |f.l4|
    ensures var n := NetworkOf(Encode(f)); n.Ip? && n.l4 + i < |Encode(f)| && Encode(f)[n.l4 + i] == f.l4[i]
  {
    NetworkRead(f);
    var p, n := Encode(f), NetworkOf(Encode(f)).l4;
    assert p[n..][i] == p[n + i];
  }

  lemma {:induction false} TcpSeen(f: Frame)
    requires FrameOk(f) && !ToMany(f) && IsTransport(f) && f.proto == TCP
    ensures SeenIn(Encode(f)) == Transport(Source(f), TCP, DestPort(f), OpensTcp(f))
  {
    NetworkRead(f);
    Located(f, 2);
    Located(f, 3);
    Located(f, 13);
    FlagBits(f.l4[13]);
  }

  lemma {:induction false} ReplyIff(f: Frame)
    requires IsTransport(f)
    ensures UdpReply(SourcePort(f), DestPort(f)) <==> LooksLikeReply(f)
  {
  }

  lemma {:induction false} UdpSeen(f: Frame)
    requires FrameOk(f) && !ToMany(f) && IsTransport(f) && f.proto == UDP
    ensures SeenIn(Encode(f)) == Transport(Source(f), UDP, DestPort(f), !LooksLikeReply(f))
  {
    NetworkRead(f);
    Located(f, 0);
    Located(f, 1);
    Located(f, 2);
    Located(f, 3);
    ReplyIff(f);
  }

  lemma {:induction false} IcmpSeen(f: Frame)
    requires FrameOk(f) && !ToMany(f) && IsIcmp(f)
    ensures SeenIn(Encode(f)) == Icmp(Source(f), f.proto, f.l4[0])
  {
    NetworkRead(f);
    Located(f, 0);
  }

  lemma {:induction false} ProbeIff(f: Frame)
    requires IsIcmp(f)
    ensures IsProbe(f) <==> !(if f.proto == 1 then Icmp4Reply(f.l4[0]) else Icmp6Reply(f.l4[0]))
  {
  }

  lemma {:induction false} NothingSeen(f: Frame)
    requires FrameOk(f) && (ToMany(f) || (!IsTransport(f) && !IsIcmp(f)))
    ensures SeenIn(Encode(f)) == Unseen
  {
    NetworkRead(f);
  }

  /** What the program sees of a frame. */
  lemma {:induction false} FrameSeen(f: Frame)
    requires FrameOk(f) && !ToMany(f)
    ensures var s := SeenIn(Encode(f));
            && (IsTransport(f) ==> s == Transport(Source(f), f.proto, DestPort(f), Starts(f)))
            && (IsIcmp(f) ==> s == Icmp(Source(f), f.proto, f.l4[0]))
            && (!IsTransport(f) && !IsIcmp(f) ==> s == Unseen)
  {
    if IsIcmp(f) {
      IcmpSeen(f);
    } else if !IsTransport(f) {
      NothingSeen(f);
    } else if f.proto == TCP {
      TcpSeen(f);
    } else {
      UdpSeen(f);
    }
  }

  /** The verdict on every frame: passed over, dropped or passed, and counted as such. */
  lemma {:induction false} VerdictIff(t: Tables, now: nat, f: Frame)
    requires FrameOk(f)
    ensures var o := Judge(t, now, Encode(f));
            && (o.Dropped? <==> !ToMany(f) && IsTransport(f) && !LeftAlone(t, f) && UnderBan(t, now, f))
            && (o.Passed? <==> !ToMany(f) && (IsIcmp(f) || (IsTransport(f) && !LeftAlone(t, f) && !UnderBan(t, now, f))))
  {
    if ToMany(f) {
      NothingSeen(f);
    } else {
      FrameSeen(f);
    }
  }

  /** An event is emitted exactly for unicast frames that start something and are not management traffic, and it
      states their source, port, protocol and fate. */
  lemma {:induction false} EmittedIff(t: Tables, now: nat, f: Frame)
    requires FrameOk(f)
    ensures var e := EventOf(Judge(t, now, Encode(f)));
            && (e.Some? <==> !ToMany(f) && ((IsTransport(f) && !LeftAlone(t, f)) || IsIcmp(f)) && Starts(f))
            && (e.Some? && IsIcmp(f) ==> e.value == Raw(Source(f), 0, false, f.proto))
            && (e.Some? && IsTransport(f) ==> e.value == Raw(Source(f), DestPort(f), UnderBan(t, now, f), f.proto))
  {
    if ToMany(f) {
      NothingSeen(f);
    } else {
      FrameSeen(f);
      if IsIcmp(f) {
        ProbeIff(f);
      }
    }
  }

  /** Everything else is passed without a trace. */
  lemma {:induction false} OthersIgnored(t: Tables, now: nat, p: seq<byte>)
    requires forall f :: FrameOk(f) && Encode(f) == p ==> ToMany(f) || !(IsTransport(f) || IsIcmp(f))
    ensures Judge(t, now, p) == Ignored
  {
    if !SeenIn(p).Unseen? {
      var f := PacketIsFrame(p);
      assert false;
    }
  }
}
