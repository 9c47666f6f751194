/** The MQTT decoder: packet framing and the CONNECT packet of section 3.1 of MQTT 3.1.1 and 5.0. */
module Mqtt {
  import opened Basics
  import opened VarInts

  const MAX_PACKET: nat := 4096

  // ---- Fields ----

  datatype Field = Field(s: seq<byte>, rest: seq<byte>) | NoField

  /** `mqttStr`. */
  function StrOf(b: seq<byte>): Field {
    if |b| < 2 then NoField
    else
      var n := Word(b[0], b[1]);
      if n > |b| - 2 then NoField else Field(b[2..2 + n], b[2 + n..])
  }

  /** `mqttVarint`: at most four bytes. */
  function VarintOf(b: seq<byte>): Read {
    ReadAt(b, 0, 4)
  }

  method ReadVarint(b: seq<byte>) returns (v: nat, n: nat, ok: bool)
    ensures ok == VarintOf(b).Got?
    ensures ok ==> VarintOf(b) == Got(v, n)
    ensures !ok ==> v == 0 && n == 0
  {
    var mult: nat := 1;
    v, n := 0, 0;
    LoopsRead(b, 0, 4);
    while n < 4
      invariant n <= 4 && mult == Pow128(n)
      invariant Accumulated(b, n, 4 - n, v, n) == VarintOf(b)
    {
      if n >= |b| {
        return 0, 0, false;
      }
      var d: nat := b[n];
      ShlIsProduct(d % 128, n);
      v := v + d % 128 * mult;
      n := n + 1;
      if d < 128 {
        return v, n, true;
      }
      mult := mult * 128;
    }
    return 0, 0, false;
  }

  /** A length and that many property bytes to skip. */
  function SkipProps(b: seq<byte>): Field {
    match VarintOf(b)
    case Got(pl, n) => if pl > |b| - n then NoField else Field(b[n..n + pl], b[n + pl..])
    case _ => NoField
  }

  // ---- CONNECT ----

  datatype Error = NoError | BadProtocolName | ShortHeader | BadProperties | BadClientId | BadWillProperties | BadWillTopic
    | BadWillPayload | BadUsername | BadPassword

  datatype Connect = Connect(
    proto: seq<byte>, level: byte, flags: byte, keepAlive: nat, clientId: seq<byte>, willTopic: seq<byte>,
    user: seq<byte>, pass: seq<byte>, hasUser: bool, hasPass: bool)

  const BLANK := Connect([], 0, 0, 0, [], [], [], [], false, false)

  predicate HasWill(flags: byte) { flags / 4 % 2 == 1 }

  predicate HasUser(flags: byte) { flags / 128 % 2 == 1 }

  predicate HasPass(flags: byte) { flags / 64 % 2 == 1 }

  /** Fields parsed so far and the error that ended parsing. */
  datatype Outcome = Outcome(m: Connect, err: Error)

  function PassStage(m: Connect, b: seq<byte>): Outcome {
    if !HasPass(m.flags) then Outcome(m, NoError)
    else
      match StrOf(b)
      case Field(s, _) => Outcome(m.(pass := s, hasPass := true), NoError)
      case NoField => Outcome(m, BadPassword)
  }

  function UserStage(m: Connect, b: seq<byte>): Outcome {
    if !HasUser(m.flags) then PassStage(m, b)
    else
      match StrOf(b)
      case Field(s, rest) => PassStage(m.(user := s, hasUser := true), rest)
      case NoField => Outcome(m, BadUsername)
  }

  function PayloadStage(m: Connect, b: seq<byte>): Outcome {
    match StrOf(b)
    case Field(_, rest) => UserStage(m, rest)
    case NoField => Outcome(m, BadWillPayload)
  }

  function TopicStage(m: Connect, b: seq<byte>): Outcome {
    match StrOf(b)
    case Field(s, rest) => PayloadStage(m.(willTopic := s), rest)
    case NoField => Outcome(m, BadWillTopic)
  }

  function WillStage(m: Connect, b: seq<byte>): Outcome {
    if !HasWill(m.flags) then UserStage(m, b)
    else if m.level < 5 then TopicStage(m, b)
    else
      match SkipProps(b)
      case Field(_, rest) => TopicStage(m, rest)
      case NoField => Outcome(m, BadWillProperties)
  }

  function IdStage(m: Connect, b: seq<byte>): Outcome {
    match StrOf(b)
    case Field(s, rest) => WillStage(m.(clientId := s), rest)
    case NoField => Outcome(m, BadClientId)
  }

  function PropsStage(m: Connect, b: seq<byte>): Outcome {
    if m.level < 5 then IdStage(m, b)
    else
      match SkipProps(b)
      case Field(_, rest) => IdStage(m, rest)
      case NoField => Outcome(m, BadProperties)
  }

  function HeaderStage(m: Connect, b: seq<byte>): Outcome {
    if |b| < 4 then Outcome(m, ShortHeader)
    else PropsStage(m.(level := b[0], flags := b[1], keepAlive := Word(b[2], b[3])), b[4..])
  }

  /** What a CONNECT body says. */
  function ConnectOf(b: seq<byte>): Outcome {
    match StrOf(b)
    case Field(s, rest) => HeaderStage(BLANK.(proto := s), rest)
    case NoField => Outcome(BLANK, BadProtocolName)
  }

  /** `mqttStr`: the string, what is left, and whether there was one. */
  method ReadStr(b: seq<byte>) returns (s: seq<byte>, rest: seq<byte>, ok: bool)
    ensures ok == StrOf(b).Field?
    ensures ok ==> StrOf(b) == Field(s, rest)
    ensures !ok ==> s == [] && rest == b
  {
    if |b| < 2 {
      return [], b, false;
    }
    var n := Word(b[0], b[1]);
    if n > |b| - 2 {
      return [], b, false;
    }
    return b[2..2 + n], b[2 + n..], true;
  }

  method DropProps(b: seq<byte>) returns (rest: seq<byte>, ok: bool)
    ensures ok == SkipProps(b).Field?
    ensures ok ==> SkipProps(b).rest == rest
  {
    var pl, n, got := ReadVarint(b);
    if !got || pl > |b| - n {
      return b, false;
    }
    return b[n + pl..], true;
  }

  /** The first half of `parseMQTTConnect`: everything up to the client identifier. */
  method ParseHead(b0: seq<byte>) returns (m: Connect, rest: seq<byte>, err: Error)
    ensures ConnectOf(b0) == if err == NoError then WillStage(m, rest) else Outcome(m, err)
    ensures m.willTopic == [] && m.user == [] && m.pass == []
  {
    var b, ok;
    m, rest := BLANK, [];
    var proto;
    proto, b, ok := ReadStr(b0);
    m := m.(proto := proto);
    if !ok {
      return m, [], BadProtocolName;
    }
    if |b| < 4 {
      return m, [], ShortHeader;
    }
    m := m.(level := b[0], flags := b[1], keepAlive := Word(b[2], b[3]));
    b := b[4..];
    if m.level >= 5 {
      b, ok := DropProps(b);
      if !ok {
        return m, [], BadProperties;
      }
    }
    var id;
    id, b, ok := ReadStr(b);
    m := m.(clientId := id);
    if !ok {
      return m, [], BadClientId;
    }
    return m, b, NoError;
  }

  /** The second half: will, user name and password, as the flags announce them. */
  method ParseTail(m0: Connect, b0: seq<byte>) returns (m: Connect, err: Error)
    requires m0.willTopic == [] && m0.user == [] && m0.pass == []
    ensures WillStage(m0, b0) == Outcome(m, err)
  {
    var b, ok := b0, true;
    m := m0;
    if m.flags / 4 % 2 == 1 {
      if m.level >= 5 {
        b, ok := DropProps(b);
        if !ok {
          return m, BadWillProperties;
        }
      }
      var topic, payload;
      topic, b, ok := ReadStr(b);
      m := m.(willTopic := topic);
      if !ok {
        return m, BadWillTopic;
      }
      payload, b, ok := ReadStr(b);
      if !ok {
        return m, BadWillPayload;
      }
    }
    if m.flags / 128 % 2 == 1 {
      var user;
      user, b, ok := ReadStr(b);
      m := m.(user := user);
      if !ok {
        return m, BadUsername;
      }
      m := m.(hasUser := true);
    }
    if m.flags / 64 % 2 == 1 {
      var pass, rest;
      pass, rest, ok := ReadStr(b);
      m := m.(pass := pass);
      if !ok {
        return m, BadPassword;
      }
      m := m.(hasPass := true);
    }
    return m, NoError;
  }

  /** `parseMQTTConnect`. */
  method ParseConnect(b: seq<byte>) returns (m: Connect, err: Error)
    ensures Outcome(m, err) == ConnectOf(b)
  {
    var rest;
    m, rest, err := ParseHead(b);
    if err != NoError {
      return;
    }
    m, err := ParseTail(m, rest);
  }

  // ---- Encoding ----

  datatype Will = Will(props: seq<byte>, topic: seq<byte>, payload: seq<byte>)

  /** A CONNECT packet's contents. The properties exist from level 5 on. */
  datatype Request = Request(
    proto: seq<byte>, level: byte, flags: byte, keepAlive: nat, props: seq<byte>, clientId: seq<byte>,
    will: Option<Will>, user: Option<seq<byte>>, pass: Option<seq<byte>>)

  predicate StrFits(s: seq<byte>) {
    |s| < 0x1_0000
  }

  predicate PropsFit(s: seq<byte>) {
    |s| < Pow128(4)
  }

  /** Lengths fit their fields, and the flags announce what follows. */
  predicate Proper(r: Request) {
    && StrFits(r.proto) && r.keepAlive < 0x1_0000 && PropsFit(r.props) && StrFits(r.clientId)
    && (r.will.Some? <==> HasWill(r.flags)) && (r.user.Some? <==> HasUser(r.flags)) && (r.pass.Some? <==> HasPass(r.flags))
    && (r.will.Some? ==> PropsFit(r.will.value.props) && StrFits(r.will.value.topic) && StrFits(r.will.value.payload))
    && (r.user.Some? ==> StrFits(r.user.value)) && (r.pass.Some? ==> StrFits(r.pass.value))
  }

  function EncodeStr(s: seq<byte>): seq<byte>
    requires StrFits(s)
  {
    Word16(|s|) + s
  }

  function EncodeProps(level: byte, s: seq<byte>): seq<byte> {
    if level < 5 then [] else Encode(|s|) + s
  }

  function EncodeOpt(s: Option<seq<byte>>): seq<byte>
    requires s.Some? ==> StrFits(s.value)
  {
    if s.None? then [] else EncodeStr(s.value)
  }

  function EncodeWill(r: Request): seq<byte>
    requires Proper(r)
  {
    if r.will.None? then []
    else EncodeProps(r.level, r.will.value.props) + (EncodeStr(r.will.value.topic) + EncodeStr(r.will.value.payload))
  }

  function EncodeCredentials(r: Request): seq<byte>
    requires Proper(r)
  {
    EncodeOpt(r.user) + EncodeOpt(r.pass)
  }

  function EncodeHeader(r: Request): seq<byte>
    requires Proper(r)
  {
    [r.level, r.flags] + Word16(r.keepAlive)
  }

  function EncodeConnect(r: Request): seq<byte>
    requires Proper(r)
  {
    EncodeStr(r.proto) + (EncodeHeader(r) + (EncodeProps(r.level, r.props) + (EncodeStr(r.clientId) +
    (EncodeWill(r) + EncodeCredentials(r)))))
  }

  /** What the decoder should report. */
  function Said(r: Request): Connect {
    Connect(r.proto, r.level, r.flags, r.keepAlive, r.clientId, if r.will.Some? then r.will.value.topic else [],
            if r.user.Some? then r.user.value else [], if r.pass.Some? then r.pass.value else [], r.user.Some?, r.pass.Some?)
  }

  // ---- Reading back, and cut short ----

  lemma {:induction false} StrReads(s: seq<byte>, rest: seq<byte>)
    requires StrFits(s)
    ensures StrOf(EncodeStr(s) + rest) == Field(s, rest)
  {
    var b := EncodeStr(s) + rest;
    assert Word(b[0], b[1]) == |s|;
    assert b[2..2 + |s|] == s && b[2 + |s|..] == rest;
  }

  lemma {:induction false} StrCut(s: seq<byte>, n: nat)
    requires StrFits(s) && n < |EncodeStr(s)|
    ensures StrOf(EncodeStr(s)[..n]) == NoField
  {
    if n >= 2 {
      assert Word(Word16(|s|)[0], Word16(|s|)[1]) == |s|;
    }
  }

  lemma {:induction false} PropsRead(s: seq<byte>, rest: seq<byte>)
    requires PropsFit(s)
    ensures SkipProps(Encode(|s|) + s + rest) == Field(s, rest)
  {
    var b := Encode(|s|) + s + rest;
    assert b == [] + Encode(|s|) + (s + rest);
    RoundTrip([], |s|, s + rest, 4);
    assert b[|Encode(|s|)|..|Encode(|s|)| + |s|] == s && b[|Encode(|s|)| + |s|..] == rest;
  }

  lemma {:induction false} PropsCut(s: seq<byte>, n: nat)
    requires PropsFit(s) && n < |Encode(|s|) + s|
    ensures SkipProps((Encode(|s|) + s)[..n]) == NoField
  {
    var e := Encode(|s|);
    var b := (e + s)[..n];
    if n < |e| {
      assert b == [] + e[..n];
      CutShort([], |s|, n, 4);
    } else {
      assert b == [] + e + s[..n - |e|];
      RoundTrip([], |s|, s[..n - |e|], 4);
    }
  }

  /** All of `e` has arrived, or only a strict prefix of it. */
  predicate Arrived(b: seq<byte>, e: seq<byte>, whole: bool) {
    if whole then |e| <= |b| && b[..|e|] == e else |b| < |e| && b == e[..|b|]
  }

  lemma {:induction false} ArrivedSplit(b: seq<byte>, e: seq<byte>, f: seq<byte>, whole: bool)
    requires Arrived(b, e + f, whole)
    ensures (!whole && Arrived(b, e, false)) || (|e| <= |b| && b == e + b[|e|..] && Arrived(b[|e|..], f, whole))
  {
    if whole {
      assert b[..|e|] == (e + f)[..|e|] == e;
      assert b[|e|..][..|f|] == b[..|e + f|][|e|..] == f;
    } else if |e| <= |b| {
      assert b[..|e|] == (e + f)[..|b|][..|e|] == e;
      assert b[|e|..] == (e + f)[..|b|][|e|..] == f[..|b| - |e|];
    }
  }

  lemma {:induction false} StrArrived(b: seq<byte>, s: seq<byte>)
    requires StrFits(s)
    ensures Arrived(b, EncodeStr(s), false) ==> StrOf(b) == NoField
    ensures |EncodeStr(s)| <= |b| && b == EncodeStr(s) + b[|EncodeStr(s)|..] ==> StrOf(b) == Field(s, b[|EncodeStr(s)|..])
  {
    if Arrived(b, EncodeStr(s), false) {
      StrCut(s, |b|);
    }
    if |EncodeStr(s)| <= |b| && b == EncodeStr(s) + b[|EncodeStr(s)|..] {
      StrReads(s, b[|EncodeStr(s)|..]);
    }
  }

  lemma {:induction false} PropsArrived(b: seq<byte>, s: seq<byte>)
    requires PropsFit(s)
    ensures var e := Encode(|s|) + s;
            && (Arrived(b, e, false) ==> SkipProps(b) == NoField)
            && (|e| <= |b| && b == e + b[|e|..] ==> SkipProps(b) == Field(s, b[|e|..]))
  {
    var e := Encode(|s|) + s;
    if Arrived(b, e, false) {
      PropsCut(s, |b|);
    }
    if |e| <= |b| && b == e + b[|e|..] {
      PropsRead(s, b[|e|..]);
    }
  }

  /** Every field is as said or still blank. */
  predicate Part(m: Connect, f: Connect) {
    && (m.proto == f.proto || m.proto == []) && (m.level == f.level || m.level == 0) && (m.flags == f.flags || m.flags == 0)
    && (m.keepAlive == f.keepAlive || m.keepAlive == 0) && (m.clientId == f.clientId || m.clientId == [])
    && (m.willTopic == f.willTopic || m.willTopic == [])
    && ((m.user == f.user && m.hasUser == f.hasUser) || (m.user == [] && !m.hasUser))
    && ((m.pass == f.pass && m.hasPass == f.hasPass) || (m.pass == [] && !m.hasPass))
  }

  /** The whole packet is reported as said; a truncated one as an error with correct fields. */
  predicate Reported(o: Outcome, r: Request, whole: bool) {
    if whole then o == Outcome(Said(r), NoError) else o.err != NoError && Part(o.m, Said(r))
  }

  /** The fields known before each stage. */
  function BeforePass(r: Request): Connect {
    Said(r).(pass := [], hasPass := false)
  }

  function BeforeUser(r: Request): Connect {
    BeforePass(r).(user := [], hasUser := false)
  }

  function BeforeWill(r: Request): Connect {
    BeforeUser(r).(willTopic := [])
  }

  function BeforeId(r: Request): Connect {
    BeforeWill(r).(clientId := [])
  }

  function BeforeHeader(r: Request): Connect {
    BeforeId(r).(level := 0, flags := 0, keepAlive := 0)
  }

  lemma {:induction false} PassReads(r: Request, b: seq<byte>, whole: bool)
    requires Proper(r) && Arrived(b, EncodeOpt(r.pass), whole)
    ensures Reported(PassStage(BeforePass(r), b), r, whole)
  {
    if r.pass.Some? {
      var e := EncodeStr(r.pass.value);
      assert e + [] == e;
      ArrivedSplit(b, e, [], whole);
      StrArrived(b, r.pass.value);
    }
  }

  lemma {:induction false} UserReads(r: Request, b: seq<byte>, whole: bool)
    requires Proper(r) && Arrived(b, EncodeCredentials(r), whole)
    ensures Reported(UserStage(BeforeUser(r), b), r, whole)
  {
    if r.user.Some? {
      var e := EncodeStr(r.user.value);
      ArrivedSplit(b, e, EncodeOpt(r.pass), whole);
      StrArrived(b, r.user.value);
      if |e| <= |b| && Arrived(b[|e|..], EncodeOpt(r.pass), whole) {
        PassReads(r, b[|e|..], whole);
      }
    } else {
      assert EncodeCredentials(r) == EncodeOpt(r.pass);
      PassReads(r, b, whole);
    }
  }

  lemma {:induction false} PayloadReads(r: Request, b: seq<byte>, whole: bool)
    requires Proper(r) && r.will.Some? && Arrived(b, EncodeStr(r.will.value.payload) + EncodeCredentials(r), whole)
    ensures Reported(PayloadStage(BeforeUser(r), b), r, whole)
  {
    var e := EncodeStr(r.will.value.payload);
    ArrivedSplit(b, e, EncodeCredentials(r), whole);
    StrArrived(b, r.will.value.payload);
    if |e| <= |b| && Arrived(b[|e|..], EncodeCredentials(r), whole) {
      UserReads(r, b[|e|..], whole);
    }
  }

  lemma {:induction false} TopicReads(r: Request, b: seq<byte>, whole: bool)
    requires Proper(r) && r.will.Some?
    requires Arrived(b, EncodeStr(r.will.value.topic) + (EncodeStr(r.will.value.payload) + EncodeCredentials(r)), whole)
    ensures Reported(TopicStage(BeforeWill(r), b), r, whole)
  {
    var e, f := EncodeStr(r.will.value.topic), EncodeStr(r.will.value.payload) + EncodeCredentials(r);
    ArrivedSplit(b, e, f, whole);
    StrArrived(b, r.will.value.topic);
    if |e| <= |b| && Arrived(b[|e|..], f, whole) {
      PayloadReads(r, b[|e|..], whole);
    }
  }

  lemma {:induction false} WillReads(r: Request, b: seq<byte>, whole: bool)
    requires Proper(r) && Arrived(b, EncodeWill(r) + EncodeCredentials(r), whole)
    ensures Reported(WillStage(BeforeWill(r), b), r, whole)
  {
    if r.will.None? {
      assert EncodeWill(r) + EncodeCredentials(r) == EncodeCredentials(r);
      UserReads(r, b, whole);
    } else {
      var w := r.will.value;
      var e, f := EncodeProps(r.level, w.props), EncodeStr(w.topic) + (EncodeStr(w.payload) + EncodeCredentials(r));
      assert EncodeWill(r) + EncodeCredentials(r) == e + f;
      ArrivedSplit(b, e, f, whole);
      if r.level < 5 {
        assert b == b[0..];
        TopicReads(r, b, whole);
      } else {
        PropsArrived(b, w.props);
        if |e| <= |b| && Arrived(b[|e|..], f, whole) {
          TopicReads(r, b[|e|..], whole);
        }
      }
    }
  }

  lemma {:induction false} IdReads(r: Request, b: seq<byte>, whole: bool)
    requires Proper(r) && Arrived(b, EncodeStr(r.clientId) + (EncodeWill(r) + EncodeCredentials(r)), whole)
    ensures Reported(IdStage(BeforeId(r), b), r, whole)
  {
    var e, f := EncodeStr(r.clientId), EncodeWill(r) + EncodeCredentials(r);
    ArrivedSplit(b, e, f, whole);
    StrArrived(b, r.clientId);
    if |e| <= |b| && Arrived(b[|e|..], f, whole) {
      WillReads(r, b[|e|..], whole);
    }
  }

  function EncodeBehindHeader(r: Request): seq<byte>
    requires Proper(r)
  {
    EncodeProps(r.level, r.props) + (EncodeStr(r.clientId) + (EncodeWill(r) + EncodeCredentials(r)))
  }

  lemma {:induction false} PropsStageReads(r: Request, b: seq<byte>, whole: bool)
    requires Proper(r) && Arrived(b, EncodeBehindHeader(r), whole)
    ensures Reported(PropsStage(BeforeId(r), b), r, whole)
  {
    var e, f := EncodeProps(r.level, r.props), EncodeStr(r.clientId) + (EncodeWill(r) + EncodeCredentials(r));
    ArrivedSplit(b, e, f, whole);
    if r.level < 5 {
      assert b == b[0..];
      IdReads(r, b, whole);
    } else {
      PropsArrived(b, r.props);
      if |e| <= |b| && Arrived(b[|e|..], f, whole) {
        IdReads(r, b[|e|..], whole);
      }
    }
  }

  lemma {:induction false} HeaderReads(r: Request, b: seq<byte>, whole: bool)
    requires Proper(r) && Arrived(b, EncodeHeader(r) + EncodeBehindHeader(r), whole)
    ensures Reported(HeaderStage(BeforeHeader(r), b), r, whole)
  {
    var e := EncodeHeader(r);
    ArrivedSplit(b, e, EncodeBehindHeader(r), whole);
    if |e| <= |b| && b == e + b[|e|..] && Arrived(b[|e|..], EncodeBehindHeader(r), whole) {
      assert b[0] == e[0] && b[1] == e[1] && b[2] == e[2] && b[3] == e[3];
      assert Word(b[2], b[3]) == r.keepAlive;
      PropsStageReads(r, b[4..], whole);
    }
  }

  lemma {:induction false} ConnectReads(r: Request, b: seq<byte>, whole: bool)
    requires Proper(r) && Arrived(b, EncodeConnect(r), whole)
    ensures Reported(ConnectOf(b), r, whole)
  {
    var e, f := EncodeStr(r.proto), EncodeHeader(r) + EncodeBehindHeader(r);
    assert EncodeConnect(r) == e + f;
    ArrivedSplit(b, e, f, whole);
    StrArrived(b, r.proto);
    if |e| <= |b| && Arrived(b[|e|..], f, whole) {
      HeaderReads(r, b[|e|..], whole);
    }
  }

  /** Every encoded CONNECT, of either version and whatever follows it, is recovered. */
  lemma {:induction false} ConnectRoundTrip(r: Request, trailing: seq<byte>)
    requires Proper(r)
    ensures ConnectOf(EncodeConnect(r) + trailing) == Outcome(Said(r), NoError)
  {
    assert (EncodeConnect(r) + trailing)[..|EncodeConnect(r)|] == EncodeConnect(r);
    ConnectReads(r, EncodeConnect(r) + trailing, true);
  }

  /** Every truncation of an encoded CONNECT is an error, and no field reported with it is wrong. */
  lemma {:induction false} TruncationDetected(r: Request, n: nat)
    requires Proper(r) && n < |EncodeConnect(r)|
    ensures var o := ConnectOf(EncodeConnect(r)[..n]); o.err != NoError && Part(o.m, Said(r))
  {
    ConnectReads(r, EncodeConnect(r)[..n], false);
  }

  // ---- Framing ----

  /** A control packet from the stream: its type and body, or how reading it failed. */
  datatype Packet = Packet(typ: nat, body: seq<byte>, next: nat) | Ended | TooLarge(kind: nat)

  function PacketAt(b: seq<byte>): Packet {
    if |b| < 1 then Ended
    else
      match ReadAt(b, 1, 4)
      case Got(l, n) =>
        if l > MAX_PACKET then TooLarge(b[0] / 16)
        else if 1 + n + l > |b| then Ended else Packet(b[0] / 16, b[1 + n..1 + n + l], 1 + n + l)
      case Short => Ended
      case Long => TooLarge(b[0] / 16)
  }

  /** The streaming loop: reads length bytes until one ends the length or four are read. */
  method ReadLength(b: seq<byte>) returns (length: seq<byte>, ended: bool)
    requires |b| >= 1
    ensures ended <==> ReadAt(b, 1, 4).Short?
    ensures !ended ==> |length| <= |b| - 1 && length == b[1..1 + |length|]
    ensures ReadAt(b, 1, 4).Got? ==> |length| == ReadAt(b, 1, 4).n
    ensures ReadAt(b, 1, 4).Long? ==> |length| == 4
  {
    length := [];
    for i := 0 to 4
      invariant i == |length| && 1 + i <= |b| && length == b[1..1 + i]
      invariant Ahead(b, 1, 4, i)
    {
      if 1 + i >= |b| {
        return length, true;
      }
      length := length + [b[1 + i]];
      if b[1 + i] < 128 {
        return length, false;
      }
    }
    return length, false;
  }

  /** The first `i` bytes do not end the integer. */
  predicate Ahead(b: seq<byte>, at: nat, k: nat, i: nat)
    requires i <= k
  {
    var r, ahead := ReadAt(b, at, k), ReadAt(b, at + i, k - i);
    (r.Short? <==> ahead.Short?) && (r.Long? <==> ahead.Long?) && (r.Got? ==> r.n == i + ahead.n)
  }

  /** The streaming loop stops exactly where `mqttVarint` does, so decoding the bytes it collected
      gives the integer on the stream, or fails as it does there. */
  lemma {:induction false} StreamStopsThere(b: seq<byte>, length: seq<byte>)
    requires |b| >= 1 && |length| <= |b| - 1 && length == b[1..1 + |length|]
    requires ReadAt(b, 1, 4).Got? ==> |length| == ReadAt(b, 1, 4).n
    requires ReadAt(b, 1, 4).Long? ==> |length| == 4
    requires !ReadAt(b, 1, 4).Short?
    ensures VarintOf(length) == ReadAt(b, 1, 4)
  {
    if ReadAt(b, 1, 4).Got? {
      assert length[0..0 + |length|] == length;
      SameBytes(b, 1, length, 0, 4);
    } else {
      LongCopies(b, 1, length, 0, 4);
    }
  }

  lemma {:induction false} LongCopies(a: seq<byte>, i: nat, b: seq<byte>, j: nat, k: nat)
    requires i + k <= |a| && j + k <= |b| && a[i..i + k] == b[j..j + k] && ReadAt(a, i, k) == Long
    ensures ReadAt(b, j, k) == Long
    decreases k
  {
    if k > 0 {
      assert a[i] == a[i..i + k][0] && b[j] == b[j..j + k][0];
      assert a[i + 1..i + k] == a[i..i + k][1..] && b[j + 1..j + k] == b[j..j + k][1..];
      LongCopies(a, i + 1, b, j + 1, k - 1);
    }
  }

  /** `readMQTTPacket`. The length is checked before the body is read. */
  method ReadPacket(b: seq<byte>) returns (p: Packet)
    ensures p == PacketAt(b)
  {
    if |b| < 1 {
      return Ended;
    }
    var typ := b[0] / 16;
    var length, ended := ReadLength(b);
    if ended {
      return Ended;
    }
    StreamStopsThere(b, length);
    var l, n, ok := ReadVarint(length);
    if !ok || l > MAX_PACKET {
      return TooLarge(typ);
    }
    var at := 1 + |length|;
    if at + l > |b| {
      return Ended;
    }
    return Packet(typ, b[at..at + l], at + l);
  }

  /** A packet reads back with its type and body exactly when its body is within the limit; a larger one
      is refused before its body is read. */
  lemma {:induction false} PacketRoundTrip(head: byte, body: seq<byte>, rest: seq<byte>)
    requires |body| < Pow128(4)
    ensures var e := Encode(|body|);
            PacketAt([head] + e + body + rest) ==
            if |body| <= MAX_PACKET then Packet(head / 16, body, 1 + |e| + |body|) else TooLarge(head / 16)
  {
    var e := Encode(|body|);
    var b := [head] + e + body + rest;
    assert b == [head] + e + (body + rest);
    RoundTrip([head], |body|, body + rest, 4);
    assert b[1 + |e|..1 + |e| + |body|] == body;
  }
}
