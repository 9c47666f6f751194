/** The Minecraft server-list-ping codec. */
module Minecraft {
  import opened Basics
  import opened Bits
  import opened VarInts

  const U32: int := 0x1_0000_0000
  const I32: int := 0x8000_0000

  /** The `int32` with these 32 bits. */
  function Signed(u: nat): int {
    if u % U32 < I32 then u % U32 else u % U32 - U32
  }

  /** The reader's error cases are the end of the stream and a fifth byte that is not the last. */
  datatype VarInt = Value(v: int, next: nat) | EndOfStream | TooLarge

  function VarIntAt(b: seq<byte>, i: nat): VarInt {
    match ReadAt(b, i, 5)
    case Got(v, n) => Value(Signed(v), i + n)
    case Short => EndOfStream
    case Long => TooLarge
  }

  /** The group shifted into place, cut to 32 bits: the fifth keeps four of its bits. */
  lemma {:induction false} CutGroup(d: nat, n: nat)
    requires d < 128 && n < 5
    ensures Shl(d, n) % U32 == Shl(if n < 4 then d else d % 16, n)
  {
    FivePowers();
    ShlFits(d, n);
    if n < 4 {
      PowersGrow(n + 1, 4);
    } else {
      ShlIsProduct(d, 4);
      ShlIsProduct(d % 16, 4);
    }
  }

  /** `result |= int32(b & 0x7F) << shift`. Only the fifth group can leave the 32 bits. */
  method Accumulate(result: nat, d: nat, n: nat) returns (r: int)
    requires d < 128 && n < 5 && result < Pow128(n)
    ensures r == Signed(result + Shl(d, n)) && (n < 4 ==> r == result + Shl(d, n))
  {
    CutGroup(d, n);
    OrGroup(result, if n < 4 then d else d % 16, n);
    ShlFits(d, n);
    BelowWord(n, result, Shl(d, n));
    OrFits(result, if n < 4 then d else d % 16, n);
    var u := Or(result, Shl(d, n) % U32);
    r := if u < I32 then u else u - U32;
    SignedSum(result, Shl(d, n));
  }

  lemma {:induction false} OrFits(result: nat, e: nat, n: nat)
    requires n < 5 && result < Pow128(n) && e < (if n < 4 then 128 else 16)
    ensures result + Shl(e, n) < U32
  {
    FivePowers();
    if n < 4 {
      ShlFits(e, n);
      BelowWord(n, result, Shl(e, n));
    } else {
      ShlIsProduct(e, 4);
    }
  }

  lemma {:induction false} SignedSum(a: nat, b: nat)
    requires a + b % U32 < U32
    ensures (a + b) % U32 == a + b % U32
  {
  }

  /** What the loop returns that has read `n` groups into `result`. */
  function Ahead(b: seq<byte>, at: nat, n: nat, result: nat): VarInt
    requires n <= 5
  {
    match Accumulated(b, at + n, 5 - n, result, n)
    case Got(v, m) => Value(Signed(v), at + m)
    case Short => EndOfStream
    case Long => TooLarge
  }

  /** One round: the result, or one more group read. */
  method ReadGroup(b: seq<byte>, at: nat, n: nat, result: nat) returns (done: bool, r: VarInt, sum: nat)
    requires n < 5 && result < Pow128(n)
    ensures done ==> r == Ahead(b, at, n, result)
    ensures !done ==> n < 4 && sum < Pow128(n + 1) && Ahead(b, at, n + 1, sum) == Ahead(b, at, n, result)
  {
    if at + n >= |b| {
      return true, EndOfStream, 0;
    }
    var d := b[at + n] % 128;
    ShlFits(d, n);
    var v := Accumulate(result, d, n);
    if b[at + n] < 128 {
      return true, Value(v, at + n + 1), 0;
    }
    if 7 * (n + 1) >= 35 {
      return true, TooLarge, 0;
    }
    return false, TooLarge, v;
  }

  /** `mcReadVarInt` on the bytes from `at`. */
  method ReadVarInt(b: seq<byte>, at: nat) returns (r: VarInt)
    ensures r == VarIntAt(b, at)
  {
    LoopsRead(b, at, 5);
    var result: nat, n: nat, done := 0, 0, false;
    assert Ahead(b, at, 0, 0) == VarIntAt(b, at);
    while true
      invariant n < 5 && result < Pow128(n) && Ahead(b, at, n, result) == VarIntAt(b, at)
      decreases 5 - n
    {
      done, r, result := ReadGroup(b, at, n, result);
      if done {
        return;
      }
      n := n + 1;
    }
  }

  lemma {:induction false} BelowWord(n: nat, result: nat, group: nat)
    requires n < 5 && result < Pow128(n) && Pow128(n) + group <= Pow128(n + 1)
    ensures result < I32 && (n < 4 ==> result + group < I32)
  {
    FivePowers();
    PowersGrow(n, 4);
    if n < 4 {
      PowersGrow(n + 1, 4);
    }
  }

  lemma {:induction false} PowersGrow(a: nat, b: nat)
    requires a <= b
    ensures Pow128(a) <= Pow128(b)
  {
    if a < b {
      PowersGrow(a, b - 1);
    }
  }

  // ---- Writing ----

  /** `v >>= 7`, an arithmetic shift: division that rounds down. */
  function Shifted(v: int, k: nat): int {
    if k == 0 then v else Shifted(v, k - 1) / 128
  }

  lemma {:induction false} ShiftedSigns(v: int, k: nat)
    requires v < 0
    ensures Shifted(v, k) < 0
  {
    if k > 0 {
      ShiftedSigns(v, k - 1);
    }
  }

  lemma {:induction false} ShiftedBelow(v: int, k: nat)
    requires 0 <= v < Pow128(k)
    ensures Shifted(v, k) == 0
  {
    if k > 0 {
      ShiftedMove(v, k - 1);
      ShiftedBelow(v / 128, k - 1);
    }
  }

  lemma {:induction false} ShiftedMove(v: int, k: nat)
    ensures Shifted(v, k + 1) == Shifted(v / 128, k)
  {
    if k > 0 {
      ShiftedMove(v, k - 1);
    }
  }

  /** The loop of `mcWriteVarInt` ends when the shifted value reaches zero: exactly for values that are
      not negative, and then within five rounds. On a negative value it never ends. */
  lemma {:induction false} WriteEndsIff(v: int)
    requires -I32 <= v < I32
    ensures (exists k: nat :: Shifted(v, k) == 0) <==> v >= 0
    ensures v >= 0 ==> Shifted(v, 5) == 0
  {
    if v < 0 {
      forall k: nat
        ensures Shifted(v, k) != 0
      {
        ShiftedSigns(v, k);
      }
    } else {
      FivePowers();
      ShiftedBelow(v, 5);
    }
  }

  lemma {:induction false} FivePowers()
    ensures Pow128(4) == 0x1000_0000 && Pow128(5) == 0x8_0000_0000
  {
    assert Pow128(1) == 128 * Pow128(0);
    assert Pow128(2) == 128 * Pow128(1);
    assert Pow128(3) == 128 * Pow128(2);
  }

  /** `mcWriteVarInt`, where it ends. */
  method WriteVarInt(v: int) returns (out: seq<byte>)
    requires 0 <= v < I32
    ensures out == Encode(v)
  {
    out := [];
    var w: nat := v;
    while true
      invariant out + Encode(w) == Encode(v)
      decreases w
    {
      var d := w % 128;
      var next := w / 128;
      out := out + [if next != 0 then d + 128 else d];
      if next == 0 {
        break;
      }
      w := next;
    }
  }

  /** Every non-negative `int32` is written in one to five bytes and read back; every other `int32` is read
      from the encoding of its 32 bits. */
  lemma {:induction false} VarIntRoundTrip(before: seq<byte>, u: nat, rest: seq<byte>)
    requires u < U32
    ensures 1 <= |Encode(u)| <= 5
    ensures VarIntAt(before + Encode(u) + rest, |before|) == Value(Signed(u), |before| + |Encode(u)|)
    ensures u < I32 ==> Signed(u) == u
  {
    FivePowers();
    EncodeLength(u, 5);
    RoundTrip(before, u, rest, 5);
  }

  // ---- Packets ----

  function Body(id: nat, payload: seq<byte>): seq<byte> {
    Encode(id) + payload
  }

  /** `mcPacket`, lengths within an `int32`. */
  method MakePacket(id: int, payload: seq<byte>) returns (out: seq<byte>)
    requires 0 <= id < I32 && |Body(id, payload)| < I32
    ensures out == Encode(|Body(id, payload)|) + Body(id, payload)
  {
    var idBytes := WriteVarInt(id);
    var body := idBytes + payload;
    var head := WriteVarInt(|body|);
    out := head + body;
  }

  /** A framed packet read as the handler reads one: the length, that many bytes, the identifier. */
  datatype Packet = Packet(id: int, payload: seq<byte>, next: nat) | Broken

  function PacketAt(b: seq<byte>, i: nat): Packet {
    PacketBehind(b, VarIntAt(b, i))
  }

  function PacketBehind(b: seq<byte>, head: VarInt): Packet {
    match head
    case Value(n, next) =>
      if n <= 0 || next + n > |b| then Broken else Content(b[next..next + n], next + n)
    case _ => Broken
  }

  function Content(body: seq<byte>, next: nat): Packet {
    match VarIntAt(body, 0)
    case Value(id, at) => if at <= |body| then Packet(id, body[at..], next) else Broken
    case _ => Broken
  }

  lemma {:induction false} BodyReadsBack(id: nat, payload: seq<byte>, next: nat)
    requires id < I32
    ensures |Body(id, payload)| > 0 && Content(Body(id, payload), next) == Packet(id, payload, next)
  {
    assert [] + Encode(id) + payload == Body(id, payload);
    VarIntRoundTrip([], id, payload);
  }

  lemma {:induction false} HeadReadsBack(before: seq<byte>, body: seq<byte>, rest: seq<byte>)
    requires |body| < I32
    ensures var b, at := before + (Encode(|body|) + body) + rest, |before| + |Encode(|body|)|;
            VarIntAt(b, |before|) == Value(|body|, at) && at + |body| <= |b| && b[at..at + |body|] == body
  {
    var b := before + (Encode(|body|) + body) + rest;
    assert b == before + Encode(|body|) + (body + rest);
    VarIntRoundTrip(before, |body|, body + rest);
  }

  lemma {:induction false} BehindIsContent(b: seq<byte>, i: nat, body: seq<byte>, at: nat)
    requires VarIntAt(b, i) == Value(|body|, at) && 0 < |body| && at + |body| <= |b| && b[at..at + |body|] == body
    ensures PacketAt(b, i) == Content(body, at + |body|)
  {
  }

  /** Frames read back exactly, one behind the other. */
  lemma {:induction false} FrameReadsBack(before: seq<byte>, id: nat, payload: seq<byte>, rest: seq<byte>)
    requires id < I32 && |Body(id, payload)| < I32
    ensures var out := Encode(|Body(id, payload)|) + Body(id, payload);
            PacketAt(before + out + rest, |before|) == Packet(id, payload, |before| + |out|)
  {
    var body := Body(id, payload);
    var at := |before| + |Encode(|body|)|;
    BodyReadsBack(id, payload, at + |body|);
    HeadReadsBack(before, body, rest);
    BehindIsContent(before + (Encode(|body|) + body) + rest, |before|, body, at);
  }

  /** `mcWriteString` reads back too. */
  method WriteString(s: seq<byte>) returns (out: seq<byte>)
    requires |s| < I32
    ensures out == Encode(|s|) + s
    ensures VarIntAt(out, 0) == Value(|s|, |out| - |s|)
  {
    var head := WriteVarInt(|s|);
    out := head + s;
    assert [] + Encode(|s|) + s == out;
    VarIntRoundTrip([], |s|, s);
  }
}
