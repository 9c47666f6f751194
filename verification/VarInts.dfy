/** Base-128 integers, least significant group first: the Minecraft VarInt and the Variable Byte
    Integer of section 1.5.5 of MQTT 5.0. */
module VarInts {
  import opened Basics
  import opened Bits

  function Pow128(k: nat): (p: nat)
    ensures p >= 1
  {
    if k == 0 then 1 else 128 * Pow128(k - 1)
  }

  /** The shortest encoding: seven bits a byte, the top bit set on all but the last. */
  function Encode(v: nat): (b: seq<byte>)
    ensures |b| >= 1
  {
    if v < 128 then [v] else [v % 128 + 128] + Encode(v / 128)
  }

  /** Reading stopped behind `n` bytes, ran out of bytes, or met too many. */
  datatype Read = Got(v: nat, n: nat) | Short | Long

  /** Reads at most `k` bytes from position `i`. */
  function ReadAt(b: seq<byte>, i: nat, k: nat): (r: Read)
    ensures r.Got? ==> 1 <= r.n <= k && i + r.n <= |b|
    decreases k
  {
    if k == 0 then Long
    else if i >= |b| then Short
    else if b[i] < 128 then Got(b[i], 1)
    else
      match ReadAt(b, i + 1, k - 1)
      case Got(v, n) => Got(b[i] - 128 + 128 * v, n + 1)
      case e => e
  }

  /** An encoding is at most `k` bytes long exactly when its value has at most `7 * k` bits. */
  lemma {:induction false} EncodeLength(v: nat, k: nat)
    requires k >= 1
    ensures |Encode(v)| <= k <==> v < Pow128(k)
  {
    if k == 1 {
      assert Pow128(1) == 128 * Pow128(0);
    } else if v >= 128 {
      EncodeLength(v / 128, k - 1);
    }
  }

  /** Reading back what was encoded, whatever stands before and behind it. */
  lemma {:induction false} RoundTrip(before: seq<byte>, v: nat, rest: seq<byte>, k: nat)
    requires v < Pow128(k) && k >= 1
    ensures ReadAt(before + Encode(v) + rest, |before|, k) == Got(v, |Encode(v)|)
    decreases k
  {
    var b := before + Encode(v) + rest;
    if v >= 128 {
      assert b == (before + [v % 128 + 128]) + Encode(v / 128) + rest;
      RoundTrip(before + [v % 128 + 128], v / 128, rest, k - 1);
    } else {
      assert b[|before|] == v;
    }
  }

  /** An encoding cut short is reported as such. */
  lemma {:induction false} CutShort(before: seq<byte>, v: nat, n: nat, k: nat)
    requires v < Pow128(k) && k >= 1 && n < |Encode(v)|
    ensures ReadAt(before + Encode(v)[..n], |before|, k) == Short
    decreases k
  {
    if v >= 128 && n > 0 {
      var h := v % 128 + 128;
      assert Encode(v)[..n] == [h] + Encode(v / 128)[..n - 1];
      assert before + Encode(v)[..n] == (before + [h]) + Encode(v / 128)[..n - 1];
      CutShort(before + [h], v / 128, n - 1, k - 1);
    }
  }

  /** Where reading stops depends only on the bytes read. */
  lemma {:induction false} SameBytes(a: seq<byte>, i: nat, b: seq<byte>, j: nat, k: nat)
    requires ReadAt(a, i, k).Got? && j + ReadAt(a, i, k).n <= |b|
    requires a[i..i + ReadAt(a, i, k).n] == b[j..j + ReadAt(a, i, k).n]
    ensures ReadAt(b, j, k) == ReadAt(a, i, k)
    decreases k
  {
    var n := ReadAt(a, i, k).n;
    assert a[i..i + n][0] == a[i] && b[j..j + n][0] == b[j];
    if a[i] >= 128 {
      assert a[i + 1..i + n] == a[i..i + n][1..] && b[j + 1..j + n] == b[j..j + n][1..];
      SameBytes(a, i + 1, b, j + 1, k - 1);
    }
  }

  /** `v` shifted left by `n` groups of seven bits. */
  function Shl(v: nat, n: nat): nat {
    if n == 0 then v else 128 * Shl(v, n - 1)
  }

  lemma {:induction false} ShlAdds(d: nat, v: nat, n: nat)
    ensures Shl(d + 128 * v, n) == Shl(d, n) + Shl(v, n + 1)
  {
    if n > 0 {
      ShlAdds(d, v, n - 1);
    }
  }

  lemma {:induction false} ShlFits(d: nat, n: nat)
    requires d < 128
    ensures Pow128(n) + Shl(d, n) <= Pow128(n + 1)
  {
    if n > 0 {
      ShlFits(d, n - 1);
    }
  }

  /** A shift is a product with a power. */
  lemma {:induction false} ShlIsProduct(d: nat, n: nat)
    ensures Shl(d, n) == d * Pow128(n)
  {
    if n > 0 {
      ShlIsProduct(d, n - 1);
    }
  }

  lemma {:induction false} ShlIsShift(v: nat, n: nat)
    ensures Shl(v, n) == ShiftLeft(v, 7 * n) && Pow128(n) == Pow2(7 * n)
  {
    if n > 0 {
      ShlIsShift(v, n - 1);
      SevenMore(v, 7 * (n - 1));
    }
  }

  lemma {:induction false} SevenMore(v: nat, k: nat)
    ensures ShiftLeft(v, k + 7) == 128 * ShiftLeft(v, k) && Pow2(k + 7) == 128 * Pow2(k)
  {
    assert ShiftLeft(v, k + 2) == 4 * ShiftLeft(v, k) && Pow2(k + 2) == 4 * Pow2(k);
    assert ShiftLeft(v, k + 4) == 4 * ShiftLeft(v, k + 2) && Pow2(k + 4) == 4 * Pow2(k + 2);
    assert ShiftLeft(v, k + 6) == 4 * ShiftLeft(v, k + 4) && Pow2(k + 6) == 4 * Pow2(k + 4);
  }

  /** The next group shares no bit with those before it. */
  lemma {:induction false} OrGroup(acc: nat, d: nat, n: nat)
    requires acc < Pow128(n)
    ensures Or(acc, Shl(d, n)) == acc + Shl(d, n)
  {
    ShlIsShift(d, n);
    OrAdds(acc, d, 7 * n);
  }

  /** The reading loops: `acc` holds the `n` groups read so far. */
  function Accumulated(b: seq<byte>, i: nat, k: nat, acc: nat, n: nat): Read
    decreases k
  {
    if k == 0 then Long
    else if i >= |b| then Short
    else
      var sum := acc + Shl(b[i] % 128, n);
      if b[i] < 128 then Got(sum, n + 1) else Accumulated(b, i + 1, k - 1, sum, n + 1)
  }

  lemma {:induction false} AccumulatedIsRead(b: seq<byte>, i: nat, k: nat, acc: nat, n: nat)
    ensures Accumulated(b, i, k, acc, n) ==
            match ReadAt(b, i, k) { case Got(v, m) => Got(acc + Shl(v, n), n + m) case e => e }
    decreases k
  {
    if k > 0 && i < |b| && b[i] >= 128 {
      var d, r := b[i] % 128, ReadAt(b, i + 1, k - 1);
      AccumulatedIsRead(b, i + 1, k - 1, acc + Shl(d, n), n + 1);
      if r.Got? {
        ShlAdds(d, r.v, n);
        assert ReadAt(b, i, k) == Got(d + 128 * r.v, r.n + 1);
      }
    }
  }

  /** The loops start from an empty accumulator. */
  lemma {:induction false} LoopsRead(b: seq<byte>, i: nat, k: nat)
    ensures Accumulated(b, i, k, 0, 0) == ReadAt(b, i, k)
  {
    AccumulatedIsRead(b, i, k, 0, 0);
  }
}
