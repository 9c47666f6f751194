/** Optional values, ASCII case, splitting, bytes and big-endian words, shared by the other modules. */
module Basics {
  datatype Option<+T> = None | Some(value: T)

  /** What bans and rates are kept for: an address and a port. */
  datatype Key = Key(ip: string, port: string)

  function Max(a: int, b: int): (m: int)
    ensures m >= a && m >= b && (m == a || m == b)
  {
    if a < b then b else a
  }

  /** ASCII lower case. */
  function LowerChar(c: char): char {
    if 'A' <= c <= 'Z' then (c as int + 32) as char else c
  }

  /** `strings.Split` at a one-character separator. */
  function Split(s: string, sep: char): (r: seq<string>)
    ensures r != []
    ensures forall i :: 0 <= i < |r| ==> sep !in r[i]
  {
    if s == "" then [""]
    else
      var rest := Split(s[1..], sep);
      if s[0] == sep then [""] + rest else [[s[0]] + rest[0]] + rest[1..]
  }

  lemma {:induction false} SplitOne(t: string, sep: char)
    requires sep !in t
    ensures Split(t, sep) == [t]
  {
    if t != "" {
      assert t[0] in t && sep !in t[1..];
      SplitOne(t[1..], sep);
      assert [t[0]] + t[1..] == t;
    }
  }

  lemma {:induction false} SplitPair(t: string, s: string, sep: char)
    requires sep !in t
    ensures Split(t + ([sep] + s), sep) == [t] + Split(s, sep)
  {
    var whole := t + ([sep] + s);
    if t == "" {
      assert whole[1..] == s;
    } else {
      assert t[0] in t && sep !in t[1..];
      SplitPair(t[1..], s, sep);
      assert whole[0] == t[0] && whole[1..] == t[1..] + ([sep] + s);
      assert [t[0]] + t[1..] == t && ([t[1..]] + Split(s, sep))[1..] == Split(s, sep);
    }
  }

  type byte = x: nat | x < 0x100
  type u16 = x: nat | x < 0x1_0000

  /** Two bytes, most significant first. */
  function Word(hi: byte, lo: byte): u16 {
    var h: int := hi;
    h * 256 + lo
  }

  function Word16(v: nat): (b: seq<byte>)
    requires v < 0x1_0000
    ensures |b| == 2
  {
    [v / 256, v % 256]
  }
}
