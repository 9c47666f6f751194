/** Orders and sorting shared by the clustering, fingerprinting and scan modules. */
module Ordering {

  /** Byte-wise string order, the `<` of Go strings. */
  predicate Less(a: string, b: string) {
    b != [] && (a == [] || a[0] < b[0] || (a[0] == b[0] && Less(a[1..], b[1..])))
  }

  /** The two agree on their first `k` characters. */
  predicate SameUpTo(a: string, b: string, k: nat) {
    k <= |a| && k <= |b| && a[..k] == b[..k]
  }

  /** At `k` the order is decided for `a`: it ends there or has the smaller character. */
  predicate DecidedAt(a: string, b: string, k: nat) {
    SameUpTo(a, b, k) && k < |b| && (k == |a| || a[k] < b[k])
  }

  lemma {:induction false} DecidedHead(a: string, b: string, k: nat)
    requires DecidedAt(a, b, k) && k > 0
    ensures a != [] && b != [] && a[0] == b[0]
  {
    assert a[..k][0] == b[..k][0];
  }

  lemma {:induction false} DecidedTail(a: string, b: string, k: nat)
    requires a != [] && b != [] && a[0] == b[0]
    ensures DecidedAt(a, b, k + 1) <==> DecidedAt(a[1..], b[1..], k)
  {
    if k + 1 <= |a| && k + 1 <= |b| {
      assert a[..k + 1] == [a[0]] + a[1..][..k] && b[..k + 1] == [b[0]] + b[1..][..k];
      assert a[1..][..k] == a[..k + 1][1..] && b[1..][..k] == b[..k + 1][1..];
    }
  }

  /** `b` is longer than its prefix `a`, or has the greater character where they first differ. */
  lemma {:induction false} LessIff(a: string, b: string)
    ensures Less(a, b) <==> exists k :: DecidedAt(a, b, k)
  {
    if a == [] || b == [] || a[0] != b[0] {
      assert Less(a, b) <==> DecidedAt(a, b, 0);
      forall k: nat | DecidedAt(a, b, k)
        ensures k == 0
      {
        if k > 0 {
          DecidedHead(a, b, k);
        }
      }
    } else {
      LessIff(a[1..], b[1..]);
      if k: nat :| DecidedAt(a[1..], b[1..], k) {
        DecidedTail(a, b, k);
      }
      if k: nat :| DecidedAt(a, b, k) {
        DecidedTail(a, b, k - 1);
      }
    }
  }

  lemma {:induction false} LessIrreflexive(a: string)
    ensures !Less(a, a)
  {
    if a != [] {
      LessIrreflexive(a[1..]);
    }
  }

  lemma {:induction false} LessTransitive(a: string, b: string, c: string)
    requires Less(a, b) && Less(b, c)
    ensures Less(a, c)
  {
    if a != [] && a[0] == b[0] && b[0] == c[0] {
      LessTransitive(a[1..], b[1..], c[1..]);
    }
  }

  lemma {:induction false} LessTotal(a: string, b: string)
    ensures a == b || Less(a, b) || Less(b, a)
  {
    if a != [] && b != [] && a[0] == b[0] {
      LessTotal(a[1..], b[1..]);
      assert a == [a[0]] + a[1..] && b == [b[0]] + b[1..];
    }
  }

  lemma {:induction false} LessAsymmetric(a: string, b: string)
    requires Less(a, b)
    ensures !Less(b, a)
  {
    if Less(b, a) {
      LessTransitive(a, b, a);
      LessIrreflexive(a);
    }
  }

  /** No later element is strictly before an earlier one. */
  ghost predicate SortedBy<T>(before: (T, T) -> bool, s: seq<T>) {
    forall i, j :: 0 <= i < j < |s| ==> !before(s[j], s[i])
  }

  /** Distinct elements of the bag are always told apart by the order. */
  ghost predicate TieFree<T>(before: (T, T) -> bool, s: seq<T>) {
    forall x, y :: x in s && y in s && x != y ==> before(x, y) || before(y, x)
  }

  lemma {:induction false} SameHead<T>(before: (T, T) -> bool, a: seq<T>, b: seq<T>)
    requires SortedBy(before, a) && SortedBy(before, b) && TieFree(before, a)
    requires multiset(a) == multiset(b) && a != [] && b != []
    ensures a[0] == b[0]
  {
    assert a[0] in multiset(b) && b[0] in multiset(a);
    var i :| 0 <= i < |a| && a[i] == b[0];
    var j :| 0 <= j < |b| && b[j] == a[0];
    assert i == 0 || !before(a[i], a[0]);
    assert j == 0 || !before(b[j], b[0]);
  }

  lemma {:induction false} TailBag<T>(a: seq<T>)
    requires a != []
    ensures multiset(a[1..]) == multiset(a) - multiset{a[0]}
  {
    assert a == [a[0]] + a[1..];
  }

  lemma {:induction false} RemovedAt<T>(s: seq<T>, k: nat)
    requires k < |s|
    ensures multiset(s[..k] + s[k + 1..]) == multiset(s) - multiset{s[k]}
  {
    assert s == s[..k] + [s[k]] + s[k + 1..];
  }

  /** The first element of one order stands somewhere in the other; without it the two still agree. */
  lemma {:induction false} FirstElsewhere<T>(a: seq<T>, b: seq<T>) returns (i: nat)
    requires multiset(a) == multiset(b) && a != []
    ensures i < |b| && b[i] == a[0] && multiset(a[..0] + a[1..]) == multiset(b[..i] + b[i + 1..])
  {
    assert a[0] in multiset(b);
    i :| 0 <= i < |b| && b[i] == a[0];
    RemovedAt(b, i);
    TailBag(a);
    assert a[..0] + a[1..] == a[1..];
  }

  /** A bag without ties has at most one sorted arrangement. */
  lemma {:induction false} SortedUnique<T>(before: (T, T) -> bool, a: seq<T>, b: seq<T>)
    requires SortedBy(before, a) && SortedBy(before, b) && TieFree(before, a)
    requires multiset(a) == multiset(b)
    ensures a == b
  {
    assert |multiset(a)| == |a| && |multiset(b)| == |b|;
    if a != [] {
      SameHead(before, a, b);
      TailBag(a);
      TailBag(b);
      assert TieFree(before, a[1..]) by {
        assert forall x :: x in a[1..] ==> x in a;
      }
      SortedUnique(before, a[1..], b[1..]);
      assert a == [a[0]] + a[1..] && b == [b[0]] + b[1..];
    }
  }

  lemma {:induction false} StringsTieFree(s: seq<string>)
    ensures TieFree(Less, s)
  {
    forall x, y | x in s && y in s && x != y
      ensures Less(x, y) || Less(y, x)
    {
      LessTotal(x, y);
    }
  }

  /** What `sort.Slice` needs of its comparison. */
  ghost predicate WeakOrder<T(!new)>(before: (T, T) -> bool) {
    && (forall x, y :: before(x, y) ==> !before(y, x))
    && (forall x, y, z :: !before(y, x) && !before(z, y) ==> !before(z, x))
  }

  lemma {:induction false} LessWeakOrder()
    ensures WeakOrder(Less)
  {
    forall x, y | Less(x, y)
      ensures !Less(y, x)
    {
      LessAsymmetric(x, y);
    }
    forall x, y, z | !Less(y, x) && !Less(z, y)
      ensures !Less(z, x)
    {
      LessTotal(x, y);
      if Less(z, x) && x != y {
        LessTransitive(z, x, y);
      }
    }
  }

  lemma {:induction false} InsertedBehind<T>(before: (T, T) -> bool, x: T, s: seq<T>, t: seq<T>)
    requires s != [] && SortedBy(before, s) && SortedBy(before, t) && !before(x, s[0])
    requires multiset(t) == multiset(s[1..]) + multiset{x}
    ensures SortedBy(before, [s[0]] + t)
  {
    forall j | 0 <= j < |t|
      ensures !before(t[j], s[0])
    {
      assert t[j] in multiset(t);
      if t[j] != x {
        assert t[j] in multiset(s[1..]);
        var k :| 0 <= k < |s[1..]| && s[1..][k] == t[j];
        assert s[k + 1] == t[j];
      }
    }
  }

  /** Inserts `x` in front of the first element that must come behind it. */
  function InsertBy<T(!new)>(before: (T, T) -> bool, x: T, s: seq<T>): (r: seq<T>)
    requires WeakOrder(before)
    ensures multiset(r) == multiset(s) + multiset{x}
    ensures SortedBy(before, s) ==> SortedBy(before, r)
  {
    if s == [] then [x]
    else if before(x, s[0]) then [x] + s
    else
      var t := InsertBy(before, x, s[1..]);
      assert s == [s[0]] + s[1..];
      assert SortedBy(before, s) ==> SortedBy(before, [s[0]] + t) by {
        if SortedBy(before, s) {
          InsertedBehind(before, x, s, t);
        }
      }
      [s[0]] + t
  }

  /** `sort.Slice`, `sort.Strings` and `sort.Ints`: a sorted arrangement of the same bag. */
  function SortBy<T(!new)>(before: (T, T) -> bool, s: seq<T>): (r: seq<T>)
    requires WeakOrder(before)
    ensures multiset(r) == multiset(s)
    ensures SortedBy(before, r)
  {
    if s == [] then []
    else
      assert s == [s[0]] + s[1..];
      InsertBy(before, s[0], SortBy(before, s[1..]))
  }

  function Sort(s: seq<string>): (r: seq<string>)
    ensures multiset(r) == multiset(s)
    ensures SortedBy(Less, r)
  {
    LessWeakOrder();
    SortBy(Less, s)
  }

  /** Sorting strings forgets the order of the input. */
  lemma {:induction false} SortOfBag(s: seq<string>, t: seq<string>)
    requires multiset(s) == multiset(t)
    ensures Sort(s) == Sort(t)
  {
    StringsTieFree(Sort(s));
    SortedUnique(Less, Sort(s), Sort(t));
  }

  ghost predicate Distinct<T>(s: seq<T>) {
    forall i, j :: 0 <= i < j < |s| ==> s[i] != s[j]
  }

  lemma {:induction false} DistinctBag<T>(s: seq<T>, x: T)
    requires Distinct(s)
    ensures multiset(s)[x] == if x in s then 1 else 0
  {
    if s != [] {
      DistinctBag(s[1..], x);
      assert s == [s[0]] + s[1..];
    }
  }

  lemma {:induction false} BagDistinct<T>(s: seq<T>)
    requires forall x :: x in s ==> multiset(s)[x] == 1
    ensures Distinct(s)
  {
    if s != [] {
      assert s == [s[0]] + s[1..];
      forall x | x in s[1..]
        ensures x != s[0] && multiset(s[1..])[x] == 1
      {
        assert x in s && s[0] in s;
        assert multiset(s)[x] == multiset([s[0]])[x] + multiset(s[1..])[x];
        assert x in multiset(s[1..]);
      }
      BagDistinct(s[1..]);
    }
  }

  lemma {:induction false} DistinctSameBag<T>(a: seq<T>, b: seq<T>)
    requires Distinct(a) && Distinct(b) && forall x :: x in a <==> x in b
    ensures multiset(a) == multiset(b)
  {
    forall x
      ensures multiset(a)[x] == multiset(b)[x]
    {
      DistinctBag(a, x);
      DistinctBag(b, x);
    }
  }

  /** `s` lists the set `m` in order, each element once: `sortedStrs` and `sortedInts`. */
  ghost predicate Lists<T(!new)>(before: (T, T) -> bool, m: set<T>, s: seq<T>) {
    SortedBy(before, s) && Distinct(s) && forall x :: x in s <==> x in m
  }

  lemma {:induction false} ListsUnique<T(!new)>(before: (T, T) -> bool, m: set<T>, s: seq<T>, t: seq<T>)
    requires Lists(before, m, s) && Lists(before, m, t) && TieFree(before, s)
    ensures s == t
  {
    DistinctSameBag(s, t);
    SortedUnique(before, s, t);
  }

  /** Collects the keys of a Go map (in any order) and sorts them. */
  method SortedKeys<T(!new,==)>(before: (T, T) -> bool, m: set<T>) returns (s: seq<T>)
    requires WeakOrder(before)
    ensures Lists(before, m, s)
  {
    var rest, keys := m, [];
    while rest != {}
      invariant rest <= m && Distinct(keys)
      invariant forall x :: x in keys <==> x in m - rest
    {
      var x :| x in rest;
      assert x !in m - rest && x !in keys;
      keys, rest := keys + [x], rest - {x};
    }
    s := SortBy(before, keys);
    forall x
      ensures x in s <==> x in m
      ensures x in s ==> multiset(s)[x] == 1
    {
      DistinctBag(keys, x);
      assert x in s <==> x in multiset(s);
    }
    BagDistinct(s);
  }

  // ---- Ties ----

  /** Neighbours that the order does not tell apart. */
  predicate TiedAt<T>(before: (T, T) -> bool, s: seq<T>, k: nat) {
    k + 1 < |s| && !before(s[k], s[k + 1])
  }

  /** Swapping tied neighbours gives another sorted arrangement. */
  lemma {:induction false} SwapTied<T(!new)>(before: (T, T) -> bool, s: seq<T>, k: nat) returns (t: seq<T>)
    requires WeakOrder(before) && SortedBy(before, s) && TiedAt(before, s, k)
    ensures |t| == |s| && t[k] == s[k + 1] && SortedBy(before, t) && multiset(t) == multiset(s)
  {
    t := s[k := s[k + 1]][k + 1 := s[k]];
    assert s == s[..k] + [s[k], s[k + 1]] + s[k + 2..];
    assert t == s[..k] + [s[k + 1], s[k]] + s[k + 2..];
    assert multiset(s) == multiset(s[..k]) + multiset{s[k], s[k + 1]} + multiset(s[k + 2..]);
  }

  lemma {:induction false} StrictHead<T(!new)>(before: (T, T) -> bool, a: seq<T>, j: nat)
    requires WeakOrder(before) && SortedBy(before, a) && !TiedAt(before, a, 0) && 0 < j < |a|
    ensures before(a[0], a[j])
  {
    assert j > 1 ==> !before(a[j], a[1]);
  }

  lemma {:induction false} SameStrictHead<T(!new)>(before: (T, T) -> bool, a: seq<T>, b: seq<T>)
    requires WeakOrder(before) && SortedBy(before, a) && SortedBy(before, b) && multiset(a) == multiset(b)
    requires a != [] && b != [] && !TiedAt(before, a, 0)
    ensures a[0] == b[0]
  {
    assert a[0] in multiset(b) && b[0] in multiset(a);
    var i :| 0 <= i < |a| && a[i] == b[0];
    var j :| 0 <= j < |b| && b[j] == a[0];
    assert j == 0 || !before(b[j], b[0]);
    if i > 0 {
      StrictHead(before, a, i);
    }
  }

  lemma {:induction false} TailOrder<T(!new)>(before: (T, T) -> bool, a: seq<T>)
    requires SortedBy(before, a) && a != []
    ensures SortedBy(before, a[1..]) && forall k: nat :: TiedAt(before, a[1..], k) <==> TiedAt(before, a, k + 1)
  {
  }

  lemma {:induction false} PrefixOfTail<T>(a: seq<T>, n: nat)
    requires 0 < n <= |a|
    ensures a[..n] == [a[0]] + a[1..][..n - 1]
  {
  }

  /** Without ties among the first `n` places, all sorted arrangements agree there. */
  lemma {:induction false} SortedPrefixUnique<T(!new)>(before: (T, T) -> bool, a: seq<T>, b: seq<T>, n: nat)
    requires WeakOrder(before) && SortedBy(before, a) && SortedBy(before, b) && multiset(a) == multiset(b)
    requires n <= |a| && forall k :: 0 <= k < n ==> !TiedAt(before, a, k)
    ensures |a| == |b| && a[..n] == b[..n]
  {
    assert |multiset(a)| == |a| && |multiset(b)| == |b|;
    if n > 0 {
      SameStrictHead(before, a, b);
      TailBag(a);
      TailBag(b);
      TailOrder(before, a);
      TailOrder(before, b);
      PrefixOfTail(a, n);
      PrefixOfTail(b, n);
      SortedPrefixUnique(before, a[1..], b[1..], n - 1);
    }
  }

  ghost function SetOf<T>(s: seq<T>): set<T> {
    set x | x in s
  }

  lemma {:induction false} DistinctSize<T>(s: seq<T>)
    requires Distinct(s)
    ensures |SetOf(s)| == |s|
  {
    if s != [] {
      DistinctSize(s[1..]);
      assert s[0] !in SetOf(s[1..]) && SetOf(s) == {s[0]} + SetOf(s[1..]);
    }
  }

  /** The elements strictly before `x`. */
  ghost function Earlier<T>(before: (T, T) -> bool, s: seq<T>, x: T): set<T> {
    set y | y in s && before(y, x)
  }

  /** In a sorted list they stand in front. */
  lemma {:induction false} EarlierIsPrefix<T(!new)>(before: (T, T) -> bool, s: seq<T>, x: T) returns (p: nat)
    requires WeakOrder(before) && SortedBy(before, s) && Distinct(s)
    ensures p <= |s| && p == |Earlier(before, s, x)| && (p < |s| ==> !before(s[p], x)) && forall k :: 0 <= k < p ==> before(s[k], x)
  {
    p := 0;
    while p < |s| && before(s[p], x)
      invariant p <= |s| && forall k :: 0 <= k < p ==> before(s[k], x)
    {
      p := p + 1;
    }
    forall k | p <= k < |s|
      ensures !before(s[k], x)
    {
      assert k == p || !before(s[k], s[p]);
    }
    assert Earlier(before, s, x) == SetOf(s[..p]) by {
      forall y
        ensures y in Earlier(before, s, x) <==> y in SetOf(s[..p])
      {
        if y in s && before(y, x) {
          var k :| 0 <= k < |s| && s[k] == y;
          assert s[..p][k] == y;
        }
      }
    }
    DistinctSize(s[..p]);
  }

  /** Neighbours that tie have no more elements before them than their position says. */
  lemma {:induction false} TiedNeighbours<T(!new)>(before: (T, T) -> bool, s: seq<T>, k: nat)
    requires WeakOrder(before) && SortedBy(before, s) && Distinct(s) && TiedAt(before, s, k)
    ensures s[k] != s[k + 1] && !before(s[k], s[k + 1]) && !before(s[k + 1], s[k]) && |Earlier(before, s, s[k])| <= k
  {
    var p := EarlierIsPrefix(before, s, s[k]);
    assert !before(s[k], s[k]);
  }

  /** Two elements that tie leave tied neighbours at the place their rank says. */
  lemma {:induction false} TieHasPlace<T(!new)>(before: (T, T) -> bool, s: seq<T>, x: T, y: T)
    requires WeakOrder(before) && SortedBy(before, s) && Distinct(s)
    requires x in s && y in s && x != y && !before(x, y) && !before(y, x)
    ensures TiedAt(before, s, |Earlier(before, s, x)|)
  {
    var i :| 0 <= i < |s| && s[i] == x;
    var j :| 0 <= j < |s| && s[j] == y;
    var p := EarlierIsPrefix(before, s, x);
    var k := if i < j then i else j;
    var l := if i < j then j else i;
    assert !before(s[k], x) && !before(s[l], x) && !before(x, s[l]);
    assert p <= k < l;
    assert l == p + 1 || !before(s[l], s[p + 1]);
    assert !before(x, s[p + 1]);
  }

  /** Every finite set can be listed in order. */
  lemma {:induction false} ListsExists<T(!new)>(before: (T, T) -> bool, m: set<T>) returns (s: seq<T>)
    requires WeakOrder(before)
    ensures Lists(before, m, s)
    decreases |m|
  {
    s := [];
    if m != {} {
      var x :| x in m;
      var t := ListsExists(before, m - {x});
      s := InsertBy(before, x, t);
      forall y
        ensures y in s <==> y in m
        ensures y in s ==> multiset(s)[y] == 1
      {
        DistinctBag(t, y);
        assert y in s <==> y in multiset(s);
      }
      BagDistinct(s);
    }
  }

  /** `r` pairs the elements of two sets. */
  ghost predicate OneToOne<A(!new), B(!new)>(a: set<A>, b: set<B>, r: (A, B) -> bool) {
    && (forall x :: x in a ==> exists y :: y in b && r(x, y))
    && (forall y :: y in b ==> exists x :: x in a && r(x, y))
    && (forall x, y, z :: x in a && y in b && z in b && r(x, y) && r(x, z) ==> y == z)
    && (forall x, y, z :: x in a && y in a && z in b && r(x, z) && r(y, z) ==> x == y)
  }

  lemma {:induction false} SameSize<A(!new), B(!new)>(a: set<A>, b: set<B>, r: (A, B) -> bool)
    requires OneToOne(a, b, r)
    ensures |a| == |b|
    decreases |a|
  {
    if a != {} {
      var x :| x in a;
      var y :| y in b && r(x, y);
      SameSize(a - {x}, b - {y}, r);
    } else {
      assert b == {};
    }
  }
}
