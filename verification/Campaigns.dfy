/** `Cluster`: rows joined by shared fingerprints, aggregated per class, ranked. */
module Campaigns {
  import opened Basics
  import opened Ordering
  import opened FingerprintForest

  const MAX_CAMPAIGN_IPS := 50

  /** One stored event; `time` counts from Go's zero time, so `IsZero` is `time == 0`. */
  datatype Row = Row(ip: string, fp: seq<string>, port: int, cc: string, tags: seq<string>, time: int)

  /** A row without the order of its fingerprints and tags. */
  datatype Bare = Bare(ip: string, fp: multiset<string>, port: int, cc: string, tags: set<string>, time: int)

  /** The part of an aggregate that adds up. `fps` is the counting map `map[string]int`. */
  datatype Totals = Totals(ips: set<string>, ports: set<int>, ccs: set<string>, tags: set<string>,
                           fps: multiset<string>, events: nat, last: int)

  /** The `agg` struct of one class. */
  datatype Agg = Agg(sum: Totals, first: int)

  datatype Campaign = Campaign(id: string, name: string, ips: seq<string>, ipCount: nat, events: nat,
                               ports: seq<int>, countries: seq<string>, tags: seq<string>,
                               first: int, last: int)

  /** The fingerprint sets of the rows: all that grouping depends on. */
  ghost function Edges(rows: seq<Row>): set<set<string>> {
    set r | r in rows :: FpSet(r.fp)
  }

  // ---- Joining ----

  /** After joining `a` and `f`, node `y` is still linked to its root. */
  lemma {:induction false} JoinStepAt(
    rows: set<set<string>>, p: Parents, row: set<string>, a: string, f: string, y: string)
    requires WellFormed(p) && a in p && f in p && y in p
    requires Sound(rows, p) && row in rows && a in row && f in row
    ensures Linked(rows, y, Merged(Root(p, y), Root(p, a), Root(p, f)))
  {
    var ry, ra, rf := Root(p, y), Root(p, a), Root(p, f);
    if ry == ra {
      LinkedInRow(rows, row, a, f);
      LinkedSymmetric(rows, a, ra);
      LinkedTransitive(rows, y, ra, a);
      LinkedTransitive(rows, y, a, f);
      LinkedTransitive(rows, y, f, rf);
    } else if ry == rf {
      LinkedInRow(rows, row, f, a);
      LinkedSymmetric(rows, f, rf);
      LinkedTransitive(rows, y, rf, f);
      LinkedTransitive(rows, y, f, a);
      LinkedTransitive(rows, y, a, ra);
    }
  }

  /** `q` is `p` after `union(a, f)`. */
  ghost predicate AfterUnion(p: Parents, q: Parents, a: string, f: string)
    requires WellFormed(p) && WellFormed(q)
  {
    && p.Keys == q.Keys && a in p && f in p
    && forall y {:trigger Root(q, y)} :: y in p ==> Root(q, y) == Merged(Root(p, y), Root(p, a), Root(p, f))
  }

  lemma {:induction false} UnionSound(
    rows: set<set<string>>, p: Parents, q: Parents, row: set<string>, a: string, f: string)
    requires WellFormed(p) && WellFormed(q) && AfterUnion(p, q, a, f)
    requires Sound(rows, p) && row in rows && a in row && f in row
    ensures Sound(rows, q)
  {
    forall y | y in p
      ensures Linked(rows, y, Root(q, y))
    {
      JoinStepAt(rows, p, row, a, f, y);
    }
  }

  lemma {:induction false} UnionCoarser(p: Parents, q: Parents, a: string, f: string)
    requires WellFormed(p) && WellFormed(q) && AfterUnion(p, q, a, f)
    ensures Root(q, a) == Root(q, f) && Coarser(p, q)
  {
  }

  lemma {:induction false} NewNode(rows: set<set<string>>, p: Parents, row: set<string>, f: string)
    requires WellFormed(p) && Sound(rows, p) && f !in p && row in rows && f in row
    ensures WellFormed(p[f := f]) && Sound(rows, p[f := f])
    ensures forall y {:trigger Root(p[f := f], y)} :: y in p ==> Root(p[f := f], y) == Root(p, y)
  {
    var q := p[f := f];
    forall k | k in q
      ensures Descends(q, k)
    {
      assert k in p ==> Descends(p, k);
    }
    forall y | y in p
      ensures Root(q, y) == Root(p, y)
    {
      NewNodeRoot(p, f, y);
    }
    LinkedInRow(rows, row, f, f);
  }

  lemma {:induction false} NewNodeRoot(p: Parents, f: string, y: string)
    requires WellFormed(p) && WellFormed(p[f := f]) && f !in p && y in p
    ensures Root(p[f := f], y) == Root(p, y)
    decreases Below(p.Keys, y)
  {
    if p[y] != y {
      BelowShrinks(p, y);
      NewNodeRoot(p, f, p[y]);
    }
  }

  /** The first `n` fingerprints of `fp` are known and share the root of the first. */
  ghost predicate Joined(p: Parents, fp: seq<string>, n: nat)
    requires WellFormed(p) && n <= |fp|
  {
    && (forall i {:trigger fp[i]} :: 0 <= i < n ==> fp[i] in p)
    && (forall i {:trigger fp[i]} :: 0 <= i < n ==> Root(p, fp[i]) == Root(p, fp[0]))
  }

  /** Equal roots stay equal. */
  ghost predicate Coarser(p: Parents, q: Parents)
    requires WellFormed(p) && WellFormed(q)
  {
    && p.Keys <= q.Keys
    && forall y, z {:trigger Root(q, y), Root(q, z)} :: y in p && z in p && Root(p, y) == Root(p, z) ==> Root(q, y) == Root(q, z)
  }

  /** The two nested loops that build the forest: it ends as the partition of the
      fingerprints into classes linked by chains of rows, each class represented by
      its smallest member. */
  method JoinRows(rows: seq<Row>) returns (forest: Forest)
    ensures fresh(forest) && forest.Valid()
    ensures Partition(Edges(rows), Roots(forest.parent))
  {
    forest := new Forest();
    var n := 0;
    while n < |rows|
      invariant 0 <= n <= |rows| && fresh(forest) && forest.Valid()
      invariant Sound(Edges(rows), forest.parent)
      invariant forall i {:trigger rows[i]} :: 0 <= i < n ==> Joined(forest.parent, rows[i].fp, |rows[i].fp|)
    {
      ghost var before := forest.parent;
      JoinRow(forest, rows[n].fp, Edges(rows)) by {
        assert rows[n] in rows;
      }
      forall i | 0 <= i < n
        ensures Joined(forest.parent, rows[i].fp, |rows[i].fp|)
      {
        JoinedStays(before, forest.parent, rows[i].fp, |rows[i].fp|);
      }
      n := n + 1;
    }
    forall e | e in Edges(rows)
      ensures RowJoined(forest.parent, e)
    {
      var r :| r in rows && e == FpSet(r.fp);
      var i :| 0 <= i < |rows| && rows[i] == r;
      assert Joined(forest.parent, rows[i].fp, |rows[i].fp|);
    }
    JoinedForestIsPartition(Edges(rows), forest.parent);
  }

  lemma {:induction false} CoarserTransitive(p: Parents, q: Parents, r: Parents)
    requires WellFormed(p) && WellFormed(q) && WellFormed(r) && Coarser(p, q) && Coarser(q, r)
    ensures Coarser(p, r)
  {
    forall y, z | y in p && z in p && Root(p, y) == Root(p, z)
      ensures Root(r, y) == Root(r, z)
    {
      assert Root(q, y) == Root(q, z);
    }
  }

  lemma {:induction false} JoinedStays(p: Parents, q: Parents, fp: seq<string>, n: nat)
    requires WellFormed(p) && WellFormed(q) && Coarser(p, q) && n <= |fp| && Joined(p, fp, n)
    ensures Joined(q, fp, n)
  {
    forall i | 0 <= i < n
      ensures Root(q, fp[i]) == Root(q, fp[0])
    {
      assert fp[i] in p && fp[0] in p && Root(p, fp[i]) == Root(p, fp[0]);
    }
  }

  lemma {:induction false} JoinOneMore(
    edges: set<set<string>>, start: Parents, p: Parents, q: Parents, r: Parents, fp: seq<string>, i: nat)
    requires WellFormed(start) && WellFormed(p) && WellFormed(q) && WellFormed(r)
    requires Coarser(start, p) && Coarser(p, q) && i < |fp| && Joined(p, fp, i) && AfterUnion(q, r, fp[0], fp[i])
    requires Sound(edges, q) && FpSet(fp) in edges
    ensures Sound(edges, r) && Joined(r, fp, i + 1) && Coarser(start, r)
  {
    UnionSound(edges, q, r, FpSet(fp), fp[0], fp[i]);
    UnionCoarser(q, r, fp[0], fp[i]);
    CoarserTransitive(p, q, r);
    CoarserTransitive(start, p, r);
    JoinedStays(p, r, fp, i);
  }

  /** Joins one row's fingerprints to its first. */
  method JoinRow(forest: Forest, fp: seq<string>, ghost edges: set<set<string>>)
    requires forest.Valid() && Sound(edges, forest.parent) && FpSet(fp) in edges
    modifies forest
    ensures forest.Valid() && Sound(edges, forest.parent)
    ensures Joined(forest.parent, fp, |fp|) && Coarser(old(forest.parent), forest.parent)
  {
    var i := 0;
    while i < |fp|
      invariant 0 <= i <= |fp| && forest.Valid() && Sound(edges, forest.parent)
      invariant Joined(forest.parent, fp, i) && Coarser(old(forest.parent), forest.parent)
    {
      ghost var p := forest.parent;
      if fp[i] !in forest.parent {
        NewNode(edges, forest.parent, FpSet(fp), fp[i]);
        forest.parent := forest.parent[fp[i] := fp[i]];
      }
      ghost var q := forest.parent;
      forest.Union(fp[0], fp[i]);
      JoinOneMore(edges, old(forest.parent), p, q, forest.parent, fp, i);
      i := i + 1;
    }
  }

  // ---- Aggregation ----

  function Strip(r: Row): Bare {
    Bare(r.ip, multiset(r.fp), r.port, r.cc, FpSet(r.tags), r.time)
  }

  function StripAll(rows: seq<Row>): (r: seq<Bare>)
    ensures |r| == |rows| && forall i {:trigger r[i]} :: 0 <= i < |rows| ==> r[i] == Strip(rows[i])
  {
    seq(|rows|, i requires 0 <= i < |rows| => Strip(rows[i]))
  }

  function One(r: Bare): Totals {
    Totals({r.ip}, {r.port}, if r.cc == "" then {} else {r.cc}, r.tags, r.fp, 1, Max(0, r.time))
  }

  function Plus(a: Totals, b: Totals): Totals {
    Totals(a.ips + b.ips, a.ports + b.ports, a.ccs + b.ccs, a.tags + b.tags, a.fps + b.fps,
           a.events + b.events, Max(a.last, b.last))
  }

  const ZERO := Totals({}, {}, {}, {}, multiset{}, 0, 0)

  /** The sum of a list of rows. */
  function Total(rows: seq<Bare>): (t: Totals)
    ensures t.last >= 0
  {
    if rows == [] then ZERO else Plus(One(rows[0]), Total(rows[1..]))
  }

  lemma {:induction false} PlusAssociative(a: Totals, b: Totals, c: Totals)
    ensures Plus(Plus(a, b), c) == Plus(a, Plus(b, c))
  {
    assert a.ips + b.ips + c.ips == a.ips + (b.ips + c.ips);
    assert a.ports + b.ports + c.ports == a.ports + (b.ports + c.ports);
    assert a.ccs + b.ccs + c.ccs == a.ccs + (b.ccs + c.ccs);
    assert a.tags + b.tags + c.tags == a.tags + (b.tags + c.tags);
    assert a.fps + b.fps + c.fps == a.fps + (b.fps + c.fps);
  }

  lemma {:induction false} PlusCommutative(a: Totals, b: Totals)
    ensures Plus(a, b) == Plus(b, a)
  {
    assert a.ips + b.ips == b.ips + a.ips && a.ports + b.ports == b.ports + a.ports;
    assert a.ccs + b.ccs == b.ccs + a.ccs && a.tags + b.tags == b.tags + a.tags;
    assert a.fps + b.fps == b.fps + a.fps;
  }

  lemma {:induction false} PlusZero(a: Totals)
    requires a.last >= 0
    ensures Plus(a, ZERO) == a && Plus(ZERO, a) == a
  {
    assert a.fps + multiset{} == a.fps && multiset{} + a.fps == a.fps;
  }

  lemma {:induction false} TotalConcat(a: seq<Bare>, b: seq<Bare>)
    ensures Total(a + b) == Plus(Total(a), Total(b))
  {
    if a == [] {
      assert a + b == b;
      PlusZero(Total(b));
    } else {
      assert (a + b)[0] == a[0] && (a + b)[1..] == a[1..] + b;
      calc {
        Total(a + b);
        Plus(One(a[0]), Total(a[1..] + b));
        { TotalConcat(a[1..], b); }
        Plus(One(a[0]), Plus(Total(a[1..]), Total(b)));
        { PlusAssociative(One(a[0]), Total(a[1..]), Total(b)); }
        Plus(Plus(One(a[0]), Total(a[1..])), Total(b));
        Plus(Total(a), Total(b));
      }
    }
  }

  lemma {:induction false} TotalSnoc(a: seq<Bare>, r: Bare)
    ensures Total(a + [r]) == Plus(Total(a), One(r))
  {
    TotalConcat(a, [r]);
    PlusZero(One(r));
    assert Total([r]) == Plus(One(r), Total([]));
  }

  lemma {:induction false} TotalPick(a: seq<Bare>, i: nat)
    requires i < |a|
    ensures Total(a) == Plus(One(a[i]), Total(a[..i] + a[i + 1..]))
  {
    assert a == a[..i] + ([a[i]] + a[i + 1..]);
    TotalConcat(a[..i], [a[i]] + a[i + 1..]);
    TotalConcat(a[..i], a[i + 1..]);
    var x, l, r := One(a[i]), Total(a[..i]), Total(a[i + 1..]);
    assert Total([a[i]] + a[i + 1..]) == Plus(x, r) by {
      assert ([a[i]] + a[i + 1..])[1..] == a[i + 1..];
    }
    PlusAssociative(l, x, r);
    PlusCommutative(l, x);
    PlusAssociative(x, l, r);
  }

  /** The sums do not depend on the order of the rows. */
  lemma {:induction false} TotalOfBag(a: seq<Bare>, b: seq<Bare>)
    requires multiset(a) == multiset(b)
    ensures Total(a) == Total(b)
    decreases |a|
  {
    assert |multiset(a)| == |a| && |multiset(b)| == |b|;
    if a != [] {
      assert a[0] in multiset(b);
      var i :| 0 <= i < |b| && b[i] == a[0];
      RemovedAt(b, i);
      TailBag(a);
      TotalPick(b, i);
      TotalOfBag(a[1..], b[..i] + b[i + 1..]);
    }
  }

  // ---- First seen ----

  /** One update of `g.first`: taken when still zero, or when earlier. */
  function EarlierOf(first: int, t: int): int {
    if first == 0 || t < first then t else first
  }

  /** `g.first` after the given times. */
  function FirstSeen(times: seq<int>): int {
    if times == [] then 0 else EarlierOf(FirstSeen(times[..|times| - 1]), times[|times| - 1])
  }

  ghost predicate IsMinimum(times: seq<int>, m: int) {
    m in times && forall t :: t in times ==> m <= t
  }

  predicate HasNegative(times: seq<int>) {
    exists t :: t in times && t < 0
  }

  lemma {:induction false} InSnoc(init: seq<int>, t: int, x: int)
    ensures x in init + [t] <==> x in init || x == t
  {
    assert (init + [t])[|init|] == t;
  }

  lemma {:induction false} MinimumSnoc(init: seq<int>, m: int, t: int)
    requires IsMinimum(init, m) && m != 0
    ensures IsMinimum(init + [t], EarlierOf(m, t))
  {
    InSnoc(init, t, EarlierOf(m, t));
    forall x | x in init + [t]
      ensures EarlierOf(m, t) <= x
    {
      InSnoc(init, t, x);
    }
  }

  lemma {:induction false} NegativeLast(init: seq<int>, first: int, t: int)
    requires t < 0 && first >= 0 && forall x :: x in init ==> x >= 0
    ensures IsMinimum(init + [t], EarlierOf(first, t))
  {
    InSnoc(init, t, t);
    forall x | x in init + [t]
      ensures t <= x
    {
      InSnoc(init, t, x);
    }
  }

  lemma {:induction false} NonZeroMinimum(times: seq<int>, m: int)
    requires IsMinimum(times, m) && (HasNegative(times) || 0 !in times)
    ensures m != 0
  {
  }

  lemma {:induction false} NegativeIsLast(init: seq<int>, t: int)
    requires HasNegative(init + [t]) && !HasNegative(init)
    ensures t < 0 && forall x :: x in init ==> x >= 0
  {
    var u :| u in init + [t] && u < 0;
    InSnoc(init, t, u);
  }

  lemma {:induction false} FirstSeenSnoc(init: seq<int>, t: int)
    ensures FirstSeen(init + [t]) == EarlierOf(FirstSeen(init), t)
  {
    assert (init + [t])[..|init|] == init;
  }

  /** First-seen is the minimum when no time is zero, or when some time lies before zero. */
  lemma {:induction false} FirstSeenIsMinimum(times: seq<int>)
    requires times != []
    requires 0 !in times || HasNegative(times)
    ensures IsMinimum(times, FirstSeen(times))
  {
    var init, t := times[..|times| - 1], times[|times| - 1];
    assert times == init + [t];
    FirstSeenSnoc(init, t);
    InSnoc(init, t, 0);
    if init == [] {
      assert FirstSeen(init) == 0 && times == [t];
    } else if HasNegative(init) || 0 !in init {
      FirstSeenIsMinimum(init);
      NonZeroMinimum(init, FirstSeen(init));
      MinimumSnoc(init, FirstSeen(init), t);
    } else {
      NegativeIsLast(init, t);
      FirstSeenNonNegative(init);
      NegativeLast(init, FirstSeen(init), t);
    }
  }

  /** The exact condition: first-seen misses the earliest time when that is zero and the last row is later. */
  lemma {:induction false} FirstSeenIsMinimumIff(times: seq<int>)
    requires times != []
    ensures IsMinimum(times, FirstSeen(times)) <==> !(IsMinimum(times, 0) && times[|times| - 1] != 0)
  {
    if 0 !in times || HasNegative(times) {
      FirstSeenIsMinimum(times);
    } else {
      var init := times[..|times| - 1];
      assert forall t :: t in init ==> t in times;
      FirstSeenNonNegative(init);
      assert times[|times| - 1] in times && IsMinimum(times, 0);
    }
  }

  lemma {:induction false} FirstSeenNonNegative(times: seq<int>)
    requires forall t :: t in times ==> t >= 0
    ensures FirstSeen(times) >= 0 && (FirstSeen(times) == 0 || FirstSeen(times) in times)
  {
    if times != [] {
      var init, t := times[..|times| - 1], times[|times| - 1];
      assert t in times && forall x :: x in init ==> x in times;
      FirstSeenNonNegative(init);
    }
  }

  /** Moves the element at `i` to the end. */
  function MoveLast(s: seq<int>, i: nat): (r: seq<int>)
    requires i < |s|
    ensures multiset(r) == multiset(s) && r != [] && r[|r| - 1] == s[i] && r[..|r| - 1] == s[..i] + s[i + 1..]
  {
    RemovedAt(s, i);
    s[..i] + s[i + 1..] + [s[i]]
  }

  /** Zero is the least time and a later time exists. */
  ghost predicate ZeroHidesLater(times: seq<int>) {
    IsMinimum(times, 0) && exists t :: t in times && t > 0
  }

  lemma {:induction false} FirstSeenVaries(times: seq<int>) returns (other: seq<int>)
    requires ZeroHidesLater(times)
    ensures multiset(other) == multiset(times) && FirstSeen(other) != FirstSeen(times)
  {
    var i :| 0 <= i < |times| && times[i] == 0;
    var j :| 0 <= j < |times| && times[j] > 0;
    var u, v := times[..i] + times[i + 1..], times[..j] + times[j + 1..];
    assert (forall t :: t in u ==> t in times) && forall t :: t in v ==> t in times;
    FirstSeenNonNegative(u);
    FirstSeenNonNegative(v);
    assert FirstSeen(MoveLast(times, i)) == 0 && FirstSeen(MoveLast(times, j)) > 0;
    other := if FirstSeen(times) == 0 then MoveLast(times, j) else MoveLast(times, i);
  }

  lemma {:induction false} FirstSeenOfBag(times: seq<int>, other: seq<int>)
    requires !ZeroHidesLater(times) && multiset(other) == multiset(times)
    ensures FirstSeen(other) == FirstSeen(times)
  {
    assert forall t :: t in times <==> t in multiset(times);
    assert forall t :: t in other <==> t in multiset(other);
    assert |multiset(times)| == |times| && |multiset(other)| == |other|;
    if times != [] {
      if 0 !in times || exists t :: t in times && t < 0 {
        FirstSeenIsMinimum(times);
        FirstSeenIsMinimum(other);
      } else {
        FirstSeenNonNegative(times);
        FirstSeenNonNegative(other);
      }
    }
  }

  /** First-seen is independent of the row order exactly unless zero is the least time and a later one exists. */
  lemma {:induction false} FirstSeenOrderFree(times: seq<int>)
    ensures (forall other :: multiset(other) == multiset(times) ==> FirstSeen(other) == FirstSeen(times))
       <==> !ZeroHidesLater(times)
  {
    if ZeroHidesLater(times) {
      var other := FirstSeenVaries(times);
    } else {
      forall other | multiset(other) == multiset(times)
        ensures FirstSeen(other) == FirstSeen(times)
      {
        FirstSeenOfBag(times, other);
      }
    }
  }

  /** Two times are enough: the zero time first or last. */
  lemma {:induction false} FirstSeenExample()
    ensures multiset([0, 1]) == multiset([1, 0]) && FirstSeen([0, 1]) == 1 && FirstSeen([1, 0]) == 0
  {
    assert [0, 1][..1] == [0] && [1, 0][..1] == [1] && [0][..0] == [] && [1][..0] == [];
    assert FirstSeen([]) == 0 && FirstSeen([0]) == 0 && FirstSeen([1]) == 1;
  }

  // ---- Groups ----

  /** The row carries a fingerprint of the class represented by `root`. */
  ghost predicate InClass(rep: map<string, string>, root: string, r: Bare) {
    exists f :: f in r.fp && f in rep && rep[f] == root
  }

  ghost function ClassRows(rep: map<string, string>, root: string, rows: seq<Bare>): seq<Bare> {
    if rows == [] then []
    else
      var init := ClassRows(rep, root, rows[..|rows| - 1]);
      if InClass(rep, root, rows[|rows| - 1]) then init + [rows[|rows| - 1]] else init
  }

  function Times(rows: seq<Bare>): (r: seq<int>)
    ensures |r| == |rows|
  {
    seq(|rows|, i requires 0 <= i < |rows| => rows[i].time)
  }

  function Summary(rows: seq<Bare>): Agg {
    Agg(Total(rows), FirstSeen(Times(rows)))
  }

  lemma {:induction false} SummarySnoc(rows: seq<Bare>, r: Bare)
    ensures Summary(rows + [r]) == Agg(Plus(Total(rows), One(r)), EarlierOf(FirstSeen(Times(rows)), r.time))
  {
    TotalSnoc(rows, r);
    assert Times(rows + [r])[..|rows|] == Times(rows);
  }

  /** The body of the aggregation loop for one row. */
  method AddRow(g: Agg, r: Row) returns (h: Agg)
    requires g.sum.last >= 0
    ensures h == Agg(Plus(g.sum, One(Strip(r))), EarlierOf(g.first, r.time))
  {
    var ccs := g.sum.ccs;
    if r.cc != "" {
      ccs := ccs + {r.cc};
    }
    var tags := g.sum.tags;
    for i := 0 to |r.tags|
      invariant tags == g.sum.tags + FpSet(r.tags[..i])
    {
      tags := tags + {r.tags[i]};
      assert r.tags[..i + 1] == r.tags[..i] + [r.tags[i]];
    }
    assert r.tags[..|r.tags|] == r.tags;
    var fps := g.sum.fps;
    for i := 0 to |r.fp|
      invariant fps == g.sum.fps + multiset(r.fp[..i])
    {
      fps := fps + multiset{r.fp[i]};
      assert r.fp[..i + 1] == r.fp[..i] + [r.fp[i]];
    }
    assert r.fp[..|r.fp|] == r.fp;
    var first, last := g.first, g.sum.last;
    if first == 0 || r.time < first {
      first := r.time;
    }
    if r.time > last {
      last := r.time;
    }
    h := Agg(Totals(g.sum.ips + {r.ip}, g.sum.ports + {r.port}, ccs, tags, fps, g.sum.events + 1, last), first);
  }

  /** `groups` holds exactly the non-empty classes of `rows`, each with its summary. */
  ghost predicate GroupsOf(groups: map<string, Agg>, rep: map<string, string>, rows: seq<Bare>) {
    forall root {:trigger ClassRows(rep, root, rows)} ::
      && (root in groups <==> ClassRows(rep, root, rows) != [])
      && (root in groups ==> groups[root] == Summary(ClassRows(rep, root, rows)))
  }

  lemma {:induction false} ClassOfRow(edges: set<set<string>>, rep: map<string, string>, r: Row, root: string)
    requires Partition(edges, rep) && FpSet(r.fp) in edges && r.fp != []
    ensures r.fp[0] in rep && (InClass(rep, root, Strip(r)) <==> rep[r.fp[0]] == root)
  {
    assert r.fp[0] in FpSet(r.fp);
    if InClass(rep, root, Strip(r)) {
      var f :| f in Strip(r).fp && f in rep && rep[f] == root;
      assert f in FpSet(r.fp);
      LinkedInRow(edges, FpSet(r.fp), f, r.fp[0]);
    }
  }

  lemma {:induction false} GroupsSkip(groups: map<string, Agg>, rep: map<string, string>, rows: seq<Bare>, r: Bare)
    requires GroupsOf(groups, rep, rows) && forall root :: !InClass(rep, root, r)
    ensures GroupsOf(groups, rep, rows + [r])
  {
    assert (rows + [r])[..|rows|] == rows;
    forall root
      ensures ClassRows(rep, root, rows + [r]) == ClassRows(rep, root, rows)
    {
    }
  }

  lemma {:induction false} GroupsAdd(
    groups: map<string, Agg>, rep: map<string, string>, rows: seq<Bare>, r: Bare, home: string, g: Agg)
    requires GroupsOf(groups, rep, rows) && forall root :: InClass(rep, root, r) <==> root == home
    requires g == Agg(Plus(Total(ClassRows(rep, home, rows)), One(r)),
                      EarlierOf(FirstSeen(Times(ClassRows(rep, home, rows))), r.time))
    ensures GroupsOf(groups[home := g], rep, rows + [r])
  {
    assert (rows + [r])[..|rows|] == rows;
    SummarySnoc(ClassRows(rep, home, rows), r);
    forall root
      ensures ClassRows(rep, root, rows + [r]) ==
              if root == home then ClassRows(rep, root, rows) + [r] else ClassRows(rep, root, rows)
    {
    }
  }

  /** Adds a row with fingerprints to the group of its class. */
  method CountRow(groups: map<string, Agg>, r: Row, root: string,
                  ghost edges: set<set<string>>, ghost rep: map<string, string>, ghost done: seq<Bare>)
    returns (more: map<string, Agg>)
    requires Partition(edges, rep) && FpSet(r.fp) in edges && r.fp != [] && r.fp[0] in rep && root == rep[r.fp[0]]
    requires GroupsOf(groups, rep, done)
    ensures GroupsOf(more, rep, done + [Strip(r)])
  {
    forall other
      ensures InClass(rep, other, Strip(r)) <==> other == root
    {
      ClassOfRow(edges, rep, r, other);
    }
    ghost var mine := ClassRows(rep, root, done);
    var g := if root in groups then groups[root] else Agg(ZERO, 0);
    assert g == Summary(mine);
    g := AddRow(g, r);
    GroupsAdd(groups, rep, done, Strip(r), root, g);
    more := groups[root := g];
  }

  /** One pass of the aggregation loop. */
  method AggregateRow(
    groups: map<string, Agg>, r: Row, forest: Forest, ghost edges: set<set<string>>, ghost done: seq<Bare>)
    returns (more: map<string, Agg>)
    requires forest.Valid() && Partition(edges, Roots(forest.parent)) && FpSet(r.fp) in edges
    requires GroupsOf(groups, Roots(forest.parent), done)
    modifies forest
    ensures forest.Valid() && Roots(forest.parent) == old(Roots(forest.parent))
    ensures GroupsOf(more, Roots(forest.parent), done + [Strip(r)])
  {
    ghost var rep := Roots(forest.parent);
    if r.fp == [] {
      GroupsSkip(groups, rep, done, Strip(r));
      return groups;
    }
    ClassOfRow(edges, rep, r, "");
    var root := forest.Find(r.fp[0]);
    assert Roots(forest.parent) == rep && root == rep[r.fp[0]];
    more := CountRow(groups, r, root, edges, rep, done);
  }

  /** The aggregation loop: one summary per class that has rows. */
  method Aggregate(rows: seq<Row>, forest: Forest) returns (groups: map<string, Agg>)
    requires forest.Valid() && Partition(Edges(rows), Roots(forest.parent))
    modifies forest
    ensures forest.Valid() && Roots(forest.parent) == old(Roots(forest.parent))
    ensures GroupsOf(groups, Roots(forest.parent), StripAll(rows))
  {
    groups := map[];
    ghost var rep := Roots(forest.parent);
    ghost var bare := StripAll(rows);
    for n := 0 to |rows|
      invariant forest.Valid() && Roots(forest.parent) == rep && GroupsOf(groups, rep, bare[..n])
    {
      var r := rows[n];
      assert r in rows && FpSet(r.fp) in Edges(rows);
      groups := AggregateRow(groups, r, forest, Edges(rows), bare[..n]);
      assert bare[..n + 1] == bare[..n] + [Strip(r)];
    }
    assert bare[..|rows|] == bare;
  }

  // ---- Order independence of the classes ----

  /** Same rows up to their order and to the order of fingerprints and tags inside each. */
  ghost predicate SamePopulation(rows: seq<Row>, other: seq<Row>) {
    multiset(StripAll(rows)) == multiset(StripAll(other))
  }

  lemma {:induction false} EdgesOfBare(rows: seq<Row>, e: set<string>)
    ensures e in Edges(rows) <==> exists b :: b in multiset(StripAll(rows)) && e == set f | f in b.fp
  {
    if e in Edges(rows) {
      var r :| r in rows && e == FpSet(r.fp);
      var i :| 0 <= i < |rows| && rows[i] == r;
      assert StripAll(rows)[i] == Strip(r);
      assert Strip(r) in multiset(StripAll(rows));
      assert e == set f | f in Strip(r).fp;
    }
    if b :| b in multiset(StripAll(rows)) && e == set f | f in b.fp {
      assert b in StripAll(rows);
      var i :| 0 <= i < |rows| && StripAll(rows)[i] == b;
      assert rows[i] in rows && e == FpSet(rows[i].fp);
    }
  }

  lemma {:induction false} SameEdges(rows: seq<Row>, other: seq<Row>)
    requires SamePopulation(rows, other)
    ensures Edges(rows) == Edges(other)
  {
    forall e
      ensures e in Edges(rows) <==> e in Edges(other)
    {
      EdgesOfBare(rows, e);
      EdgesOfBare(other, e);
    }
  }

  lemma {:induction false} ClassBag(rep: map<string, string>, root: string, rows: seq<Bare>, x: Bare)
    ensures multiset(ClassRows(rep, root, rows))[x] == if InClass(rep, root, x) then multiset(rows)[x] else 0
  {
    if rows != [] {
      ClassBag(rep, root, rows[..|rows| - 1], x);
      assert rows == rows[..|rows| - 1] + [rows[|rows| - 1]];
    }
  }

  lemma {:induction false} ClassOfBag(rep: map<string, string>, root: string, rows: seq<Bare>, other: seq<Bare>)
    requires multiset(rows) == multiset(other)
    ensures multiset(ClassRows(rep, root, rows)) == multiset(ClassRows(rep, root, other))
  {
    forall x
      ensures multiset(ClassRows(rep, root, rows))[x] == multiset(ClassRows(rep, root, other))[x]
    {
      ClassBag(rep, root, rows, x);
      ClassBag(rep, root, other, x);
    }
  }

  lemma {:induction false} TimesWithout(rows: seq<Bare>, i: nat)
    requires i < |rows|
    ensures multiset(Times(rows)) == multiset(Times(rows[..i] + rows[i + 1..])) + multiset{rows[i].time}
  {
    assert Times(rows[..i] + rows[i + 1..]) == Times(rows)[..i] + Times(rows)[i + 1..];
    RemovedAt(Times(rows), i);
  }

  lemma {:induction false} TimesOfBag(a: seq<Bare>, b: seq<Bare>)
    requires multiset(a) == multiset(b)
    ensures multiset(Times(a)) == multiset(Times(b))
    decreases |a|
  {
    if a == [] {
      assert |multiset(b)| == |b|;
    } else {
      var i := FirstElsewhere(a, b);
      TimesOfBag(a[..0] + a[1..], b[..i] + b[i + 1..]);
      TimesWithout(a, 0);
      TimesWithout(b, i);
    }
  }

  /** A class summary survives every reordering of the rows unless zero hides a later time in the class. */
  lemma {:induction false} SummaryOfBag(rep: map<string, string>, root: string, rows: seq<Bare>, other: seq<Bare>)
    requires multiset(rows) == multiset(other) && !ZeroHidesLater(Times(ClassRows(rep, root, rows)))
    ensures Summary(ClassRows(rep, root, rows)) == Summary(ClassRows(rep, root, other))
  {
    ClassOfBag(rep, root, rows, other);
    TotalOfBag(ClassRows(rep, root, rows), ClassRows(rep, root, other));
    TimesOfBag(ClassRows(rep, root, rows), ClassRows(rep, root, other));
    FirstSeenOfBag(Times(ClassRows(rep, root, rows)), Times(ClassRows(rep, root, other)));
  }

  /** Some row of the class has time `t`; moving it last leaves its class rows with it last. */
  lemma {:induction false} ClassMember(rep: map<string, string>, root: string, rows: seq<Bare>, t: int) returns (i: nat)
    requires t in Times(ClassRows(rep, root, rows))
    ensures i < |rows| && rows[i].time == t && InClass(rep, root, rows[i])
  {
    var k :| 0 <= k < |Times(ClassRows(rep, root, rows))| && Times(ClassRows(rep, root, rows))[k] == t;
    var x := ClassRows(rep, root, rows)[k];
    assert x in multiset(ClassRows(rep, root, rows));
    ClassBag(rep, root, rows, x);
    assert x in rows;
    i :| 0 <= i < |rows| && rows[i] == x;
  }

  lemma {:induction false} MovedRow(
    rep: map<string, string>, root: string, rows: seq<Bare>, i: nat) returns (other: seq<Bare>)
    requires i < |rows| && InClass(rep, root, rows[i])
    requires forall t :: t in Times(ClassRows(rep, root, rows)) ==> t >= 0
    ensures other == rows[..i] + rows[i + 1..] + [rows[i]] && multiset(other) == multiset(rows)
    ensures FirstSeen(Times(ClassRows(rep, root, other))) >= 0
    ensures FirstSeen(Times(ClassRows(rep, root, other))) == 0 <==> rows[i].time == 0
  {
    var less := rows[..i] + rows[i + 1..];
    other := less + [rows[i]];
    RemovedAt(rows, i);
    assert other[..|less|] == less;
    var mine := ClassRows(rep, root, less);
    assert ClassRows(rep, root, other) == mine + [rows[i]];
    assert Times(mine + [rows[i]])[..|mine|] == Times(mine);
    ClassOfBag(rep, root, rows, other);
    TimesOfBag(ClassRows(rep, root, rows), mine + [rows[i]]);
    forall t | t in Times(mine)
      ensures t >= 0
    {
      assert Times(mine + [rows[i]]) == Times(mine) + [rows[i].time];
      assert t in multiset(Times(mine + [rows[i]]));
      assert t in Times(ClassRows(rep, root, rows));
    }
    assert rows[i].time >= 0 by {
      assert Times(mine + [rows[i]])[|mine|] == rows[i].time;
      assert rows[i].time in multiset(Times(mine + [rows[i]]));
      assert rows[i].time in Times(ClassRows(rep, root, rows));
    }
    FirstSeenNonNegative(Times(mine));
  }

  /** The exact condition for a class to have the same summary under every reordering of the rows. */
  lemma {:induction false} SummaryOrderFree(rep: map<string, string>, root: string, rows: seq<Bare>)
    ensures (forall other :: multiset(other) == multiset(rows) ==>
                Summary(ClassRows(rep, root, other)) == Summary(ClassRows(rep, root, rows)))
       <==> !ZeroHidesLater(Times(ClassRows(rep, root, rows)))
  {
    var times := Times(ClassRows(rep, root, rows));
    if ZeroHidesLater(times) {
      var t :| t in times && t > 0;
      var i := ClassMember(rep, root, rows, 0);
      var j := ClassMember(rep, root, rows, t);
      var a := MovedRow(rep, root, rows, i);
      var b := MovedRow(rep, root, rows, j);
      assert Summary(ClassRows(rep, root, a)) != Summary(ClassRows(rep, root, b));
    } else {
      forall other | multiset(other) == multiset(rows)
        ensures Summary(ClassRows(rep, root, other)) == Summary(ClassRows(rep, root, rows))
      {
        SummaryOfBag(rep, root, rows, other);
      }
    }
  }
}
