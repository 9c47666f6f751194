/** The union-find structure of `Cluster`: the `parent` map over fingerprints,
    `find` with path halving, `union` with the smallest fingerprint as root, and
    the loop that joins the fingerprints of every row. */
module FingerprintForest {
  import opened Ordering

  type Parents = map<string, string>

  /** Every parent is known, and is the node itself or a strictly smaller one. */
  ghost predicate WellFormed(p: Parents) {
    forall k {:trigger Descends(p, k)} :: k in p ==> Descends(p, k)
  }

  ghost predicate Descends(p: Parents, k: string)
    requires k in p
  {
    p[k] in p && (p[k] == k || Less(p[k], k))
  }

  /** Nodes that may still be visited on the way up from `x`. */
  ghost function Below(nodes: set<string>, x: string): set<string> {
    set k | k in nodes && Less(k, x)
  }

  lemma {:induction false} BelowShrinks(p: Parents, x: string)
    requires WellFormed(p) && x in p && p[x] != x
    ensures p[x] in p && Less(p[x], x)
    ensures Below(p.Keys, p[x]) < Below(p.Keys, x)
  {
    assert Descends(p, x);
    forall k | k in Below(p.Keys, p[x])
      ensures k in Below(p.Keys, x)
    {
      LessTransitive(k, p[x], x);
    }
    LessIrreflexive(p[x]);
    assert p[x] in Below(p.Keys, x) && p[x] !in Below(p.Keys, p[x]);
  }

  /** The representative reached by following parents. */
  ghost function Root(p: Parents, x: string): (r: string)
    requires WellFormed(p) && x in p
    ensures r in p && p[r] == r
    decreases Below(p.Keys, x)
  {
    if p[x] == x then x else
      BelowShrinks(p, x);
      Root(p, p[x])
  }

  lemma {:induction false} RootIsLeast(p: Parents, x: string)
    requires WellFormed(p) && x in p
    ensures Root(p, x) == x || Less(Root(p, x), x)
    decreases Below(p.Keys, x)
  {
    if p[x] != x {
      BelowShrinks(p, x);
      RootIsLeast(p, p[x]);
      if Root(p, p[x]) != p[x] {
        LessTransitive(Root(p, p[x]), p[x], x);
      }
    }
  }

  /** All roots are as they were. */
  ghost predicate SameRoots(p: Parents, q: Parents)
    requires WellFormed(p) && WellFormed(q)
  {
    p.Keys == q.Keys && forall y {:trigger Root(p, y)} {:trigger Root(q, y)} :: y in p ==> Root(q, y) == Root(p, y)
  }

  lemma {:induction false} HalvingWellFormed(p: Parents, x: string)
    requires WellFormed(p) && x in p && p[x] != x
    ensures p[x] in p && p[p[x]] in p && p[p[x]] != x
    ensures WellFormed(p[x := p[p[x]]])
  {
    assert Descends(p, x) && Descends(p, p[x]);
    if p[p[x]] != p[x] {
      LessTransitive(p[p[x]], p[x], x);
    }
    LessIrreflexive(x);
    var q := p[x := p[p[x]]];
    forall k | k in q
      ensures Descends(q, k)
    {
      assert Descends(p, k);
    }
  }

  lemma {:induction false} HalvingKeepsRoot(p: Parents, x: string, y: string)
    requires WellFormed(p) && x in p && p[x] != x && y in p
    requires p[x] in p && p[p[x]] in p && p[p[x]] != x && WellFormed(p[x := p[p[x]]])
    ensures Root(p[x := p[p[x]]], y) == Root(p, y)
    decreases Below(p.Keys, y)
  {
    if p[y] != y {
      BelowShrinks(p, y);
      if y != x {
        HalvingKeepsRoot(p, x, p[y]);
      } else {
        var z := p[p[x]];
        assert Root(p, x) == Root(p, z);
        if p[x] != z {
          BelowShrinks(p, p[x]);
        }
        HalvingKeepsRoot(p, x, z);
      }
    }
  }

  /** Path halving changes no root. */
  lemma {:induction false} HalvingKeepsRoots(p: Parents, x: string)
    requires WellFormed(p) && x in p && p[x] != x
    ensures p[x] in p && p[p[x]] in p && p[p[x]] != x
    ensures WellFormed(p[x := p[p[x]]]) && SameRoots(p, p[x := p[p[x]]])
  {
    HalvingWellFormed(p, x);
    forall y | y in p
      ensures Root(p[x := p[p[x]]], y) == Root(p, y)
    {
      HalvingKeepsRoot(p, x, y);
    }
  }

  /** Hanging root `hi` under root `lo` redirects exactly the class of `hi`. */
  lemma {:induction false} LinkRoot(p: Parents, lo: string, hi: string, y: string)
    requires WellFormed(p) && lo in p && hi in p && p[lo] == lo && p[hi] == hi && Less(lo, hi) && y in p
    ensures WellFormed(p[hi := lo])
    ensures Root(p[hi := lo], y) == if Root(p, y) == hi then lo else Root(p, y)
    decreases Below(p.Keys, y)
  {
    LessIrreflexive(lo);
    forall k | k in p
      ensures Descends(p[hi := lo], k)
    {
      assert Descends(p, k);
    }
    if p[y] != y {
      BelowShrinks(p, y);
      LinkRoot(p, lo, hi, p[y]);
    }
  }

  /** Where a root goes when the classes of roots `ra` and `rb` are merged. */
  ghost function Merged(r: string, ra: string, rb: string): string {
    if r != ra && r != rb then r else if Less(rb, ra) then rb else ra
  }

  lemma {:induction false} LinkRoots(p: Parents, lo: string, hi: string)
    requires WellFormed(p) && lo in p && hi in p && p[lo] == lo && p[hi] == hi && Less(lo, hi)
    ensures WellFormed(p[hi := lo])
    ensures forall y :: y in p ==> Root(p[hi := lo], y) == Merged(Root(p, y), lo, hi)
  {
    forall y | y in p
      ensures WellFormed(p[hi := lo])
      ensures Root(p[hi := lo], y) == Merged(Root(p, y), lo, hi)
    {
      LinkRoot(p, lo, hi, y);
      LessAsymmetric(lo, hi);
    }
  }

  // ---- What the forest is meant to compute ----

  /** A chain of rows (each given by its fingerprint set), neighbours sharing a fingerprint. */
  ghost predicate Chain(rows: set<set<string>>, c: seq<set<string>>) {
    && c != []
    && (forall i :: 0 <= i < |c| ==> c[i] in rows)
    && forall i :: 0 <= i < |c| - 1 ==> c[i] * c[i + 1] != {}
  }

  ghost predicate ChainFrom(rows: set<set<string>>, c: seq<set<string>>, f: string, g: string) {
    Chain(rows, c) && f in c[0] && g in c[|c| - 1]
  }

  /** Some chain of rows leads from fingerprint `f` to fingerprint `g`. */
  ghost predicate Linked(rows: set<set<string>>, f: string, g: string) {
    exists c :: ChainFrom(rows, c, f, g)
  }

  lemma {:induction false} LinkedInRow(rows: set<set<string>>, r: set<string>, f: string, g: string)
    requires r in rows && f in r && g in r
    ensures Linked(rows, f, g)
  {
    assert ChainFrom(rows, [r], f, g);
  }

  lemma {:induction false} LinkedTransitive(rows: set<set<string>>, f: string, g: string, h: string)
    requires Linked(rows, f, g) && Linked(rows, g, h)
    ensures Linked(rows, f, h)
  {
    var c :| ChainFrom(rows, c, f, g);
    var d :| ChainFrom(rows, d, g, h);
    assert g in c[|c| - 1] * d[0];
    assert ChainFrom(rows, c + d, f, h) by {
      forall i | 0 <= i < |c + d| - 1
        ensures (c + d)[i] * (c + d)[i + 1] != {}
      {
        if i >= |c| {
          assert (c + d)[i] == d[i - |c|] && (c + d)[i + 1] == d[i - |c| + 1];
          assert d[i - |c|] * d[i - |c| + 1] != {};
        } else if i == |c| - 1 {
        } else {
          assert c[i] * c[i + 1] != {};
        }
      }
    }
  }

  lemma {:induction false} LinkedSymmetric(rows: set<set<string>>, f: string, g: string)
    requires Linked(rows, f, g)
    ensures Linked(rows, g, f)
  {
    var c :| ChainFrom(rows, c, f, g);
    var d := seq(|c|, i requires 0 <= i < |c| => c[|c| - 1 - i]);
    assert ChainFrom(rows, d, g, f) by {
      forall i | 0 <= i < |d| - 1
        ensures d[i] * d[i + 1] != {}
      {
        var k := |c| - 2 - i;
        assert c[k] * c[k + 1] != {};
        assert d[i] * d[i + 1] == c[k] * c[k + 1];
      }
    }
  }

  /** Every node is linked to its root by rows. */
  ghost predicate Sound(rows: set<set<string>>, p: Parents)
    requires WellFormed(p)
  {
    forall f {:trigger Root(p, f)} :: f in p ==> Linked(rows, f, Root(p, f))
  }

  /** All fingerprints of a row have one root. */
  ghost predicate RowJoined(p: Parents, r: set<string>)
    requires WellFormed(p)
  {
    r <= p.Keys && forall f, g :: f in r && g in r ==> Root(p, f) == Root(p, g)
  }

  lemma {:induction false} ChainOneRoot(rows: set<set<string>>, p: Parents, c: seq<set<string>>, f: string, g: string)
    requires WellFormed(p) && forall r :: r in rows ==> RowJoined(p, r)
    requires ChainFrom(rows, c, f, g)
    ensures f in p && g in p && Root(p, f) == Root(p, g)
    decreases |c|
  {
    assert c[0] in rows;
    if |c| > 1 {
      assert c[0] * c[1] != {};
      var h :| h in c[0] * c[1];
      assert ChainFrom(rows, c[1..], h, g) by {
        forall i | 0 <= i < |c[1..]| - 1
          ensures c[1..][i] * c[1..][i + 1] != {}
        {
          assert c[i + 1] * c[i + 2] != {};
        }
      }
      ChainOneRoot(rows, p, c[1..], h, g);
    }
  }

  /** `rep` maps each fingerprint of the rows to the least fingerprint of its linked class. */
  ghost predicate Partition(rows: set<set<string>>, rep: map<string, string>) {
    && (forall r, f :: r in rows && f in r ==> f in rep)
    && (forall f {:trigger rep[f]} :: f in rep ==> rep[f] in rep && Linked(rows, f, rep[f]) && rep[rep[f]] == rep[f])
    && (forall f, g {:trigger Linked(rows, f, g)} :: f in rep && g in rep ==> (rep[f] == rep[g] <==> Linked(rows, f, g)))
    && (forall f, g {:trigger Less(g, rep[f])} :: f in rep && g in rep && Linked(rows, f, g) ==> !Less(g, rep[f]))
  }

  lemma {:induction false} LinkedEnds(rows: set<set<string>>, rep: map<string, string>, f: string, g: string)
    requires Partition(rows, rep) && Linked(rows, f, g)
    ensures f in rep && g in rep
  {
    var c :| ChainFrom(rows, c, f, g);
    assert c[0] in rows && c[|c| - 1] in rows;
  }

  /** The rows alone determine the partition: no order of processing is involved. */
  lemma {:induction false} PartitionUnique(rows: set<set<string>>, rep: map<string, string>, rep': map<string, string>)
    requires Partition(rows, rep) && Partition(rows, rep')
    ensures rep == rep'
  {
    forall f | f in rep
      ensures f in rep' && rep[f] == rep'[f]
    {
      LinkedEnds(rows, rep', f, rep[f]);
      LinkedEnds(rows, rep, f, rep'[f]);
      LessTotal(rep[f], rep'[f]);
    }
    forall f | f in rep'
      ensures f in rep
    {
      LinkedEnds(rows, rep, f, rep'[f]);
    }
  }

  ghost function Roots(p: Parents): (rep: map<string, string>)
    requires WellFormed(p)
  {
    map f | f in p :: Root(p, f)
  }

  lemma {:induction false} OneRootIffLinked(rows: set<set<string>>, p: Parents, f: string, g: string)
    requires WellFormed(p) && Sound(rows, p) && forall r :: r in rows ==> RowJoined(p, r)
    requires f in p && g in p
    ensures Root(p, f) == Root(p, g) <==> Linked(rows, f, g)
    ensures Linked(rows, f, g) ==> !Less(g, Root(p, f))
  {
    if Root(p, f) == Root(p, g) {
      LinkedSymmetric(rows, g, Root(p, g));
      LinkedTransitive(rows, f, Root(p, f), g);
    }
    if Linked(rows, f, g) {
      var c :| ChainFrom(rows, c, f, g);
      ChainOneRoot(rows, p, c, f, g);
      RootIsLeast(p, g);
      if Less(g, Root(p, g)) {
        LessIrreflexive(g);
        LessAsymmetric(g, Root(p, g));
      }
    }
  }

  /** A sound forest in which every row is joined is the partition into linked classes. */
  lemma {:induction false} JoinedForestIsPartition(rows: set<set<string>>, p: Parents)
    requires WellFormed(p) && Sound(rows, p) && forall r :: r in rows ==> RowJoined(p, r)
    ensures Partition(rows, Roots(p))
  {
    forall f, g | f in p && g in p
      ensures Root(p, f) == Root(p, g) <==> Linked(rows, f, g)
      ensures Linked(rows, f, g) ==> !Less(g, Root(p, f))
    {
      OneRootIffLinked(rows, p, f, g);
    }
    assert forall r :: r in rows ==> r <= p.Keys;
  }

  function FpSet(fp: seq<string>): set<string> {
    set f | f in fp
  }

  /** The `parent` map with its two closures. */
  class Forest {
    var parent: Parents

    ghost predicate Valid()
      reads this
    {
      WellFormed(parent)
    }

    constructor ()
      ensures Valid() && parent == map[]
    {
      parent := map[];
    }

    /** `find`: walks to the root, halving the path. */
    method Find(start: string) returns (x: string)
      requires Valid() && start in parent
      modifies this
      ensures Valid() && SameRoots(old(parent), parent)
      ensures x == Root(parent, start) && x in parent && parent[x] == x
    {
      x := start;
      while parent[x] != x
        invariant Valid() && SameRoots(old(parent), parent)
        invariant x in parent && Root(parent, x) == Root(old(parent), start)
        decreases Below(old(parent.Keys), x)
      {
        HalvingKeepsRoots(parent, x);
        parent := parent[x := parent[parent[x]]];
        BelowShrinks(parent, x);
        x := parent[x];
      }
    }

    /** `union`: merges two classes under the smaller of their roots. */
    method Union(a: string, b: string)
      requires Valid() && a in parent && b in parent
      modifies this
      ensures Valid() && parent.Keys == old(parent.Keys)
      ensures forall y :: y in parent ==>
                            Root(parent, y) == Merged(old(Root(parent, y)), old(Root(parent, a)), old(Root(parent, b)))
    {
      var ra := Find(a);
      var rb := Find(b);
      if ra == rb {
        return;
      }
      if Less(rb, ra) {
        ra, rb := rb, ra;
        LessAsymmetric(ra, rb);
      }
      LessTotal(ra, rb);
      LinkRoots(parent, ra, rb);
      parent := parent[rb := ra];
    }
  }
}
