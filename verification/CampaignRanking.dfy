/** The last third of `Cluster`: turning the classes into campaigns, ranking and
    cutting the list, and the independence of the result from every order the
    program does not control. */
module CampaignRanking {
  import opened Ordering
  import opened FingerprintForest
  import opened Campaigns

  /** `k` has the highest count, the smallest such key on a tie. */
  ghost predicate IsTop(m: multiset<string>, k: string) {
    k in m && forall j :: j in m ==> m[j] < m[k] || (m[j] == m[k] && !Less(j, k))
  }

  lemma {:induction false} TopUnique(m: multiset<string>, k: string, l: string)
    requires IsTop(m, k) && IsTop(m, l)
    ensures k == l
  {
    LessTotal(k, l);
  }

  /** `topKey`, for every iteration order of the map. */
  method TopKey(m: multiset<string>) returns (best: string)
    ensures m == multiset{} ==> best == ""
    ensures m != multiset{} ==> IsTop(m, best)
  {
    var n: int := -1;
    best := "";
    var rest := set k | k in m;
    assert m != multiset{} ==> exists k :: k in m;
    while rest != {}
      invariant forall k :: k in rest ==> k in m
      invariant n == -1 ==> best == "" && forall k :: k in m ==> k in rest
      invariant n >= 0 ==> best in m && n == m[best]
      invariant n == -1 || n >= 0
      invariant n >= 0 ==> forall j :: j in m && j !in rest ==> m[j] < n || (m[j] == n && !Less(j, best))
    {
      var k :| k in rest;
      var v := m[k];
      if v > n || (v == n && Less(k, best)) {
        forall j | n >= 0 && j in m && j !in rest && m[j] == v
          ensures !Less(j, k)
        {
          if Less(j, k) && v == n {
            LessTransitive(j, k, best);
          }
        }
        LessIrreflexive(k);
        best, n := k, v;
      }
      rest := rest - {k};
    }
  }

  predicate IntBefore(a: int, b: int) {
    a < b
  }

  /** The comparison given to `sort.Slice`. */
  predicate RanksBefore(c: Campaign, d: Campaign) {
    if c.ipCount != d.ipCount then c.ipCount > d.ipCount
    else if c.events != d.events then c.events > d.events
    else Less(c.id, d.id)
  }

  lemma {:induction false} RankingIsWeakOrder()
    ensures WeakOrder(RanksBefore)
  {
    LessWeakOrder();
    forall x, y, z | !RanksBefore(y, x) && !RanksBefore(z, y)
      ensures !RanksBefore(z, x)
    {
      assert !Less(y.id, x.id) && !Less(z.id, y.id) ==> !Less(z.id, x.id);
    }
  }

  ghost predicate IpList(ips: set<string>, out: seq<string>) {
    exists full :: Lists(Less, ips, full) && out == Shorten(full)
  }

  function Shorten(full: seq<string>): (r: seq<string>)
    ensures |r| <= MAX_CAMPAIGN_IPS && r <= full
  {
    if |full| > MAX_CAMPAIGN_IPS then full[..MAX_CAMPAIGN_IPS] else full
  }

  /** `c` is what the loop over the groups builds for the class of `root`. */
  ghost predicate IsCampaign(id: string -> string, root: string, g: Agg, c: Campaign) {
    && c.id == id(root) && IsTop(g.sum.fps, c.name)
    && c.ipCount == |g.sum.ips| && c.events == g.sum.events
    && Lists(IntBefore, g.sum.ports, c.ports) && Lists(Less, g.sum.ccs, c.countries) && Lists(Less, g.sum.tags, c.tags)
    && IpList(g.sum.ips, c.ips)
    && c.first == g.first && c.last == g.sum.last
  }

  /** A class has one campaign, whatever order its maps were read in. */
  lemma {:induction false} CampaignUnique(id: string -> string, root: string, g: Agg, c: Campaign, d: Campaign)
    requires IsCampaign(id, root, g, c) && IsCampaign(id, root, g, d)
    ensures c == d
  {
    TopUnique(g.sum.fps, c.name, d.name);
    ListsUnique(IntBefore, g.sum.ports, c.ports, d.ports);
    StringsTieFree(c.countries);
    ListsUnique(Less, g.sum.ccs, c.countries, d.countries);
    StringsTieFree(c.tags);
    ListsUnique(Less, g.sum.tags, c.tags, d.tags);
    var full :| Lists(Less, g.sum.ips, full) && c.ips == Shorten(full);
    var full' :| Lists(Less, g.sum.ips, full') && d.ips == Shorten(full');
    StringsTieFree(full);
    ListsUnique(Less, g.sum.ips, full, full');
  }

  /** The class of `root` has rows, seen from at least `minIPs` addresses. */
  ghost predicate Qualifies(rep: map<string, string>, rows: seq<Bare>, minIPs: int, root: string) {
    && ClassRows(rep, root, rows) != []
    && |Total(ClassRows(rep, root, rows)).ips| >= minIPs
  }

  /** `c` is the campaign of some qualifying class. */
  ghost predicate IsReported(
    rep: map<string, string>, rows: seq<Bare>, minIPs: int, id: string -> string, c: Campaign) {
    exists root :: Qualifies(rep, rows, minIPs, root) && IsCampaign(id, root, Summary(ClassRows(rep, root, rows)), c)
  }

  /** `full` lists the campaigns of the qualifying classes, each once, best first. */
  ghost predicate Ranking(rows: seq<Row>, minIPs: int, id: string -> string, full: seq<Campaign>) {
    && SortedBy(RanksBefore, full) && Distinct(full)
    && exists rep :: Partition(Edges(rows), rep) && forall c :: c in full <==> IsReported(rep, StripAll(rows), minIPs, id, c)
  }

  function Cut<T>(full: seq<T>, limit: int): (r: seq<T>)
    ensures r <= full && (limit > 0 ==> |r| <= limit) && (limit <= 0 ==> r == full)
  {
    if limit > 0 && |full| > limit then full[..limit] else full
  }

  /** The outputs allowed for `Cluster`. */
  ghost predicate IsClustering(rows: seq<Row>, minIPs: int, limit: int, id: string -> string, out: seq<Campaign>) {
    exists full :: Ranking(rows, minIPs, id, full) && out == Cut(full, limit)
  }

  method BuildCampaign(id: string -> string, root: string, g: Agg) returns (c: Campaign)
    requires g.sum.fps != multiset{}
    ensures IsCampaign(id, root, g, c)
  {
    LessWeakOrder();
    var name := TopKey(g.sum.fps);
    var ports := SortedKeys(IntBefore, g.sum.ports);
    var countries := SortedKeys(Less, g.sum.ccs);
    var tags := SortedKeys(Less, g.sum.tags);
    var ips := SortedKeys(Less, g.sum.ips);
    c := Campaign(id(root), name, Shorten(ips), |g.sum.ips|, g.sum.events, ports, countries, tags, g.first, g.sum.last);
  }

  /** Every fingerprint counted in a class belongs to it, and some is counted. */
  lemma {:induction false} ClassCounts(
    edges: set<set<string>>, rep: map<string, string>, root: string, rows: seq<Bare>, f: string)
    requires Partition(edges, rep) && forall r :: r in rows ==> (set k | k in r.fp) in edges
    ensures f in Total(ClassRows(rep, root, rows)).fps ==> f in rep && rep[f] == root
    ensures ClassRows(rep, root, rows) != [] ==> Total(ClassRows(rep, root, rows)).fps != multiset{}
  {
    if rows != [] {
      var init, r := rows[..|rows| - 1], rows[|rows| - 1];
      assert forall x :: x in init ==> x in rows;
      ClassCounts(edges, rep, root, init, f);
      if InClass(rep, root, r) {
        TotalSnoc(ClassRows(rep, root, init), r);
        var g :| g in r.fp && g in rep && rep[g] == root;
        assert g in One(r).fps;
        var e := set k | k in r.fp;
        assert r in rows && e in edges;
        if f in r.fp {
          assert f in e && g in e;
          LinkedInRow(edges, e, f, g);
        }
      }
    }
  }

  lemma {:induction false} EdgesCoverBare(rows: seq<Row>)
    ensures forall r :: r in StripAll(rows) ==> (set k | k in r.fp) in Edges(rows)
  {
    forall r | r in StripAll(rows)
      ensures (set k | k in r.fp) in Edges(rows)
    {
      assert r in multiset(StripAll(rows));
      EdgesOfBare(rows, set k | k in r.fp);
    }
  }

  /** Campaigns of different classes differ: their labels lie in different classes. */
  lemma {:induction false} CampaignsApart(
    rows: seq<Row>, rep: map<string, string>, id: string -> string, a: string, b: string, c: Campaign)
    requires Partition(Edges(rows), rep)
    requires IsCampaign(id, a, Summary(ClassRows(rep, a, StripAll(rows))), c)
    requires IsCampaign(id, b, Summary(ClassRows(rep, b, StripAll(rows))), c)
    ensures a == b
  {
    EdgesCoverBare(rows);
    ClassCounts(Edges(rows), rep, a, StripAll(rows), c.name);
    ClassCounts(Edges(rows), rep, b, StripAll(rows), c.name);
  }

  /** `c` is the campaign of a qualifying class among `roots`. */
  ghost predicate Among(
    roots: set<string>, rep: map<string, string>, rows: seq<Bare>, minIPs: int, id: string -> string,
    c: Campaign) {
    exists root :: root in roots && Qualifies(rep, rows, minIPs, root) && IsCampaign(id, root, Summary(ClassRows(rep, root, rows)), c)
  }

  lemma {:induction false} AmongOneMore(rows: seq<Row>, rep: map<string, string>, minIPs: int, id: string -> string,
                     done: set<string>, root: string, c: Campaign, d: Campaign)
    requires Partition(Edges(rows), rep) && root !in done && Qualifies(rep, StripAll(rows), minIPs, root)
    requires IsCampaign(id, root, Summary(ClassRows(rep, root, StripAll(rows))), c)
    ensures Among(done + {root}, rep, StripAll(rows), minIPs, id, d) <==> d == c || Among(done, rep, StripAll(rows), minIPs, id, d)
    ensures !Among(done, rep, StripAll(rows), minIPs, id, c)
  {
    if IsCampaign(id, root, Summary(ClassRows(rep, root, StripAll(rows))), d) {
      CampaignUnique(id, root, Summary(ClassRows(rep, root, StripAll(rows))), c, d);
    }
    if Among(done, rep, StripAll(rows), minIPs, id, c) {
      var other :| other in done && IsCampaign(id, other, Summary(ClassRows(rep, other, StripAll(rows))), c);
      CampaignsApart(rows, rep, id, root, other, c);
    }
  }

  lemma {:induction false} AmongSkip(
    rep: map<string, string>, rows: seq<Bare>, minIPs: int, id: string -> string, done: set<string>,
    root: string, d: Campaign)
    requires !Qualifies(rep, rows, minIPs, root)
    ensures Among(done + {root}, rep, rows, minIPs, id, d) <==> Among(done, rep, rows, minIPs, id, d)
  {
  }

  /** `list` holds the campaigns of the qualifying classes among `done`, each once. */
  ghost predicate Collected(
    list: seq<Campaign>, done: set<string>, rep: map<string, string>, rows: seq<Bare>, minIPs: int,
    id: string -> string) {
    Distinct(list) && forall c :: c in list <==> Among(done, rep, rows, minIPs, id, c)
  }

  lemma {:induction false} CollectOne(rows: seq<Row>, rep: map<string, string>, minIPs: int, id: string -> string,
                   done: set<string>, list: seq<Campaign>, root: string, c: Campaign)
    requires Partition(Edges(rows), rep) && root !in done && Qualifies(rep, StripAll(rows), minIPs, root)
    requires IsCampaign(id, root, Summary(ClassRows(rep, root, StripAll(rows))), c)
    requires Collected(list, done, rep, StripAll(rows), minIPs, id)
    ensures Collected(list + [c], done + {root}, rep, StripAll(rows), minIPs, id)
  {
    forall d
      ensures d in list + [c] <==> Among(done + {root}, rep, StripAll(rows), minIPs, id, d)
    {
      AmongOneMore(rows, rep, minIPs, id, done, root, c, d);
    }
    AmongOneMore(rows, rep, minIPs, id, done, root, c, c);
    assert c !in list;
  }

  lemma {:induction false} CollectSkip(rep: map<string, string>, rows: seq<Bare>, minIPs: int, id: string -> string,
                    done: set<string>, list: seq<Campaign>, root: string)
    requires !Qualifies(rep, rows, minIPs, root) && Collected(list, done, rep, rows, minIPs, id)
    ensures Collected(list, done + {root}, rep, rows, minIPs, id)
  {
    forall d
      ensures d in list <==> Among(done + {root}, rep, rows, minIPs, id, d)
    {
      AmongSkip(rep, rows, minIPs, id, done, root, d);
    }
  }

  lemma {:induction false} GroupHasCounts(
    rows: seq<Row>, groups: map<string, Agg>, rep: map<string, string>, root: string)
    requires Partition(Edges(rows), rep) && GroupsOf(groups, rep, StripAll(rows)) && root in groups
    ensures ClassRows(rep, root, StripAll(rows)) != [] && groups[root] == Summary(ClassRows(rep, root, StripAll(rows)))
    ensures groups[root].sum.fps != multiset{}
  {
    assert ClassRows(rep, root, StripAll(rows)) != [];
    EdgesCoverBare(rows);
    ClassCounts(Edges(rows), rep, root, StripAll(rows), "");
  }

  /** One pass of the loop over the groups. */
  method CollectGroup(
    rows: seq<Row>, groups: map<string, Agg>, ghost rep: map<string, string>, minIPs: int, id: string -> string,
    ghost done: set<string>, list: seq<Campaign>, root: string)
    returns (longer: seq<Campaign>)
    requires Partition(Edges(rows), rep) && GroupsOf(groups, rep, StripAll(rows)) && root in groups && root !in done
    requires Collected(list, done, rep, StripAll(rows), minIPs, id)
    ensures Collected(longer, done + {root}, rep, StripAll(rows), minIPs, id)
  {
    longer := list;
    GroupHasCounts(rows, groups, rep, root);
    if |groups[root].sum.ips| >= minIPs {
      var c := BuildCampaign(id, root, groups[root]);
      CollectOne(rows, rep, minIPs, id, done, list, root, c);
      longer := list + [c];
    } else {
      CollectSkip(rep, StripAll(rows), minIPs, id, done, list, root);
    }
  }

  /** The loop over the groups, in any order. */
  method ListCampaigns(
    rows: seq<Row>, groups: map<string, Agg>, ghost rep: map<string, string>, minIPs: int, id: string -> string)
    returns (list: seq<Campaign>)
    requires Partition(Edges(rows), rep) && GroupsOf(groups, rep, StripAll(rows))
    ensures Collected(list, groups.Keys, rep, StripAll(rows), minIPs, id)
  {
    list := [];
    var rest := groups.Keys;
    ghost var done: set<string> := {};
    while rest != {}
      invariant rest <= groups.Keys && done == groups.Keys - rest
      invariant Collected(list, done, rep, StripAll(rows), minIPs, id)
    {
      var root :| root in rest;
      list := CollectGroup(rows, groups, rep, minIPs, id, done, list, root);
      rest, done := rest - {root}, done + {root};
    }
    assert done == groups.Keys;
  }

  lemma {:induction false} SortedListIsRanking(
    rows: seq<Row>, groups: map<string, Agg>, rep: map<string, string>, minIPs: int, id: string -> string,
    list: seq<Campaign>, full: seq<Campaign>)
    requires Partition(Edges(rows), rep) && GroupsOf(groups, rep, StripAll(rows))
    requires Collected(list, groups.Keys, rep, StripAll(rows), minIPs, id)
    requires multiset(full) == multiset(list) && SortedBy(RanksBefore, full)
    ensures Ranking(rows, minIPs, id, full)
  {
    forall c
      ensures c in full <==> IsReported(rep, StripAll(rows), minIPs, id, c)
      ensures c in full ==> multiset(full)[c] == 1
    {
      assert c in full <==> c in multiset(full);
      DistinctBag(list, c);
      if root :| Qualifies(rep, StripAll(rows), minIPs, root) && IsCampaign(id, root, Summary(ClassRows(rep, root, StripAll(rows))), c) {
        assert root in groups;
      }
    }
    BagDistinct(full);
  }

  /** `Cluster`. The hash that names campaigns is a parameter. The rows determine the result exactly when no
      campaign ranked inside the cut ties with another. */
  method Cluster(rows: seq<Row>, minIPs: int, limit: int, id: string -> string) returns (out: seq<Campaign>)
    ensures IsClustering(rows, minIPs, limit, id, out)
    ensures (forall other :: IsClustering(rows, minIPs, limit, id, other) ==> other == out) <==> !TieInCut(rows, minIPs, limit, id)
  {
    var forest := JoinRows(rows);
    var groups := Aggregate(rows, forest);
    ghost var rep := Roots(forest.parent);
    var list := ListCampaigns(rows, groups, rep, minIPs, id);
    RankingIsWeakOrder();
    out := SortBy(RanksBefore, list);
    SortedListIsRanking(rows, groups, rep, minIPs, id, list, out);
    ghost var full := out;
    if limit > 0 && |out| > limit {
      out := out[..limit];
    }
    assert out == Cut(full, limit);
    ClusterDeterminedIff(rows, minIPs, limit, id, full);
  }

  /** No qualifying class mixes a zero least time with later ones. */
  ghost predicate TimesUsable(rep: map<string, string>, rows: seq<Bare>, minIPs: int) {
    forall root :: Qualifies(rep, rows, minIPs, root) ==> !ZeroHidesLater(Times(ClassRows(rep, root, rows)))
  }

  /** All but first-seen of a class is the same for every order. */
  lemma {:induction false} WeightOfBag(rep: map<string, string>, root: string, rows: seq<Bare>, other: seq<Bare>)
    requires multiset(rows) == multiset(other)
    ensures Total(ClassRows(rep, root, rows)) == Total(ClassRows(rep, root, other))
    ensures ClassRows(rep, root, rows) == [] <==> ClassRows(rep, root, other) == []
  {
    ClassOfBag(rep, root, rows, other);
    TotalOfBag(ClassRows(rep, root, rows), ClassRows(rep, root, other));
    var a, b := ClassRows(rep, root, rows), ClassRows(rep, root, other);
    assert |multiset(a)| == |a| && |multiset(b)| == |b|;
  }

  /** Reordering rows, fingerprints or tags changes no campaign. */
  lemma {:induction false} ReportedOrderFree(
    rows: seq<Row>, other: seq<Row>, rep: map<string, string>, minIPs: int, id: string -> string, c: Campaign)
    requires SamePopulation(rows, other) && TimesUsable(rep, StripAll(rows), minIPs)
    ensures IsReported(rep, StripAll(rows), minIPs, id, c) <==> IsReported(rep, StripAll(other), minIPs, id, c)
  {
    forall root
      ensures Qualifies(rep, StripAll(rows), minIPs, root) <==> Qualifies(rep, StripAll(other), minIPs, root)
      ensures Qualifies(rep, StripAll(rows), minIPs, root) ==>
                Summary(ClassRows(rep, root, StripAll(rows))) == Summary(ClassRows(rep, root, StripAll(other)))
    {
      WeightOfBag(rep, root, StripAll(rows), StripAll(other));
      if Qualifies(rep, StripAll(rows), minIPs, root) {
        SummaryOfBag(rep, root, StripAll(rows), StripAll(other));
      }
    }
  }

  /** A campaign belongs to one class, whatever the order of the rows. */
  lemma {:induction false} CampaignKeepsClass(
    rows: seq<Row>, other: seq<Row>, rep: map<string, string>, id: string -> string, a: string, b: string,
    c: Campaign)
    requires SamePopulation(rows, other) && Partition(Edges(rows), rep)
    requires IsCampaign(id, a, Summary(ClassRows(rep, a, StripAll(rows))), c)
    requires IsCampaign(id, b, Summary(ClassRows(rep, b, StripAll(other))), c)
    ensures a == b
  {
    SameEdges(rows, other);
    EdgesCoverBare(rows);
    EdgesCoverBare(other);
    ClassCounts(Edges(rows), rep, a, StripAll(rows), c.name);
    ClassCounts(Edges(rows), rep, b, StripAll(other), c.name);
  }

  /** The rows with the `i`-th moved to the end. */
  lemma {:induction false} MovedRows(
    rows: seq<Row>, rep: map<string, string>, root: string, i: nat) returns (other: seq<Row>)
    requires i < |rows| && InClass(rep, root, StripAll(rows)[i])
    requires forall t :: t in Times(ClassRows(rep, root, StripAll(rows))) ==> t >= 0
    ensures SamePopulation(rows, other)
    ensures FirstSeen(Times(ClassRows(rep, root, StripAll(other)))) == 0 <==> rows[i].time == 0
  {
    var bare := StripAll(rows);
    other := rows[..i] + rows[i + 1..] + [rows[i]];
    var moved := MovedRow(rep, root, bare, i);
    StripMoved(rows, i);
  }

  lemma {:induction false} StripMoved(rows: seq<Row>, i: nat)
    requires i < |rows|
    ensures var bare := StripAll(rows); StripAll(rows[..i] + rows[i + 1..] + [rows[i]]) == bare[..i] + bare[i + 1..] + [bare[i]]
  {
    var bare, n := StripAll(rows), |rows| - 1;
    var a, b := StripAll(rows[..i] + rows[i + 1..] + [rows[i]]), bare[..i] + bare[i + 1..] + [bare[i]];
    forall k | 0 <= k < |a|
      ensures a[k] == b[k]
    {
      assert k < i ==> a[k] == Strip(rows[k]) && b[k] == bare[k];
      assert i <= k < n ==> a[k] == Strip(rows[k + 1]) && b[k] == bare[k + 1];
    }
  }

  /** A class whose zero time hides a later one is summarised differently in some order. */
  lemma {:induction false} SummaryVaries(
    rows: seq<Row>, rep: map<string, string>, root: string) returns (other: seq<Row>)
    requires ZeroHidesLater(Times(ClassRows(rep, root, StripAll(rows))))
    ensures SamePopulation(rows, other)
    ensures FirstSeen(Times(ClassRows(rep, root, StripAll(other)))) != FirstSeen(Times(ClassRows(rep, root, StripAll(rows))))
  {
    var times := Times(ClassRows(rep, root, StripAll(rows)));
    var t :| t in times && t > 0;
    var i := ClassMember(rep, root, StripAll(rows), 0);
    var j := ClassMember(rep, root, StripAll(rows), t);
    var a := MovedRows(rows, rep, root, i);
    var b := MovedRows(rows, rep, root, j);
    other := if FirstSeen(times) == 0 then b else a;
  }

  /** The campaigns reported are the same for every order. */
  ghost predicate OrderFree(rows: seq<Row>, rep: map<string, string>, minIPs: int, id: string -> string) {
    forall other, c :: SamePopulation(rows, other) ==>
                         (IsReported(rep, StripAll(rows), minIPs, id, c) <==> IsReported(rep, StripAll(other), minIPs, id, c))
  }

  lemma {:induction false} UnusableVaries(
    rows: seq<Row>, rep: map<string, string>, minIPs: int, id: string -> string, root: string)
    requires Partition(Edges(rows), rep) && Qualifies(rep, StripAll(rows), minIPs, root)
    requires ZeroHidesLater(Times(ClassRows(rep, root, StripAll(rows))))
    ensures !OrderFree(rows, rep, minIPs, id)
  {
    var other := SummaryVaries(rows, rep, root);
    var c := ClassHasCampaign(rows, rep, id, root);
    assert IsReported(rep, StripAll(rows), minIPs, id, c);
    if IsReported(rep, StripAll(other), minIPs, id, c) {
      var q :| Qualifies(rep, StripAll(other), minIPs, q) && IsCampaign(id, q, Summary(ClassRows(rep, q, StripAll(other))), c);
      CampaignKeepsClass(rows, other, rep, id, root, q, c);
    }
  }

  /** The set of campaigns is the same for every order of rows, fingerprints and tags exactly when no
      qualifying class has zero as its least time and a later one. */
  lemma {:induction false} ReportedOrderFreeIff(
    rows: seq<Row>, rep: map<string, string>, minIPs: int, id: string -> string)
    requires Partition(Edges(rows), rep)
    ensures OrderFree(rows, rep, minIPs, id) <==> TimesUsable(rep, StripAll(rows), minIPs)
  {
    if TimesUsable(rep, StripAll(rows), minIPs) {
      forall other, c | SamePopulation(rows, other)
        ensures IsReported(rep, StripAll(rows), minIPs, id, c) <==> IsReported(rep, StripAll(other), minIPs, id, c)
      {
        ReportedOrderFree(rows, other, rep, minIPs, id, c);
      }
    } else {
      var root :| Qualifies(rep, StripAll(rows), minIPs, root) && ZeroHidesLater(Times(ClassRows(rep, root, StripAll(rows))));
      UnusableVaries(rows, rep, minIPs, id, root);
    }
  }

  lemma {:induction false} RankingsAgree(
    rows: seq<Row>, minIPs: int, id: string -> string, full: seq<Campaign>, other: seq<Campaign>)
    requires Ranking(rows, minIPs, id, full) && Ranking(rows, minIPs, id, other)
    ensures multiset(full) == multiset(other)
  {
    var rep :| Partition(Edges(rows), rep) && forall c :: c in full <==> IsReported(rep, StripAll(rows), minIPs, id, c);
    var rep' :| Partition(Edges(rows), rep') && forall c :: c in other <==> IsReported(rep', StripAll(rows), minIPs, id, c);
    PartitionUnique(Edges(rows), rep, rep');
    DistinctSameBag(full, other);
  }

  lemma {:induction false} RearrangedRanking(
    rows: seq<Row>, minIPs: int, id: string -> string, full: seq<Campaign>, other: seq<Campaign>)
    requires Ranking(rows, minIPs, id, full) && multiset(other) == multiset(full) && SortedBy(RanksBefore, other)
    ensures Ranking(rows, minIPs, id, other)
  {
    forall c
      ensures c in other <==> c in full
      ensures c in other ==> multiset(other)[c] == 1
    {
      assert c in other <==> c in multiset(other);
      DistinctBag(full, c);
    }
    BagDistinct(other);
  }

  // ---- When the result is determined ----

  /** Addresses and events of a class. */
  ghost function Weight(rep: map<string, string>, rows: seq<Bare>, root: string): Totals {
    Total(ClassRows(rep, root, rows))
  }

  predicate Outranks(a: Totals, x: string, b: Totals, y: string) {
    if |a.ips| != |b.ips| then |a.ips| > |b.ips| else if a.events != b.events then a.events > b.events else Less(x, y)
  }

  /** The class of `r` is ranked before that of `q`. */
  ghost predicate ClassBefore(rep: map<string, string>, rows: seq<Bare>, id: string -> string, r: string, q: string) {
    Outranks(Weight(rep, rows, r), id(r), Weight(rep, rows, q), id(q))
  }

  /** Two classes have the same number of addresses and of events and the same id. */
  ghost predicate ClassesTie(rep: map<string, string>, rows: seq<Bare>, id: string -> string, r: string, q: string) {
    var a, b := Weight(rep, rows, r), Weight(rep, rows, q);
    |a.ips| == |b.ips| && a.events == b.events && id(r) == id(q)
  }

  /** The qualifying classes ranked before that of `r`. */
  ghost function ClassesBefore(
    rep: map<string, string>, rows: seq<Bare>, minIPs: int, id: string -> string, r: string): set<string> {
    set q | q in rep.Values && Qualifies(rep, rows, minIPs, q) && ClassBefore(rep, rows, id, q, r)
  }

  ghost predicate TieOf(
    rep: map<string, string>, rows: seq<Bare>, minIPs: int, limit: int, id: string -> string, r: string,
    q: string) {
    && r != q && Qualifies(rep, rows, minIPs, r) && Qualifies(rep, rows, minIPs, q) && ClassesTie(rep, rows, id, r, q)
    && (limit <= 0 || |ClassesBefore(rep, rows, minIPs, id, r)| < limit)
  }

  /** Two qualifying classes tie, with fewer than `limit` classes ranked before them. */
  ghost predicate TieInCut(rows: seq<Row>, minIPs: int, limit: int, id: string -> string) {
    exists rep, r, q :: Partition(Edges(rows), rep) && TieOf(rep, StripAll(rows), minIPs, limit, id, r, q)
  }

  /** `c` is the campaign of the class of `root`. */
  ghost predicate CampaignOf(
    rep: map<string, string>, rows: seq<Bare>, id: string -> string, root: string, c: Campaign) {
    IsCampaign(id, root, Summary(ClassRows(rep, root, rows)), c)
  }

  ghost predicate ListsReported(
    rep: map<string, string>, rows: seq<Bare>, minIPs: int, id: string -> string, full: seq<Campaign>) {
    forall c :: c in full <==> IsReported(rep, rows, minIPs, id, c)
  }

  lemma {:induction false} TopExists(m: multiset<string>, keys: set<string>) returns (k: string)
    requires keys != {} && forall j :: j in keys ==> j in m
    ensures k in keys && forall j :: j in keys ==> m[j] < m[k] || (m[j] == m[k] && !Less(j, k))
    decreases |keys|
  {
    k :| k in keys;
    LessIrreflexive(k);
    if keys != {k} {
      var best := TopExists(m, keys - {k});
      if m[best] > m[k] || (m[best] == m[k] && Less(best, k)) {
        LessAsymmetricIf(best, k);
        k := best;
      } else {
        forall j | j in keys
          ensures m[j] < m[k] || (m[j] == m[k] && !Less(j, k))
        {
          NotLessTransitive(k, best, j);
        }
      }
    }
  }

  lemma {:induction false} LessAsymmetricIf(a: string, b: string)
    ensures Less(a, b) ==> !Less(b, a)
  {
    if Less(a, b) {
      LessAsymmetric(a, b);
    }
  }

  /** `c` not before `b` and `b` not before `a` leave `c` not before `a`. */
  lemma {:induction false} NotLessTransitive(a: string, b: string, c: string)
    ensures !Less(b, a) && !Less(c, b) ==> !Less(c, a)
  {
    LessWeakOrder();
  }

  /** Every class with counts has a campaign. */
  lemma {:induction false} CampaignExists(id: string -> string, root: string, g: Agg) returns (c: Campaign)
    requires g.sum.fps != multiset{}
    ensures IsCampaign(id, root, g, c)
  {
    var keys := set k | k in g.sum.fps;
    var some :| some in g.sum.fps;
    assert some in keys;
    var name := TopExists(g.sum.fps, keys);
    LessWeakOrder();
    var ips := ListsExists(Less, g.sum.ips);
    var ports := ListsExists(IntBefore, g.sum.ports);
    var ccs := ListsExists(Less, g.sum.ccs);
    var tags := ListsExists(Less, g.sum.tags);
    c := Campaign(id(root), name, Shorten(ips), |g.sum.ips|, g.sum.events, ports, ccs, tags, g.first, g.sum.last);
  }

  lemma {:induction false} RootIsValue(rep: map<string, string>, rows: seq<Bare>, root: string)
    requires ClassRows(rep, root, rows) != []
    ensures root in rep.Values
  {
    var n := |rows| - 1;
    if !InClass(rep, root, rows[n]) {
      RootIsValue(rep, rows[..n], root);
    }
  }

  lemma {:induction false} ClassHasCampaign(
    rows: seq<Row>, rep: map<string, string>, id: string -> string, root: string) returns (c: Campaign)
    requires Partition(Edges(rows), rep) && ClassRows(rep, root, StripAll(rows)) != []
    ensures CampaignOf(rep, StripAll(rows), id, root, c)
  {
    EdgesCoverBare(rows);
    ClassCounts(Edges(rows), rep, root, StripAll(rows), "");
    c := CampaignExists(id, root, Summary(ClassRows(rep, root, StripAll(rows))));
  }

  /** Campaigns are ranked as their classes are. */
  lemma {:induction false} OrderMatches(
    rep: map<string, string>, rows: seq<Bare>, id: string -> string, r: string, q: string, c: Campaign,
    d: Campaign)
    requires CampaignOf(rep, rows, id, r, c) && CampaignOf(rep, rows, id, q, d)
    ensures RanksBefore(c, d) <==> ClassBefore(rep, rows, id, r, q)
    ensures !RanksBefore(c, d) && !RanksBefore(d, c) <==> ClassesTie(rep, rows, id, r, q)
  {
    LessTotal(c.id, d.id);
    LessIrreflexive(c.id);
  }

  lemma {:induction false} RankedFromClasses(
    rows: seq<Row>, rep: map<string, string>, minIPs: int, id: string -> string, full: seq<Campaign>, r: string,
    c: Campaign, q: string) returns (d: Campaign)
    requires Partition(Edges(rows), rep) && ListsReported(rep, StripAll(rows), minIPs, id, full)
    requires CampaignOf(rep, StripAll(rows), id, r, c) && q in ClassesBefore(rep, StripAll(rows), minIPs, id, r)
    ensures d in Earlier(RanksBefore, full, c) && CampaignOf(rep, StripAll(rows), id, q, d)
  {
    d := ClassHasCampaign(rows, rep, id, q);
    assert IsReported(rep, StripAll(rows), minIPs, id, d);
    OrderMatches(rep, StripAll(rows), id, q, r, d, c);
  }

  lemma {:induction false} ClassesFromRanked(
    rows: seq<Row>, rep: map<string, string>, minIPs: int, id: string -> string, full: seq<Campaign>, r: string,
    c: Campaign, d: Campaign) returns (q: string)
    requires ListsReported(rep, StripAll(rows), minIPs, id, full)
    requires CampaignOf(rep, StripAll(rows), id, r, c) && d in Earlier(RanksBefore, full, c)
    ensures q in ClassesBefore(rep, StripAll(rows), minIPs, id, r) && CampaignOf(rep, StripAll(rows), id, q, d)
  {
    assert IsReported(rep, StripAll(rows), minIPs, id, d);
    q :| Qualifies(rep, StripAll(rows), minIPs, q) && IsCampaign(id, q, Summary(ClassRows(rep, q, StripAll(rows))), d);
    RootIsValue(rep, StripAll(rows), q);
    OrderMatches(rep, StripAll(rows), id, q, r, d, c);
  }

  /** The pairing of classes with their campaigns. */
  ghost function Pairing(rep: map<string, string>, rows: seq<Bare>, id: string -> string): (string, Campaign) -> bool {
    (q: string, d: Campaign) => CampaignOf(rep, rows, id, q, d)
  }

  lemma {:induction false} PairingOneWay(
    rows: seq<Row>, rep: map<string, string>, id: string -> string, pair: (string, Campaign) -> bool)
    requires Partition(Edges(rows), rep) && pair == Pairing(rep, StripAll(rows), id)
    ensures forall q, d, e :: pair(q, d) && pair(q, e) ==> d == e
    ensures forall p, q, d :: pair(p, d) && pair(q, d) ==> p == q
  {
    var bare := StripAll(rows);
    forall q, d, e | pair(q, d) && pair(q, e)
      ensures d == e
    {
      CampaignUnique(id, q, Summary(ClassRows(rep, q, bare)), d, e);
    }
    forall p, q, d | pair(p, d) && pair(q, d)
      ensures p == q
    {
      CampaignsApart(rows, rep, id, p, q, d);
    }
  }

  lemma {:induction false} PairingTotal(rows: seq<Row>, rep: map<string, string>, minIPs: int, id: string -> string,
                                        full: seq<Campaign>, r: string, c: Campaign, pair: (string, Campaign) -> bool)
    requires Partition(Edges(rows), rep) && ListsReported(rep, StripAll(rows), minIPs, id, full)
    requires CampaignOf(rep, StripAll(rows), id, r, c) && pair == Pairing(rep, StripAll(rows), id)
    ensures forall q :: q in ClassesBefore(rep, StripAll(rows), minIPs, id, r) ==>
                          exists d :: d in Earlier(RanksBefore, full, c) && pair(q, d)
    ensures forall d :: d in Earlier(RanksBefore, full, c) ==>
                          exists q :: q in ClassesBefore(rep, StripAll(rows), minIPs, id, r) && pair(q, d)
  {
    forall q | q in ClassesBefore(rep, StripAll(rows), minIPs, id, r)
      ensures exists d :: d in Earlier(RanksBefore, full, c) && pair(q, d)
    {
      var d := RankedFromClasses(rows, rep, minIPs, id, full, r, c, q);
      assert pair(q, d);
    }
    forall d | d in Earlier(RanksBefore, full, c)
      ensures exists q :: q in ClassesBefore(rep, StripAll(rows), minIPs, id, r) && pair(q, d)
    {
      var q := ClassesFromRanked(rows, rep, minIPs, id, full, r, c, d);
      assert pair(q, d);
    }
  }

  /** As many campaigns as classes are ranked before one. */
  lemma {:induction false} RankMatches(rows: seq<Row>, rep: map<string, string>, minIPs: int, id: string -> string,
                                       full: seq<Campaign>, r: string, c: Campaign)
    requires Partition(Edges(rows), rep) && ListsReported(rep, StripAll(rows), minIPs, id, full)
    requires CampaignOf(rep, StripAll(rows), id, r, c)
    ensures |ClassesBefore(rep, StripAll(rows), minIPs, id, r)| == |Earlier(RanksBefore, full, c)|
  {
    var pair := Pairing(rep, StripAll(rows), id);
    PairingOneWay(rows, rep, id, pair);
    PairingTotal(rows, rep, minIPs, id, full, r, c, pair);
    SameSize(ClassesBefore(rep, StripAll(rows), minIPs, id, r), Earlier(RanksBefore, full, c), pair);
  }

  /** Tied neighbours at a place inside the cut. */
  predicate TiedInside(full: seq<Campaign>, limit: int) {
    exists k: nat :: k < |full| && TiedAt(RanksBefore, full, k) && (limit <= 0 || k < limit)
  }

  lemma {:induction false} TieShows(
    rows: seq<Row>, rep: map<string, string>, minIPs: int, limit: int, id: string -> string,
    full: seq<Campaign>, r: string, q: string)
    requires Partition(Edges(rows), rep) && ListsReported(rep, StripAll(rows), minIPs, id, full)
    requires SortedBy(RanksBefore, full) && Distinct(full) && TieOf(rep, StripAll(rows), minIPs, limit, id, r, q)
    ensures TiedInside(full, limit)
  {
    var c := ClassHasCampaign(rows, rep, id, r);
    var d := ClassHasCampaign(rows, rep, id, q);
    assert IsReported(rep, StripAll(rows), minIPs, id, c) && IsReported(rep, StripAll(rows), minIPs, id, d);
    OrderMatches(rep, StripAll(rows), id, r, q, c, d);
    if c == d {
      CampaignsApart(rows, rep, id, r, q, c);
    }
    RankingIsWeakOrder();
    TieHasPlace(RanksBefore, full, c, d);
    RankMatches(rows, rep, minIPs, id, full, r, c);
  }

  lemma {:induction false} TieHasClasses(
    rows: seq<Row>, rep: map<string, string>, minIPs: int, limit: int, id: string -> string,
    full: seq<Campaign>, k: nat) returns (r: string, q: string)
    requires Partition(Edges(rows), rep) && ListsReported(rep, StripAll(rows), minIPs, id, full)
    requires SortedBy(RanksBefore, full) && Distinct(full) && TiedAt(RanksBefore, full, k) && (limit <= 0 || k < limit)
    ensures TieOf(rep, StripAll(rows), minIPs, limit, id, r, q)
  {
    var c, d := full[k], full[k + 1];
    RankingIsWeakOrder();
    TiedNeighbours(RanksBefore, full, k);
    assert IsReported(rep, StripAll(rows), minIPs, id, c) && IsReported(rep, StripAll(rows), minIPs, id, d);
    r :| Qualifies(rep, StripAll(rows), minIPs, r) && IsCampaign(id, r, Summary(ClassRows(rep, r, StripAll(rows))), c);
    q :| Qualifies(rep, StripAll(rows), minIPs, q) && IsCampaign(id, q, Summary(ClassRows(rep, q, StripAll(rows))), d);
    OrderMatches(rep, StripAll(rows), id, r, q, c, d);
    if r == q {
      CampaignUnique(id, r, Summary(ClassRows(rep, r, StripAll(rows))), c, d);
    }
    RankMatches(rows, rep, minIPs, id, full, r, c);
  }

  lemma {:induction false} RankingTies(
    rows: seq<Row>, rep: map<string, string>, minIPs: int, limit: int, id: string -> string,
    full: seq<Campaign>)
    requires Partition(Edges(rows), rep) && ListsReported(rep, StripAll(rows), minIPs, id, full)
    requires SortedBy(RanksBefore, full) && Distinct(full) && TiedInside(full, limit)
    ensures TieInCut(rows, minIPs, limit, id)
  {
    var k: nat :| k < |full| && TiedAt(RanksBefore, full, k) && (limit <= 0 || k < limit);
    var r, q := TieHasClasses(rows, rep, minIPs, limit, id, full, k);
  }

  lemma {:induction false} ClassTies(
    rows: seq<Row>, rep: map<string, string>, minIPs: int, limit: int, id: string -> string,
    full: seq<Campaign>)
    requires Partition(Edges(rows), rep) && ListsReported(rep, StripAll(rows), minIPs, id, full)
    requires SortedBy(RanksBefore, full) && Distinct(full) && TieInCut(rows, minIPs, limit, id)
    ensures TiedInside(full, limit)
  {
    var rep', r, q :| Partition(Edges(rows), rep') && TieOf(rep', StripAll(rows), minIPs, limit, id, r, q);
    PartitionUnique(Edges(rows), rep, rep');
    TieShows(rows, rep, minIPs, limit, id, full, r, q);
  }

  /** Ties among the classes and ties in a ranking are the same. */
  lemma {:induction false} TieInCutIff(
    rows: seq<Row>, minIPs: int, limit: int, id: string -> string, full: seq<Campaign>)
    requires Ranking(rows, minIPs, id, full)
    ensures TieInCut(rows, minIPs, limit, id) <==> TiedInside(full, limit)
  {
    var rep :| Partition(Edges(rows), rep) && forall c :: c in full <==> IsReported(rep, StripAll(rows), minIPs, id, c);
    assert ListsReported(rep, StripAll(rows), minIPs, id, full);
    if TieInCut(rows, minIPs, limit, id) {
      ClassTies(rows, rep, minIPs, limit, id, full);
    }
    if TiedInside(full, limit) {
      RankingTies(rows, rep, minIPs, limit, id, full);
    }
  }

  lemma {:induction false} CutsAgree(full: seq<Campaign>, other: seq<Campaign>, limit: int)
    requires SortedBy(RanksBefore, full) && SortedBy(RanksBefore, other) && multiset(full) == multiset(other) && !TiedInside(full, limit)
    ensures Cut(full, limit) == Cut(other, limit)
  {
    var n := |Cut(full, limit)|;
    forall k | 0 <= k < n
      ensures !TiedAt(RanksBefore, full, k)
    {
    }
    RankingIsWeakOrder();
    SortedPrefixUnique(RanksBefore, full, other, n);
    assert full[..|full|] == full && other[..|other|] == other;
  }

  lemma {:induction false} CutsDiffer(
    rows: seq<Row>, minIPs: int, limit: int, id: string -> string, full: seq<Campaign>)
    requires Ranking(rows, minIPs, id, full) && TiedInside(full, limit)
    ensures exists other :: IsClustering(rows, minIPs, limit, id, other) && other != Cut(full, limit)
  {
    var k: nat :| k < |full| && TiedAt(RanksBefore, full, k) && (limit <= 0 || k < limit);
    RankingIsWeakOrder();
    var other := SwapTied(RanksBefore, full, k);
    RearrangedRanking(rows, minIPs, id, full, other);
    assert IsClustering(rows, minIPs, limit, id, Cut(other, limit));
    assert Cut(other, limit)[k] == full[k + 1] != full[k] == Cut(full, limit)[k];
  }

  /** The returned list is determined by the rows exactly when no class ranked inside the cut ties with
      another on address count, event count and id. */
  lemma {:induction false} ClusterDeterminedIff(
    rows: seq<Row>, minIPs: int, limit: int, id: string -> string, full: seq<Campaign>)
    requires Ranking(rows, minIPs, id, full)
    ensures (forall other :: IsClustering(rows, minIPs, limit, id, other) ==> other == Cut(full, limit))
            <==> !TieInCut(rows, minIPs, limit, id)
  {
    TieInCutIff(rows, minIPs, limit, id, full);
    if TiedInside(full, limit) {
      CutsDiffer(rows, minIPs, limit, id, full);
    } else {
      forall other | IsClustering(rows, minIPs, limit, id, other)
        ensures other == Cut(full, limit)
      {
        var full' :| Ranking(rows, minIPs, id, full') && other == Cut(full', limit);
        RankingsAgree(rows, minIPs, id, full, full');
        CutsAgree(full, full', limit);
      }
    }
  }

  // ---- When the result is the same for every order ----

  /** The class of `root` qualifies and fewer than `limit` classes are ranked before it. */
  ghost predicate InCut(
    rep: map<string, string>, rows: seq<Bare>, minIPs: int, limit: int, id: string -> string, root: string) {
    Qualifies(rep, rows, minIPs, root) && (limit <= 0 || |ClassesBefore(rep, rows, minIPs, id, root)| < limit)
  }

  /** No class inside the cut mixes a zero least time with later ones. */
  ghost predicate CutUsable(rows: seq<Row>, rep: map<string, string>, minIPs: int, limit: int, id: string -> string) {
    forall root :: InCut(rep, StripAll(rows), minIPs, limit, id, root) ==> !ZeroHidesLater(Times(ClassRows(rep, root, StripAll(rows))))
  }

  /** Ranks and ties of classes are the same for every order. */
  lemma {:induction false} RanksOfBag(
    rep: map<string, string>, rows: seq<Bare>, other: seq<Bare>, minIPs: int, id: string -> string, r: string)
    requires multiset(rows) == multiset(other)
    ensures Qualifies(rep, rows, minIPs, r) <==> Qualifies(rep, other, minIPs, r)
    ensures Weight(rep, rows, r) == Weight(rep, other, r)
    ensures ClassesBefore(rep, rows, minIPs, id, r) == ClassesBefore(rep, other, minIPs, id, r)
  {
    QualifiesOfBag(rep, rows, other, minIPs, r);
    forall q
      ensures q in ClassesBefore(rep, rows, minIPs, id, r) <==> q in ClassesBefore(rep, other, minIPs, id, r)
    {
      BeforeOfBag(rep, rows, other, minIPs, id, q, r);
    }
  }

  lemma {:induction false} QualifiesOfBag(
    rep: map<string, string>, rows: seq<Bare>, other: seq<Bare>, minIPs: int, q: string)
    requires multiset(rows) == multiset(other)
    ensures Qualifies(rep, rows, minIPs, q) <==> Qualifies(rep, other, minIPs, q)
    ensures Weight(rep, rows, q) == Weight(rep, other, q)
  {
    WeightOfBag(rep, q, rows, other);
  }

  lemma {:induction false} BeforeOfBag(
    rep: map<string, string>, rows: seq<Bare>, other: seq<Bare>, minIPs: int, id: string -> string, q: string,
    r: string)
    requires multiset(rows) == multiset(other)
    ensures q in ClassesBefore(rep, rows, minIPs, id, r) <==> q in ClassesBefore(rep, other, minIPs, id, r)
  {
    QualifiesOfBag(rep, rows, other, minIPs, q);
    QualifiesOfBag(rep, rows, other, minIPs, r);
  }

  lemma {:induction false} TieOfBag(rows: seq<Row>, other: seq<Row>, minIPs: int, limit: int, id: string -> string)
    requires SamePopulation(rows, other) && TieInCut(rows, minIPs, limit, id)
    ensures TieInCut(other, minIPs, limit, id)
  {
    var rep, r, q :| Partition(Edges(rows), rep) && TieOf(rep, StripAll(rows), minIPs, limit, id, r, q);
    SameEdges(rows, other);
    RanksOfBag(rep, StripAll(rows), StripAll(other), minIPs, id, r);
    RanksOfBag(rep, StripAll(rows), StripAll(other), minIPs, id, q);
    assert TieOf(rep, StripAll(other), minIPs, limit, id, r, q);
  }

  /** Everything a ranking is, with its partition. */
  ghost predicate Ranked(
    rows: seq<Row>, rep: map<string, string>, minIPs: int, id: string -> string, full: seq<Campaign>) {
    && Partition(Edges(rows), rep) && ListsReported(rep, StripAll(rows), minIPs, id, full)
    && SortedBy(RanksBefore, full) && Distinct(full)
  }

  /** Without ties inside the cut, a class inside it stands at the place its rank says. */
  lemma {:induction false} PlaceOfClass(
    rows: seq<Row>, rep: map<string, string>, minIPs: int, limit: int, id: string -> string,
    full: seq<Campaign>, r: string, c: Campaign)
    requires Ranked(rows, rep, minIPs, id, full) && !TiedInside(full, limit)
    requires InCut(rep, StripAll(rows), minIPs, limit, id, r) && CampaignOf(rep, StripAll(rows), id, r, c)
    ensures var k := |ClassesBefore(rep, StripAll(rows), minIPs, id, r)|; k < |full| && full[k] == c
  {
    assert IsReported(rep, StripAll(rows), minIPs, id, c);
    RankMatches(rows, rep, minIPs, id, full, r, c);
    PlaceOf(full, limit, c);
  }

  lemma {:induction false} PlaceOf(full: seq<Campaign>, limit: int, c: Campaign)
    requires SortedBy(RanksBefore, full) && Distinct(full) && !TiedInside(full, limit) && c in full
    requires limit <= 0 || |Earlier(RanksBefore, full, c)| < limit
    ensures var k := |Earlier(RanksBefore, full, c)|; k < |full| && full[k] == c
  {
    RankingIsWeakOrder();
    var j :| 0 <= j < |full| && full[j] == c;
    var k := EarlierIsPrefix(RanksBefore, full, c);
    assert !RanksBefore(c, c);
    assert k <= j;
    if k < j {
      assert !RanksBefore(full[j], full[k]);
      TieHasPlace(RanksBefore, full, c, full[k]);
    }
  }

  /** Without ties inside the cut, as many campaigns are before the one at place `k`. */
  lemma {:induction false} RankOfPlace(full: seq<Campaign>, limit: int, k: nat)
    requires SortedBy(RanksBefore, full) && Distinct(full) && !TiedInside(full, limit) && k < |full| && (limit <= 0 || k < limit)
    ensures |Earlier(RanksBefore, full, full[k])| == k
  {
    RankingIsWeakOrder();
    var p := EarlierIsPrefix(RanksBefore, full, full[k]);
    assert !RanksBefore(full[k], full[k]);
    assert p <= k;
    if p < k {
      assert !RanksBefore(full[k], full[p]);
      TieHasPlace(RanksBefore, full, full[k], full[p]);
    }
  }

  lemma {:induction false} ClassOfPlace(
    rows: seq<Row>, rep: map<string, string>, minIPs: int, limit: int, id: string -> string,
    full: seq<Campaign>, k: nat) returns (r: string)
    requires Ranked(rows, rep, minIPs, id, full) && !TiedInside(full, limit) && k < |full| && (limit <= 0 || k < limit)
    ensures InCut(rep, StripAll(rows), minIPs, limit, id, r) && CampaignOf(rep, StripAll(rows), id, r, full[k])
    ensures |ClassesBefore(rep, StripAll(rows), minIPs, id, r)| == k
  {
    assert IsReported(rep, StripAll(rows), minIPs, id, full[k]);
    r :| Qualifies(rep, StripAll(rows), minIPs, r) && IsCampaign(id, r, Summary(ClassRows(rep, r, StripAll(rows))), full[k]);
    RankMatches(rows, rep, minIPs, id, full, r, full[k]);
    RankOfPlace(full, limit, k);
  }

  /** A place inside the cut holds the same campaign for every order of the rows. */
  lemma {:induction false} SamePlace(
    rows: seq<Row>, other: seq<Row>, rep: map<string, string>, minIPs: int, limit: int, id: string -> string,
    full: seq<Campaign>, full': seq<Campaign>, k: nat)
    requires SamePopulation(rows, other) && CutUsable(rows, rep, minIPs, limit, id)
    requires Ranked(rows, rep, minIPs, id, full) && Ranked(other, rep, minIPs, id, full')
    requires !TiedInside(full, limit) && !TiedInside(full', limit) && k < |full| && (limit <= 0 || k < limit)
    ensures k < |full'| && full'[k] == full[k]
  {
    var r := ClassOfPlace(rows, rep, minIPs, limit, id, full, k);
    RanksOfBag(rep, StripAll(rows), StripAll(other), minIPs, id, r);
    var c := ClassHasCampaign(other, rep, id, r);
    PlaceOfClass(other, rep, minIPs, limit, id, full', r, c);
    SummaryOfBag(rep, r, StripAll(rows), StripAll(other));
    CampaignUnique(id, r, Summary(ClassRows(rep, r, StripAll(rows))), c, full[k]);
  }

  lemma {:induction false} RankingIsRanked(
    rows: seq<Row>, minIPs: int, id: string -> string, full: seq<Campaign>, rep: map<string, string>)
    requires Ranking(rows, minIPs, id, full) && Partition(Edges(rows), rep)
    ensures Ranked(rows, rep, minIPs, id, full)
  {
    var rep' :| Partition(Edges(rows), rep') && forall c :: c in full <==> IsReported(rep', StripAll(rows), minIPs, id, c);
    PartitionUnique(Edges(rows), rep, rep');
  }

  lemma {:induction false} UsableOfBag(
    rows: seq<Row>, other: seq<Row>, rep: map<string, string>, minIPs: int, limit: int, id: string -> string)
    requires SamePopulation(rows, other) && CutUsable(rows, rep, minIPs, limit, id)
    ensures CutUsable(other, rep, minIPs, limit, id)
  {
    forall root | InCut(rep, StripAll(other), minIPs, limit, id, root)
      ensures !ZeroHidesLater(Times(ClassRows(rep, root, StripAll(other))))
    {
      RanksOfBag(rep, StripAll(rows), StripAll(other), minIPs, id, root);
      ClassOfBag(rep, root, StripAll(rows), StripAll(other));
      TimesOfBag(ClassRows(rep, root, StripAll(rows)), ClassRows(rep, root, StripAll(other)));
      ZeroHidesOfBag(Times(ClassRows(rep, root, StripAll(rows))), Times(ClassRows(rep, root, StripAll(other))));
    }
  }

  lemma {:induction false} ZeroHidesOfBag(times: seq<int>, other: seq<int>)
    requires multiset(times) == multiset(other)
    ensures ZeroHidesLater(times) <==> ZeroHidesLater(other)
  {
    assert forall t :: t in times <==> t in multiset(times);
    assert forall t :: t in other <==> t in multiset(other);
  }

  /** Without ties and without hidden times inside the cut, the returned list is unchanged by any order of rows,
      of fingerprints within rows, of tags and of map iteration. */
  lemma {:induction false} ClusterOrderFree(
    rows: seq<Row>, other: seq<Row>, rep: map<string, string>, minIPs: int, limit: int, id: string -> string,
    out: seq<Campaign>, out': seq<Campaign>)
    requires SamePopulation(rows, other) && Partition(Edges(rows), rep)
    requires !TieInCut(rows, minIPs, limit, id) && CutUsable(rows, rep, minIPs, limit, id)
    requires IsClustering(rows, minIPs, limit, id, out) && IsClustering(other, minIPs, limit, id, out')
    ensures out == out'
  {
    var full :| Ranking(rows, minIPs, id, full) && out == Cut(full, limit);
    var full' :| Ranking(other, minIPs, id, full') && out' == Cut(full', limit);
    SameEdges(rows, other);
    RankingIsRanked(rows, minIPs, id, full, rep);
    RankingIsRanked(other, minIPs, id, full', rep);
    TieInCutIff(rows, minIPs, limit, id, full);
    TieInCutIff(other, minIPs, limit, id, full');
    if TieInCut(other, minIPs, limit, id) {
      TieOfBag(other, rows, minIPs, limit, id);
    }
    UsableOfBag(rows, other, rep, minIPs, limit, id);
    CutsBegin(rows, other, rep, minIPs, limit, id, full, full');
    CutsBegin(other, rows, rep, minIPs, limit, id, full', full);
  }

  /** One result is the beginning of the other. */
  lemma {:induction false} CutsBegin(
    rows: seq<Row>, other: seq<Row>, rep: map<string, string>, minIPs: int, limit: int, id: string -> string,
    full: seq<Campaign>, full': seq<Campaign>)
    requires SamePopulation(rows, other) && CutUsable(rows, rep, minIPs, limit, id)
    requires Ranked(rows, rep, minIPs, id, full) && Ranked(other, rep, minIPs, id, full')
    requires !TiedInside(full, limit) && !TiedInside(full', limit)
    ensures Cut(full, limit) <= Cut(full', limit)
  {
    var out, out' := Cut(full, limit), Cut(full', limit);
    if out != [] {
      SamePlace(rows, other, rep, minIPs, limit, id, full, full', |out| - 1);
    }
    assert |out| <= |out'|;
    forall k | 0 <= k < |out|
      ensures out[k] == out'[k]
    {
      SamePlace(rows, other, rep, minIPs, limit, id, full, full', k);
    }
  }

  // ---- A ranking always exists ----

  lemma {:induction false} CollectAll(
    rows: seq<Row>, rep: map<string, string>, minIPs: int, id: string -> string, roots: set<string>)
    returns (list: seq<Campaign>)
    requires Partition(Edges(rows), rep)
    ensures Collected(list, roots, rep, StripAll(rows), minIPs, id)
    decreases |roots|
  {
    list := [];
    if roots != {} {
      var root :| root in roots;
      var rest := roots - {root};
      list := CollectAll(rows, rep, minIPs, id, rest);
      assert rest + {root} == roots;
      if Qualifies(rep, StripAll(rows), minIPs, root) {
        var c := ClassHasCampaign(rows, rep, id, root);
        CollectOne(rows, rep, minIPs, id, rest, list, root, c);
        list := list + [c];
      } else {
        CollectSkip(rep, StripAll(rows), minIPs, id, rest, list, root);
      }
    }
  }

  lemma {:induction false} AllAmong(
    rep: map<string, string>, rows: seq<Bare>, minIPs: int, id: string -> string, c: Campaign)
    ensures Among(rep.Values, rep, rows, minIPs, id, c) <==> IsReported(rep, rows, minIPs, id, c)
  {
    if IsReported(rep, rows, minIPs, id, c) {
      var root :| Qualifies(rep, rows, minIPs, root) && IsCampaign(id, root, Summary(ClassRows(rep, root, rows)), c);
      RootIsValue(rep, rows, root);
    }
  }

  lemma {:induction false} RankingExists(
    rows: seq<Row>, rep: map<string, string>, minIPs: int, id: string -> string) returns (full: seq<Campaign>)
    requires Partition(Edges(rows), rep)
    ensures Ranking(rows, minIPs, id, full)
  {
    var list := CollectAll(rows, rep, minIPs, id, rep.Values);
    RankingIsWeakOrder();
    full := SortBy(RanksBefore, list);
    forall c
      ensures c in full <==> IsReported(rep, StripAll(rows), minIPs, id, c)
      ensures c in full ==> multiset(full)[c] == 1
    {
      assert c in full <==> c in multiset(full);
      DistinctBag(list, c);
      AllAmong(rep, StripAll(rows), minIPs, id, c);
    }
    BagDistinct(full);
  }

  /** The returned list is the same for every order of rows, fingerprints, tags and map iteration. */
  ghost predicate ListOrderFree(rows: seq<Row>, minIPs: int, limit: int, id: string -> string) {
    forall other, out, out' :: AlsoClusters(rows, other, minIPs, limit, id, out, out') ==> out == out'
  }

  /** Results for two orders of the same rows. */
  ghost predicate AlsoClusters(rows: seq<Row>, other: seq<Row>, minIPs: int, limit: int, id: string -> string,
                               out: seq<Campaign>, out': seq<Campaign>) {
    && SamePopulation(rows, other)
    && IsClustering(rows, minIPs, limit, id, out) && IsClustering(other, minIPs, limit, id, out')
  }

  lemma {:induction false} TieVaries(
    rows: seq<Row>, rep: map<string, string>, minIPs: int, limit: int, id: string -> string)
    requires Partition(Edges(rows), rep) && TieInCut(rows, minIPs, limit, id)
    ensures !ListOrderFree(rows, minIPs, limit, id)
  {
    var full := RankingExists(rows, rep, minIPs, id);
    TieInCutIff(rows, minIPs, limit, id, full);
    CutsDiffer(rows, minIPs, limit, id, full);
    var other :| IsClustering(rows, minIPs, limit, id, other) && other != Cut(full, limit);
    assert AlsoClusters(rows, rows, minIPs, limit, id, other, Cut(full, limit));
  }

  lemma {:induction false} HiddenTimeVaries(
    rows: seq<Row>, rep: map<string, string>, minIPs: int, limit: int, id: string -> string, root: string)
    requires Partition(Edges(rows), rep) && !TieInCut(rows, minIPs, limit, id)
    requires InCut(rep, StripAll(rows), minIPs, limit, id, root) && ZeroHidesLater(Times(ClassRows(rep, root, StripAll(rows))))
    ensures !ListOrderFree(rows, minIPs, limit, id)
  {
    var other := SummaryVaries(rows, rep, root);
    SameEdges(rows, other);
    var full := RankingExists(rows, rep, minIPs, id);
    var full' := RankingExists(other, rep, minIPs, id);
    RankingIsRanked(rows, minIPs, id, full, rep);
    RankingIsRanked(other, minIPs, id, full', rep);
    if TieInCut(other, minIPs, limit, id) {
      TieOfBag(other, rows, minIPs, limit, id);
    }
    TieInCutIff(rows, minIPs, limit, id, full);
    TieInCutIff(other, minIPs, limit, id, full');
    RanksOfBag(rep, StripAll(rows), StripAll(other), minIPs, id, root);
    var c := ClassHasCampaign(rows, rep, id, root);
    var d := ClassHasCampaign(other, rep, id, root);
    PlaceOfClass(rows, rep, minIPs, limit, id, full, root, c);
    PlaceOfClass(other, rep, minIPs, limit, id, full', root, d);
    PlacesDiffer(rows, other, minIPs, limit, id, full, full', |ClassesBefore(rep, StripAll(rows), minIPs, id, root)|);
  }

  lemma {:induction false} PlacesDiffer(rows: seq<Row>, other: seq<Row>, minIPs: int, limit: int, id: string -> string,
                                        full: seq<Campaign>, full': seq<Campaign>, k: nat)
    requires SamePopulation(rows, other) && Ranking(rows, minIPs, id, full) && Ranking(other, minIPs, id, full')
    requires k < |full| && k < |full'| && (limit <= 0 || k < limit) && full[k].first != full'[k].first
    ensures !ListOrderFree(rows, minIPs, limit, id)
  {
    var out, out' := Cut(full, limit), Cut(full', limit);
    assert IsClustering(rows, minIPs, limit, id, out) && IsClustering(other, minIPs, limit, id, out');
    assert out[k] == full[k] && out'[k] == full'[k];
    assert AlsoClusters(rows, other, minIPs, limit, id, out, out');
  }

  /** The exact condition for the returned list to be the same for every order: inside the cut no class ties
      with another, and none has zero as its least time and a later one. */
  lemma {:induction false} ListOrderFreeIff(
    rows: seq<Row>, rep: map<string, string>, minIPs: int, limit: int, id: string -> string)
    requires Partition(Edges(rows), rep)
    ensures ListOrderFree(rows, minIPs, limit, id) <==> !TieInCut(rows, minIPs, limit, id) && CutUsable(rows, rep, minIPs, limit, id)
  {
    if TieInCut(rows, minIPs, limit, id) {
      TieVaries(rows, rep, minIPs, limit, id);
    } else if CutUsable(rows, rep, minIPs, limit, id) {
      forall other, out, out' | AlsoClusters(rows, other, minIPs, limit, id, out, out')
        ensures out == out'
      {
        ClusterOrderFree(rows, other, rep, minIPs, limit, id, out, out');
      }
    } else {
      var root :| InCut(rep, StripAll(rows), minIPs, limit, id, root) && ZeroHidesLater(Times(ClassRows(rep, root, StripAll(rows))));
      HiddenTimeVaries(rows, rep, minIPs, limit, id, root);
    }
  }

  // ---- Two tied classes ----

  /** Two rows of one address and one event each, without a fingerprint in common. */
  function TiedRows(a: string, b: string): seq<Row> {
    [Row("1", [a], 80, "", [], 1), Row("1", [b], 80, "", [], 1)]
  }

  lemma {:induction false} TiedEdges(a: string, b: string)
    ensures Edges(TiedRows(a, b)) == {{a}, {b}}
  {
    var rows := TiedRows(a, b);
    assert FpSet(rows[0].fp) == {a} && FpSet(rows[1].fp) == {b};
    assert rows[0] in rows && rows[1] in rows;
  }

  lemma {:induction false} TwoRoots(a: string, b: string)
    requires a != b
    ensures var p := map[a := a, b := b]; WellFormed(p) && Root(p, a) == a && Root(p, b) == b && Roots(p) == p
  {
    var p := map[a := a, b := b];
    assert Descends(p, a) && Descends(p, b);
  }

  lemma {:induction false} TiedPartition(a: string, b: string)
    requires a != b
    ensures Partition(Edges(TiedRows(a, b)), map[a := a, b := b])
  {
    var e := Edges(TiedRows(a, b));
    TiedEdges(a, b);
    TwoRoots(a, b);
    LinkedInRow(e, {a}, a, a);
    LinkedInRow(e, {b}, b, b);
    JoinedForestIsPartition(e, map[a := a, b := b]);
  }

  lemma {:induction false} ClassOfTwo(rep: map<string, string>, root: string, x: Bare, y: Bare)
    ensures ClassRows(rep, root, [x, y]) == (if InClass(rep, root, x) then [x] else []) + (if InClass(rep, root, y) then [y] else [])
  {
    var rows := [x, y];
    assert rows[..1] == [x] && [x][..0] == [];
    assert ClassRows(rep, root, []) == [];
    assert ClassRows(rep, root, [x]) == if InClass(rep, root, x) then [x] else [];
  }

  lemma {:induction false} InClassOfOne(rep: map<string, string>, root: string, r: Bare, f: string)
    requires r.fp == multiset{f} && f in rep
    ensures InClass(rep, root, r) <==> rep[f] == root
  {
    assert f in r.fp;
  }

  lemma {:induction false} TiedClasses(a: string, b: string)
    requires a != b
    ensures var rep, bare := map[a := a, b := b], StripAll(TiedRows(a, b));
            && ClassRows(rep, a, bare) == [bare[0]] && ClassRows(rep, b, bare) == [bare[1]]
  {
    var rep, bare := map[a := a, b := b], StripAll(TiedRows(a, b));
    var x, y := bare[0], bare[1];
    assert bare == [x, y] && x.fp == multiset{a} && y.fp == multiset{b};
    InClassOfOne(rep, a, x, a);
    InClassOfOne(rep, a, y, b);
    InClassOfOne(rep, b, x, a);
    InClassOfOne(rep, b, y, b);
    ClassOfTwo(rep, a, x, y);
    ClassOfTwo(rep, b, x, y);
  }

  lemma {:induction false} OneRowTotal(r: Bare)
    ensures Total([r]).ips == {r.ip} && Total([r]).events == 1
  {
    assert [r][1..] == [];
  }

  lemma {:induction false} TiedWeights(a: string, b: string)
    requires a != b
    ensures var rep, bare := map[a := a, b := b], StripAll(TiedRows(a, b));
            && Qualifies(rep, bare, 1, a) && |Weight(rep, bare, a).ips| == 1 && Weight(rep, bare, a).events == 1
            && Qualifies(rep, bare, 1, b) && |Weight(rep, bare, b).ips| == 1 && Weight(rep, bare, b).events == 1
  {
    var bare := StripAll(TiedRows(a, b));
    TiedClasses(a, b);
    OneRowTotal(bare[0]);
    OneRowTotal(bare[1]);
  }

  lemma {:induction false} NoneBefore(
    rep: map<string, string>, rows: seq<Bare>, minIPs: int, id: string -> string, a: string, b: string)
    requires (forall q :: q in rep.Values ==> q == a || q == b) && ClassesTie(rep, rows, id, a, b)
    ensures ClassesBefore(rep, rows, minIPs, id, a) == {}
  {
    LessIrreflexive(id(a));
  }

  /** They tie, inside every cut, when their ids collide: then the order of the result is not determined. */
  lemma {:induction false} TiedRowsTie(a: string, b: string, limit: int, id: string -> string)
    requires a != b && id(a) == id(b)
    ensures TieInCut(TiedRows(a, b), 1, limit, id)
  {
    var rep, bare := map[a := a, b := b], StripAll(TiedRows(a, b));
    TiedPartition(a, b);
    TiedWeights(a, b);
    NoneBefore(rep, bare, 1, id, a, b);
    assert TieOf(rep, bare, 1, limit, id, a, b);
  }

  lemma {:induction false} ChainBetweenRows(e: set<set<string>>, a: string, b: string, ra: set<string>, rb: set<string>)
    requires ra in e && rb in e && a in ra && b in rb && Linked(e, a, b)
    ensures exists c :: Chain(e, c) && c[0] == ra && c[|c| - 1] == rb
  {
    var c :| ChainFrom(e, c, a, b);
    var d := [ra] + c + [rb];
    forall k | 0 <= k < |d| - 1
      ensures d[k] * d[k + 1] != {}
    {
      if k == 0 {
        assert a in d[k] * d[k + 1];
      } else if k == |c| {
        assert b in d[k] * d[k + 1];
      } else {
        assert c[k - 1] * c[k] != {};
      }
    }
    assert Chain(e, d);
  }

  /** Two rows with fingerprints share a class exactly when a chain of rows, neighbours sharing a
      fingerprint, leads from one to the other. */
  lemma {:induction false} SameClassIffChain(rows: seq<Row>, rep: map<string, string>, i: nat, j: nat)
    requires Partition(Edges(rows), rep) && i < |rows| && j < |rows| && rows[i].fp != [] && rows[j].fp != []
    ensures rows[i].fp[0] in rep && rows[j].fp[0] in rep
    ensures rep[rows[i].fp[0]] == rep[rows[j].fp[0]] <==>
            exists c :: Chain(Edges(rows), c) && c[0] == FpSet(rows[i].fp) && c[|c| - 1] == FpSet(rows[j].fp)
  {
    var e, a, b := Edges(rows), rows[i].fp[0], rows[j].fp[0];
    assert rows[i] in rows && rows[j] in rows;
    assert FpSet(rows[i].fp) in e && FpSet(rows[j].fp) in e && a in FpSet(rows[i].fp) && b in FpSet(rows[j].fp);
    if Linked(e, a, b) {
      ChainBetweenRows(e, a, b, FpSet(rows[i].fp), FpSet(rows[j].fp));
    }
    if c :| Chain(e, c) && c[0] == FpSet(rows[i].fp) && c[|c| - 1] == FpSet(rows[j].fp) {
      assert ChainFrom(e, c, a, b);
    }
  }
}
