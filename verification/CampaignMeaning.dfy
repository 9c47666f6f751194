/** What a campaign says, read off the rows: every field of every campaign that `Cluster` returns. */
module CampaignMeaning {
  import opened Ordering
  import opened FingerprintForest
  import opened Campaigns
  import opened CampaignRanking

  // ---- The sums of a list of rows ----

  /** The sets of addresses, ports, countries and tags are those of the rows; empty countries are skipped. */
  lemma {:induction false} TotalSets(rows: seq<Bare>, ip: string, port: int, cc: string, tag: string)
    ensures ip in Total(rows).ips <==> exists r :: r in rows && r.ip == ip
    ensures port in Total(rows).ports <==> exists r :: r in rows && r.port == port
    ensures cc in Total(rows).ccs <==> cc != "" && exists r :: r in rows && r.cc == cc
    ensures tag in Total(rows).tags <==> exists r :: r in rows && tag in r.tags
  {
    if rows != [] {
      TotalSets(rows[1..], ip, port, cc, tag);
      assert forall r :: r in rows <==> r == rows[0] || r in rows[1..];
    }
  }

  /** Occurrences of a fingerprint in a list of rows. */
  function Occurrences(rows: seq<Bare>, f: string): nat {
    if rows == [] then 0 else rows[0].fp[f] + Occurrences(rows[1..], f)
  }

  /** The number of rows and the occurrences of a fingerprint are counted. */
  lemma {:induction false} TotalCounts(rows: seq<Bare>, f: string)
    ensures Total(rows).events == |rows| && Total(rows).fps[f] == Occurrences(rows, f)
  {
    if rows != [] {
      TotalCounts(rows[1..], f);
    }
  }

  /** Last-seen is the greatest time, or zero if all lie before it. */
  lemma {:induction false} TotalLast(rows: seq<Bare>)
    ensures Total(rows).last >= 0 && forall r :: r in rows ==> r.time <= Total(rows).last
    ensures Total(rows).last == 0 || exists r :: r in rows && r.time == Total(rows).last
  {
    if rows != [] {
      TotalLast(rows[1..]);
      assert forall r :: r in rows <==> r == rows[0] || r in rows[1..];
    }
  }

  // ---- Groups of rows ----

  /** A chain of rows, neighbours sharing a fingerprint, leads from one row to the other. */
  ghost predicate Connected(rows: seq<Row>, i: nat, j: nat)
    requires i < |rows| && j < |rows|
  {
    exists c :: Chain(Edges(rows), c) && c[0] == FpSet(rows[i].fp) && c[|c| - 1] == FpSet(rows[j].fp)
  }

  ghost predicate WithPrints(rows: seq<Row>, i: nat) {
    i < |rows| && rows[i].fp != []
  }

  /** Rows with fingerprints, connected to each other and to no further row. */
  ghost predicate IsGroup(rows: seq<Row>, mine: set<nat>) {
    && mine != {} && (forall i :: i in mine ==> WithPrints(rows, i))
    && forall i, j :: i in mine && WithPrints(rows, j) ==> (j in mine <==> Connected(rows, i, j))
  }

  /** Occurrences of a fingerprint in the rows of a group. */
  function Occurs(rows: seq<Row>, mine: set<nat>, f: string): nat {
    if rows == [] then 0
    else
      var n := |rows| - 1;
      Occurs(rows[..n], mine, f) + if n in mine then multiset(rows[n].fp)[f] else 0
  }

  /** The times of the rows of a group, in the order of the rows. */
  function TimesOf(rows: seq<Row>, mine: set<nat>): seq<int> {
    if rows == [] then []
    else
      var n := |rows| - 1;
      TimesOf(rows[..n], mine) + if n in mine then [rows[n].time] else []
  }

  /** The row at `i` belongs to the group. */
  predicate Belongs(rows: seq<Row>, mine: set<nat>, i: int) {
    0 <= i < |rows| && i in mine
  }

  ghost predicate HasPort(rows: seq<Row>, mine: set<nat>, port: int) {
    exists i :: Belongs(rows, mine, i) && rows[i].port == port
  }

  ghost predicate HasCountry(rows: seq<Row>, mine: set<nat>, cc: string) {
    exists i :: Belongs(rows, mine, i) && rows[i].cc == cc
  }

  ghost predicate HasTag(rows: seq<Row>, mine: set<nat>, tag: string) {
    exists i :: Belongs(rows, mine, i) && tag in rows[i].tags
  }

  ghost predicate HasPrint(rows: seq<Row>, mine: set<nat>, f: string) {
    exists i :: Belongs(rows, mine, i) && f in rows[i].fp
  }

  ghost predicate HasAddress(rows: seq<Row>, mine: set<nat>, ip: string) {
    exists i :: Belongs(rows, mine, i) && rows[i].ip == ip
  }

  /** The group is the class of `root`. */
  ghost predicate Picks(rep: map<string, string>, root: string, rows: seq<Row>, mine: set<nat>) {
    forall i :: 0 <= i < |rows| ==> (i in mine <==> InClass(rep, root, Strip(rows[i])))
  }

  lemma {:induction false} OccurrencesSnoc(rows: seq<Bare>, r: Bare, f: string)
    ensures Occurrences(rows + [r], f) == Occurrences(rows, f) + r.fp[f]
  {
    if rows == [] {
      assert rows + [r] == [r] && [r][1..] == [];
    } else {
      assert (rows + [r])[1..] == rows[1..] + [r];
      OccurrencesSnoc(rows[1..], r, f);
    }
  }

  lemma {:induction false} PicksInit(rep: map<string, string>, root: string, rows: seq<Row>, mine: set<nat>)
    requires Picks(rep, root, rows, mine) && rows != []
    ensures var n := |rows| - 1;
            var init := ClassRows(rep, root, StripAll(rows[..n]));
            && Picks(rep, root, rows[..n], mine)
            && ClassRows(rep, root, StripAll(rows)) == if n in mine then init + [Strip(rows[n])] else init
  {
    var n := |rows| - 1;
    assert StripAll(rows)[..n] == StripAll(rows[..n]);
  }

  lemma {:induction false} ClassOccurs(
    rep: map<string, string>, root: string, rows: seq<Row>, mine: set<nat>, f: string)
    requires Picks(rep, root, rows, mine)
    ensures Occurrences(ClassRows(rep, root, StripAll(rows)), f) == Occurs(rows, mine, f)
  {
    if rows != [] {
      var n := |rows| - 1;
      PicksInit(rep, root, rows, mine);
      ClassOccurs(rep, root, rows[..n], mine, f);
      OccurrencesSnoc(ClassRows(rep, root, StripAll(rows[..n])), Strip(rows[n]), f);
    }
  }

  lemma {:induction false} ClassTimes(rep: map<string, string>, root: string, rows: seq<Row>, mine: set<nat>)
    requires Picks(rep, root, rows, mine)
    ensures Times(ClassRows(rep, root, StripAll(rows))) == TimesOf(rows, mine)
  {
    if rows != [] {
      PicksInit(rep, root, rows, mine);
      ClassTimes(rep, root, rows[..|rows| - 1], mine);
    }
  }

  function Below(mine: set<nat>, n: nat): set<nat> {
    set i | i in mine && i < n
  }

  lemma {:induction false} BelowNext(mine: set<nat>, n: nat)
    ensures |Below(mine, n + 1)| == |Below(mine, n)| + if n in mine then 1 else 0
  {
    if n in mine {
      assert Below(mine, n + 1) == Below(mine, n) + {n};
    } else {
      assert Below(mine, n + 1) == Below(mine, n);
    }
  }

  lemma {:induction false} ClassSize(rep: map<string, string>, root: string, rows: seq<Row>, mine: set<nat>)
    requires Picks(rep, root, rows, mine)
    ensures |ClassRows(rep, root, StripAll(rows))| == |Below(mine, |rows|)|
  {
    if rows == [] {
      assert Below(mine, |rows|) == {};
    } else {
      var n := |rows| - 1;
      PicksInit(rep, root, rows, mine);
      ClassSize(rep, root, rows[..n], mine);
      BelowNext(mine, n);
    }
  }

  /** The rows of the class are those of the group. */
  lemma {:induction false} ClassHolds(rep: map<string, string>, root: string, rows: seq<Row>, mine: set<nat>, b: Bare)
    requires Picks(rep, root, rows, mine)
    ensures b in ClassRows(rep, root, StripAll(rows)) <==> exists i :: Belongs(rows, mine, i) && Strip(rows[i]) == b
  {
    var bare := StripAll(rows);
    ClassBag(rep, root, bare, b);
    assert b in ClassRows(rep, root, bare) <==> b in multiset(ClassRows(rep, root, bare));
    assert b in bare <==> b in multiset(bare);
    if b in bare {
      var i :| 0 <= i < |bare| && bare[i] == b;
      assert Strip(rows[i]) == b;
    }
    if i :| Belongs(rows, mine, i) && Strip(rows[i]) == b {
      assert bare[i] == b;
    }
  }

  // ---- What a campaign says of its group ----

  ghost predicate Ascending<T(!new)>(list: seq<T>, before: (T, T) -> bool) {
    forall i, j :: 0 <= i < j < |list| ==> before(list[i], list[j])
  }

  /** Ports, countries and tags are those of the rows, ascending; rows without a country add none. */
  ghost predicate ListsFields(rows: seq<Row>, mine: set<nat>, c: Campaign) {
    && (forall i, j :: 0 <= i < j < |c.ports| ==> c.ports[i] < c.ports[j]) && Ascending(c.countries, Less) && Ascending(c.tags, Less)
    && (forall x :: x in c.ports <==> HasPort(rows, mine, x))
    && (forall x :: x in c.countries <==> x != "" && HasCountry(rows, mine, x))
    && (forall x :: x in c.tags <==> HasTag(rows, mine, x))
  }

  /** `ips` are the addresses of the group; they are counted and the first fifty are listed, ascending. */
  ghost predicate ListsAddresses(rows: seq<Row>, mine: set<nat>, c: Campaign, ips: set<string>) {
    && (forall x :: x in ips <==> HasAddress(rows, mine, x))
    && c.ipCount == |ips| && |c.ips| == (if |ips| > 50 then 50 else |ips|) && Ascending(c.ips, Less)
    && (forall x :: x in c.ips ==> x in ips)
    && forall x, y :: x in c.ips && y in ips && y !in c.ips ==> Less(x, y)
  }

  ghost predicate CountsRows(rows: seq<Row>, mine: set<nat>, c: Campaign) {
    c.events == |mine| && exists ips :: ListsAddresses(rows, mine, c, ips)
  }

  /** The name is the fingerprint that occurs most often, the smallest of these, and the id is that of the
      smallest fingerprint. */
  ghost predicate NamesPrints(rows: seq<Row>, mine: set<nat>, id: string -> string, c: Campaign) {
    && HasPrint(rows, mine, c.name)
    && (forall f :: HasPrint(rows, mine, f) ==>
          || Occurs(rows, mine, f) < Occurs(rows, mine, c.name)
          || (Occurs(rows, mine, f) == Occurs(rows, mine, c.name) && (f == c.name || Less(c.name, f))))
    && exists least :: c.id == id(least) && IsLeast(rows, mine, least)
  }

  ghost predicate IsLeast(rows: seq<Row>, mine: set<nat>, least: string) {
    && HasPrint(rows, mine, least)
    && forall f :: HasPrint(rows, mine, f) ==> f == least || Less(least, f)
  }

  /** Last-seen is the greatest time, or zero. First-seen is the least one, except that a zero counts as no time yet:
      it is the least time unless that is zero and the last row is later. */
  ghost predicate DatesRows(rows: seq<Row>, mine: set<nat>, c: Campaign) {
    var times := TimesOf(rows, mine);
    && times != []
    && (forall t :: t in times ==> t <= c.last) && c.last >= 0 && (c.last == 0 || c.last in times)
    && (IsMinimum(times, c.first) <==> !(IsMinimum(times, 0) && times[|times| - 1] != 0))
  }

  ghost predicate Describes(rows: seq<Row>, mine: set<nat>, id: string -> string, c: Campaign) {
    ListsFields(rows, mine, c) && CountsRows(rows, mine, c) && NamesPrints(rows, mine, id, c) && DatesRows(rows, mine, c)
  }

  lemma {:induction false} ListsAscending<T(!new)>(before: (T, T) -> bool, m: set<T>, s: seq<T>)
    requires Lists(before, m, s) && forall x, y :: x == y || before(x, y) || before(y, x)
    ensures Ascending(s, before)
  {
    forall i, j | 0 <= i < j < |s|
      ensures before(s[i], s[j])
    {
      assert s[i] != s[j] && !before(s[j], s[i]);
    }
  }

  lemma {:induction false} LessIsTotal()
    ensures forall x, y :: x == y || Less(x, y) || Less(y, x)
  {
    forall x, y
      ensures x == y || Less(x, y) || Less(y, x)
    {
      LessTotal(x, y);
    }
  }

  /** The ports, countries, addresses, tags and fingerprints of the class are those of the group. */
  lemma {:induction false} SameFields(rep: map<string, string>, root: string, rows: seq<Row>, mine: set<nat>, i: nat)
    requires Picks(rep, root, rows, mine) && Belongs(rows, mine, i)
    ensures Strip(rows[i]) in ClassRows(rep, root, StripAll(rows))
  {
    ClassHolds(rep, root, rows, mine, Strip(rows[i]));
  }

  lemma {:induction false} ClassSource(rep: map<string, string>, root: string, rows: seq<Row>, mine: set<nat>, b: Bare)
    returns (i: nat)
    requires Picks(rep, root, rows, mine) && b in ClassRows(rep, root, StripAll(rows))
    ensures Belongs(rows, mine, i) && Strip(rows[i]) == b
  {
    ClassHolds(rep, root, rows, mine, b);
    i :| Belongs(rows, mine, i) && Strip(rows[i]) == b;
  }

  lemma {:induction false} PortsOf(rep: map<string, string>, root: string, rows: seq<Row>, mine: set<nat>, x: int)
    requires Picks(rep, root, rows, mine)
    ensures x in Total(ClassRows(rep, root, StripAll(rows))).ports <==> HasPort(rows, mine, x)
  {
    var bare := ClassRows(rep, root, StripAll(rows));
    TotalSets(bare, "", x, "", "");
    if b :| b in bare && b.port == x {
      var i := ClassSource(rep, root, rows, mine, b);
    }
    if i :| Belongs(rows, mine, i) && rows[i].port == x {
      SameFields(rep, root, rows, mine, i);
    }
  }

  lemma {:induction false} CountriesOf(
    rep: map<string, string>, root: string, rows: seq<Row>, mine: set<nat>, x: string)
    requires Picks(rep, root, rows, mine)
    ensures x in Total(ClassRows(rep, root, StripAll(rows))).ccs <==> x != "" && HasCountry(rows, mine, x)
  {
    var bare := ClassRows(rep, root, StripAll(rows));
    TotalSets(bare, "", 0, x, "");
    if b :| b in bare && b.cc == x {
      var i := ClassSource(rep, root, rows, mine, b);
    }
    if i :| Belongs(rows, mine, i) && rows[i].cc == x {
      SameFields(rep, root, rows, mine, i);
    }
  }

  lemma {:induction false} TagsOf(rep: map<string, string>, root: string, rows: seq<Row>, mine: set<nat>, x: string)
    requires Picks(rep, root, rows, mine)
    ensures x in Total(ClassRows(rep, root, StripAll(rows))).tags <==> HasTag(rows, mine, x)
  {
    var bare := ClassRows(rep, root, StripAll(rows));
    TotalSets(bare, "", 0, "", x);
    if b :| b in bare && x in b.tags {
      var i := ClassSource(rep, root, rows, mine, b);
    }
    if i :| Belongs(rows, mine, i) && x in rows[i].tags {
      SameFields(rep, root, rows, mine, i);
    }
  }

  lemma {:induction false} AddressesOf(
    rep: map<string, string>, root: string, rows: seq<Row>, mine: set<nat>, x: string)
    requires Picks(rep, root, rows, mine)
    ensures x in Total(ClassRows(rep, root, StripAll(rows))).ips <==> HasAddress(rows, mine, x)
  {
    var bare := ClassRows(rep, root, StripAll(rows));
    TotalSets(bare, x, 0, "", "");
    if b :| b in bare && b.ip == x {
      var i := ClassSource(rep, root, rows, mine, b);
    }
    if i :| Belongs(rows, mine, i) && rows[i].ip == x {
      SameFields(rep, root, rows, mine, i);
    }
  }

  lemma {:induction false} FieldsListed(
    rep: map<string, string>, root: string, rows: seq<Row>, mine: set<nat>, id: string -> string, c: Campaign)
    requires Picks(rep, root, rows, mine) && IsCampaign(id, root, Summary(ClassRows(rep, root, StripAll(rows))), c)
    ensures ListsFields(rows, mine, c)
  {
    var sum := Total(ClassRows(rep, root, StripAll(rows)));
    LessIsTotal();
    ListsAscending(IntBefore, sum.ports, c.ports);
    ListsAscending(Less, sum.ccs, c.countries);
    ListsAscending(Less, sum.tags, c.tags);
    forall x
      ensures x in c.ports <==> HasPort(rows, mine, x)
    {
      PortsOf(rep, root, rows, mine, x);
    }
    forall x
      ensures x in c.countries <==> x != "" && HasCountry(rows, mine, x)
    {
      CountriesOf(rep, root, rows, mine, x);
    }
    forall x
      ensures x in c.tags <==> HasTag(rows, mine, x)
    {
      TagsOf(rep, root, rows, mine, x);
    }
  }

  /** A sorted list cut after fifty elements is ascending and holds the smallest ones. */
  lemma {:induction false} ShortenedList(ips: set<string>, list: seq<string>)
    requires IpList(ips, list)
    ensures |list| == (if |ips| > 50 then 50 else |ips|) && Ascending(list, Less)
    ensures forall x :: x in list ==> x in ips
    ensures forall x, y :: x in list && y in ips && y !in list ==> Less(x, y)
  {
    var full :| Lists(Less, ips, full) && list == Shorten(full);
    LessIsTotal();
    ListsAscending(Less, ips, full);
    ListSize(ips, full);
    forall x, y | x in list && y in ips && y !in list
      ensures Less(x, y)
    {
      assert y in full;
      var i, j :| 0 <= i < |list| && list[i] == x && 0 <= j < |full| && full[j] == y;
      assert j >= |list|;
    }
  }

  lemma {:induction false} ListSize<T>(m: set<T>, s: seq<T>)
    requires Distinct(s) && forall x :: x in s <==> x in m
    ensures |s| == |m|
  {
    if s == [] {
      assert m == {};
    } else {
      var n := |s| - 1;
      assert forall x :: x in s[..n] <==> x in m - {s[n]};
      ListSize(m - {s[n]}, s[..n]);
    }
  }

  lemma {:induction false} AddressesListed(
    rep: map<string, string>, root: string, rows: seq<Row>, mine: set<nat>, id: string -> string, c: Campaign)
    requires Picks(rep, root, rows, mine) && IsCampaign(id, root, Summary(ClassRows(rep, root, StripAll(rows))), c)
    ensures ListsAddresses(rows, mine, c, Total(ClassRows(rep, root, StripAll(rows))).ips)
  {
    var ips := Total(ClassRows(rep, root, StripAll(rows))).ips;
    forall x
      ensures x in ips <==> HasAddress(rows, mine, x)
    {
      AddressesOf(rep, root, rows, mine, x);
    }
    ShortenedList(ips, c.ips);
  }

  lemma {:induction false} RowsCounted(
    rep: map<string, string>, root: string, rows: seq<Row>, mine: set<nat>, id: string -> string, c: Campaign)
    requires Picks(rep, root, rows, mine) && IsCampaign(id, root, Summary(ClassRows(rep, root, StripAll(rows))), c)
    requires forall i :: i in mine ==> i < |rows|
    ensures CountsRows(rows, mine, c)
  {
    var bare := ClassRows(rep, root, StripAll(rows));
    TotalCounts(bare, "");
    ClassSize(rep, root, rows, mine);
    assert Below(mine, |rows|) == mine;
    AddressesListed(rep, root, rows, mine, id, c);
  }

  lemma {:induction false} PrintsOf(rep: map<string, string>, root: string, rows: seq<Row>, mine: set<nat>, f: string)
    requires Picks(rep, root, rows, mine)
    ensures Total(ClassRows(rep, root, StripAll(rows))).fps[f] == Occurs(rows, mine, f)
    ensures Occurs(rows, mine, f) > 0 <==> HasPrint(rows, mine, f)
  {
    TotalCounts(ClassRows(rep, root, StripAll(rows)), f);
    ClassOccurs(rep, root, rows, mine, f);
    OccursIff(rows, mine, f);
  }

  lemma {:induction false} OccursIff(rows: seq<Row>, mine: set<nat>, f: string)
    ensures Occurs(rows, mine, f) > 0 <==> HasPrint(rows, mine, f)
  {
    if rows != [] {
      var n := |rows| - 1;
      OccursIff(rows[..n], mine, f);
      if i :| Belongs(rows[..n], mine, i) && f in rows[..n][i].fp {
        assert Belongs(rows, mine, i) && f in rows[i].fp;
      }
      if i :| Belongs(rows, mine, i) && f in rows[i].fp {
        assert i == n || (Belongs(rows[..n], mine, i) && f in rows[..n][i].fp);
      }
      assert n in mine ==> Belongs(rows, mine, n);
      assert f in rows[n].fp <==> f in multiset(rows[n].fp);
    }
  }

  /** The representative of a class is its least fingerprint. */
  lemma {:induction false} RootIsLeastPrint(rep: map<string, string>, root: string, rows: seq<Row>, mine: set<nat>)
    requires Partition(Edges(rows), rep) && Picks(rep, root, rows, mine) && exists i :: Belongs(rows, mine, i)
    ensures IsLeast(rows, mine, root)
  {
    forall f | HasPrint(rows, mine, f)
      ensures f in rep && rep[f] == root && (f == root || Less(root, f))
    {
      PrintOfClass(rep, root, rows, mine, f);
      LessTotal(f, root);
    }
    RootOccurs(rep, root, rows, mine);
  }

  lemma {:induction false} PrintOfClass(
    rep: map<string, string>, root: string, rows: seq<Row>, mine: set<nat>, f: string)
    requires Partition(Edges(rows), rep) && Picks(rep, root, rows, mine) && HasPrint(rows, mine, f)
    ensures f in rep && rep[f] == root && !Less(f, root)
  {
    var i :| Belongs(rows, mine, i) && f in rows[i].fp;
    assert rows[i] in rows && FpSet(rows[i].fp) in Edges(rows);
    assert f in FpSet(rows[i].fp);
    var g :| g in Strip(rows[i]).fp && g in rep && rep[g] == root;
    assert g in FpSet(rows[i].fp);
    LinkedInRow(Edges(rows), FpSet(rows[i].fp), f, g);
    assert Linked(Edges(rows), f, f) by {
      LinkedInRow(Edges(rows), FpSet(rows[i].fp), f, f);
    }
  }

  lemma {:induction false} RootOccurs(rep: map<string, string>, root: string, rows: seq<Row>, mine: set<nat>)
    requires Partition(Edges(rows), rep) && Picks(rep, root, rows, mine) && exists i :: Belongs(rows, mine, i)
    ensures HasPrint(rows, mine, root)
  {
    var i :| Belongs(rows, mine, i);
    var g :| g in Strip(rows[i]).fp && g in rep && rep[g] == root;
    assert Linked(Edges(rows), g, root);
    var c :| ChainFrom(Edges(rows), c, g, root);
    var last := c[|c| - 1];
    assert last in Edges(rows);
    var r :| r in rows && FpSet(r.fp) == last;
    var j :| 0 <= j < |rows| && rows[j] == r;
    assert root in rows[j].fp && root in Strip(rows[j]).fp;
    assert InClass(rep, root, Strip(rows[j]));
    assert Belongs(rows, mine, j);
  }

  lemma {:induction false} PrintsNamed(
    rep: map<string, string>, root: string, rows: seq<Row>, mine: set<nat>, id: string -> string, c: Campaign)
    requires Partition(Edges(rows), rep) && Picks(rep, root, rows, mine) && exists i :: Belongs(rows, mine, i)
    requires IsCampaign(id, root, Summary(ClassRows(rep, root, StripAll(rows))), c)
    ensures NamesPrints(rows, mine, id, c)
  {
    var fps := Total(ClassRows(rep, root, StripAll(rows))).fps;
    PrintsOf(rep, root, rows, mine, c.name);
    forall f | HasPrint(rows, mine, f)
      ensures || Occurs(rows, mine, f) < Occurs(rows, mine, c.name)
              || (Occurs(rows, mine, f) == Occurs(rows, mine, c.name) && (f == c.name || Less(c.name, f)))
    {
      PrintsOf(rep, root, rows, mine, f);
      assert f in fps;
      LessTotal(f, c.name);
    }
    RootIsLeastPrint(rep, root, rows, mine);
  }

  lemma {:induction false} RowsDated(
    rep: map<string, string>, root: string, rows: seq<Row>, mine: set<nat>, id: string -> string, c: Campaign)
    requires Picks(rep, root, rows, mine) && ClassRows(rep, root, StripAll(rows)) != []
    requires IsCampaign(id, root, Summary(ClassRows(rep, root, StripAll(rows))), c)
    ensures DatesRows(rows, mine, c)
  {
    var bare := ClassRows(rep, root, StripAll(rows));
    ClassTimes(rep, root, rows, mine);
    TotalLast(bare);
    TimesIn(bare);
    FirstSeenIsMinimumIff(Times(bare));
  }

  lemma {:induction false} TimesIn(rows: seq<Bare>)
    ensures forall t :: t in Times(rows) <==> exists r :: r in rows && r.time == t
  {
    forall t
      ensures t in Times(rows) <==> exists r :: r in rows && r.time == t
    {
      if t in Times(rows) {
        var i :| 0 <= i < |rows| && Times(rows)[i] == t;
        assert rows[i] in rows;
      }
      if r :| r in rows && r.time == t {
        var i :| 0 <= i < |rows| && rows[i] == r;
        assert Times(rows)[i] == t;
      }
    }
  }

  // ---- Every campaign of the result ----

  ghost function RowsOf(rep: map<string, string>, root: string, rows: seq<Row>): set<nat> {
    set i | 0 <= i < |rows| && InClass(rep, root, Strip(rows[i]))
  }

  /** A row belongs to the class of its first fingerprint and to no other. */
  lemma {:induction false} ClassOf(rows: seq<Row>, rep: map<string, string>, i: nat, root: string)
    requires Partition(Edges(rows), rep) && WithPrints(rows, i)
    ensures rows[i].fp[0] in rep && (InClass(rep, root, Strip(rows[i])) <==> rep[rows[i].fp[0]] == root)
  {
    assert rows[i] in rows && FpSet(rows[i].fp) in Edges(rows);
    ClassOfRow(Edges(rows), rep, rows[i], root);
  }

  /** The classes of the forest are the connected groups of rows. */
  lemma {:induction false} ClassIsGroup(rows: seq<Row>, rep: map<string, string>, root: string)
    requires Partition(Edges(rows), rep) && RowsOf(rep, root, rows) != {}
    ensures IsGroup(rows, RowsOf(rep, root, rows))
  {
    var mine := RowsOf(rep, root, rows);
    forall i | i in mine
      ensures WithPrints(rows, i)
    {
      var f :| f in Strip(rows[i]).fp;
      assert f in rows[i].fp;
    }
    forall i, j | i in mine && WithPrints(rows, j)
      ensures j in mine <==> Connected(rows, i, j)
    {
      ClassOf(rows, rep, i, root);
      ClassOf(rows, rep, j, root);
      SameClassIffChain(rows, rep, i, j);
    }
  }

  lemma {:induction false} GroupMember(rows: seq<Row>, rep: map<string, string>, mine: set<nat>, i: nat, j: nat)
    requires Partition(Edges(rows), rep) && IsGroup(rows, mine) && i in mine && j < |rows|
    ensures rows[i].fp != [] && rows[i].fp[0] in rep
    ensures j in mine <==> InClass(rep, rep[rows[i].fp[0]], Strip(rows[j]))
  {
    assert WithPrints(rows, i);
    ClassOf(rows, rep, i, "");
    if WithPrints(rows, j) {
      ClassOf(rows, rep, j, rep[rows[i].fp[0]]);
      SameClassIffChain(rows, rep, i, j);
      assert Connected(rows, i, j) <==> j in mine;
    } else {
      assert Strip(rows[j]).fp == multiset{};
    }
  }

  lemma {:induction false} GroupIsClass(rows: seq<Row>, rep: map<string, string>, mine: set<nat>) returns (root: string)
    requires Partition(Edges(rows), rep) && IsGroup(rows, mine)
    ensures mine == RowsOf(rep, root, rows)
  {
    var i :| i in mine;
    GroupMember(rows, rep, mine, i, i);
    root := rep[rows[i].fp[0]];
    var all := RowsOf(rep, root, rows);
    forall j: nat
      ensures j in mine <==> j in all
    {
      if j < |rows| {
        GroupMember(rows, rep, mine, i, j);
      } else {
        assert !WithPrints(rows, j);
      }
    }
  }

  lemma {:induction false} CampaignDescribes(
    rows: seq<Row>, rep: map<string, string>, root: string, id: string -> string, c: Campaign)
    requires Partition(Edges(rows), rep) && ClassRows(rep, root, StripAll(rows)) != []
    requires IsCampaign(id, root, Summary(ClassRows(rep, root, StripAll(rows))), c)
    ensures IsGroup(rows, RowsOf(rep, root, rows)) && Describes(rows, RowsOf(rep, root, rows), id, c)
  {
    var mine := RowsOf(rep, root, rows);
    assert Picks(rep, root, rows, mine);
    var b := ClassRows(rep, root, StripAll(rows))[0];
    var i := ClassSource(rep, root, rows, mine, b);
    ClassIsGroup(rows, rep, root);
    FieldsListed(rep, root, rows, mine, id, c);
    RowsCounted(rep, root, rows, mine, id, c);
    PrintsNamed(rep, root, rows, mine, id, c);
    RowsDated(rep, root, rows, mine, id, c);
  }

  /** `c` comes before `d`: more addresses, on a tie more events, on a tie the smaller id. */
  predicate Outranks(c: Campaign, d: Campaign) {
    || c.ipCount > d.ipCount
    || (c.ipCount == d.ipCount && c.events > d.events)
    || (c.ipCount == d.ipCount && c.events == d.events && Less(c.id, d.id))
  }

  /** `c` is the campaign of a group of rows with enough addresses. */
  ghost predicate Tells(rows: seq<Row>, minIPs: int, id: string -> string, c: Campaign, mine: set<nat>) {
    IsGroup(rows, mine) && Describes(rows, mine, id, c) && c.ipCount >= minIPs
  }

  lemma {:induction false} ReportedTells(
    rows: seq<Row>, rep: map<string, string>, minIPs: int, id: string -> string, c: Campaign) returns (mine: set<nat>)
    requires Partition(Edges(rows), rep) && IsReported(rep, StripAll(rows), minIPs, id, c)
    ensures Tells(rows, minIPs, id, c, mine)
  {
    var root :| Qualifies(rep, StripAll(rows), minIPs, root)
                && IsCampaign(id, root, Summary(ClassRows(rep, root, StripAll(rows))), c);
    CampaignDescribes(rows, rep, root, id, c);
    mine := RowsOf(rep, root, rows);
  }

  lemma {:induction false} ClassAddresses(
    rows: seq<Row>, rep: map<string, string>, root: string, mine: set<nat>, ips: set<string>)
    requires Picks(rep, root, rows, mine) && IsAddresses(rows, mine, ips)
    ensures Total(ClassRows(rep, root, StripAll(rows))).ips == ips
  {
    var known := Total(ClassRows(rep, root, StripAll(rows))).ips;
    forall x
      ensures x in known <==> x in ips
    {
      AddressesOf(rep, root, rows, mine, x);
    }
  }

  lemma {:induction false} GroupReported(
    rows: seq<Row>, rep: map<string, string>, minIPs: int, id: string -> string, mine: set<nat>, ips: set<string>)
    returns (c: Campaign)
    requires Partition(Edges(rows), rep) && IsGroup(rows, mine) && IsAddresses(rows, mine, ips) && |ips| >= minIPs
    ensures IsReported(rep, StripAll(rows), minIPs, id, c) && Describes(rows, mine, id, c)
  {
    var root := GroupIsClass(rows, rep, mine);
    assert Picks(rep, root, rows, mine);
    var i :| i in mine;
    assert WithPrints(rows, i);
    SameFields(rep, root, rows, mine, i);
    ClassAddresses(rows, rep, root, mine, ips);
    assert Qualifies(rep, StripAll(rows), minIPs, root);
    c := ClassHasCampaign(rows, rep, id, root);
    CampaignDescribes(rows, rep, root, id, c);
  }

  ghost predicate IsAddresses(rows: seq<Row>, mine: set<nat>, ips: set<string>) {
    forall x :: x in ips <==> HasAddress(rows, mine, x)
  }

  /** The list is full of campaigns that are not behind `c`. */
  ghost predicate LeftOut(out: seq<Campaign>, limit: int, c: Campaign) {
    limit > 0 && |out| == limit && forall d :: d in out ==> !Outranks(c, d)
  }

  lemma {:induction false} BehindTheCut(full: seq<Campaign>, limit: int, c: Campaign)
    requires SortedBy(RanksBefore, full) && c in full
    ensures c in Cut(full, limit) || LeftOut(Cut(full, limit), limit, c)
  {
    var out := Cut(full, limit);
    var k :| 0 <= k < |full| && full[k] == c;
    if k < |out| {
      assert out[k] == c;
    } else {
      forall d | d in out
        ensures !Outranks(c, d)
      {
        var i :| 0 <= i < |out| && out[i] == d;
        assert full[i] == d && !RanksBefore(full[k], full[i]);
      }
    }
  }

  /** Every campaign is that of a group with enough addresses. */
  ghost predicate AllTell(rows: seq<Row>, minIPs: int, id: string -> string, out: seq<Campaign>) {
    forall k :: 0 <= k < |out| ==> SomeGroupTold(rows, minIPs, id, out[k])
  }

  ghost predicate SomeGroupTold(rows: seq<Row>, minIPs: int, id: string -> string, c: Campaign) {
    exists mine :: Tells(rows, minIPs, id, c, mine)
  }

  /** Every group with enough addresses is told of, unless the list is full without it. */
  ghost predicate NoneMissing(rows: seq<Row>, minIPs: int, limit: int, id: string -> string, out: seq<Campaign>) {
    forall mine, ips :: IsGroup(rows, mine) && IsAddresses(rows, mine, ips) && |ips| >= minIPs ==>
      ToldOrLeftOut(rows, limit, id, out, mine)
  }

  ghost predicate ToldOrLeftOut(rows: seq<Row>, limit: int, id: string -> string, out: seq<Campaign>, mine: set<nat>) {
    exists c :: Describes(rows, mine, id, c) && (c in out || LeftOut(out, limit, c))
  }

  ghost predicate RankedDown(out: seq<Campaign>) {
    forall i, j :: 0 <= i < j < |out| ==> !Outranks(out[j], out[i])
  }

  lemma {:induction false} RankingTells(
    rows: seq<Row>, rep: map<string, string>, minIPs: int, limit: int, id: string -> string, full: seq<Campaign>)
    requires Partition(Edges(rows), rep) && forall c :: c in full ==> IsReported(rep, StripAll(rows), minIPs, id, c)
    ensures AllTell(rows, minIPs, id, Cut(full, limit))
  {
    var out := Cut(full, limit);
    forall k | 0 <= k < |out|
      ensures SomeGroupTold(rows, minIPs, id, out[k])
    {
      assert out[k] == full[k] && full[k] in full;
      var mine := ReportedTells(rows, rep, minIPs, id, out[k]);
    }
  }

  lemma {:induction false} RankingComplete(
    rows: seq<Row>, rep: map<string, string>, minIPs: int, limit: int, id: string -> string, full: seq<Campaign>)
    requires Partition(Edges(rows), rep) && forall c :: IsReported(rep, StripAll(rows), minIPs, id, c) ==> c in full
    requires SortedBy(RanksBefore, full)
    ensures NoneMissing(rows, minIPs, limit, id, Cut(full, limit))
  {
    forall mine, ips | IsGroup(rows, mine) && IsAddresses(rows, mine, ips) && |ips| >= minIPs
      ensures ToldOrLeftOut(rows, limit, id, Cut(full, limit), mine)
    {
      var c := GroupReported(rows, rep, minIPs, id, mine, ips);
      BehindTheCut(full, limit, c);
    }
  }

  lemma {:induction false} CutRanked(full: seq<Campaign>, limit: int)
    requires SortedBy(RanksBefore, full) && Distinct(full)
    ensures RankedDown(Cut(full, limit)) && Distinct(Cut(full, limit))
  {
    var out := Cut(full, limit);
    forall i, j | 0 <= i < j < |out|
      ensures !Outranks(out[j], out[i]) && out[i] != out[j]
    {
      assert out[i] == full[i] && out[j] == full[j] && !RanksBefore(full[j], full[i]);
    }
  }

  /** Every campaign of the result describes a connected group of rows with enough addresses, in all its fields; the
      list is ranked, and a group with enough addresses that is not in it ranks before none of a full list. */
  lemma {:induction false} ClusteringMeans(
    rows: seq<Row>, minIPs: int, limit: int, id: string -> string, out: seq<Campaign>)
    requires IsClustering(rows, minIPs, limit, id, out)
    ensures AllTell(rows, minIPs, id, out) && NoneMissing(rows, minIPs, limit, id, out)
    ensures RankedDown(out) && Distinct(out) && (limit > 0 ==> |out| <= limit)
  {
    var full :| Ranking(rows, minIPs, id, full) && out == Cut(full, limit);
    var rep :| Partition(Edges(rows), rep) && forall c :: c in full <==> IsReported(rep, StripAll(rows), minIPs, id, c);
    RankingTells(rows, rep, minIPs, limit, id, full);
    RankingComplete(rows, rep, minIPs, limit, id, full);
    CutRanked(full, limit);
  }
}
