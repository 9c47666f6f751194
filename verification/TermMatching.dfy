/** `matchTerms`, the in-memory evaluator of a term list, and its agreement with the
    compiled SQL. Whether a single term holds of an event is a parameter. */
module TermMatching {
  import opened Basics
  import opened SqlText
  import opened SqlSearch
  import opened QueryLanguage

  /** Group names: the key itself, or `word:N` for the N-th free word (no key contains a colon). */
  datatype GroupName = OfKey(key: string) | OfWord(n: nat)

  /** Number of positive free words in a list. */
  function Words(ts: seq<Term>): nat {
    if ts == [] then 0
    else Words(ts[..|ts| - 1]) + if IsWord(ts[|ts| - 1]) then 1 else 0
  }

  predicate IsWord(t: Term) {
    !t.neg && t.key.None?
  }

  /** The group of the positive term at position `i`. */
  function NameAt(ts: seq<Term>, i: nat): GroupName
    requires i < |ts|
  {
    if ts[i].key.Some? then OfKey(ts[i].key.value) else OfWord(Words(ts[..i]))
  }

  ghost predicate KeyHolds(holds: Term -> bool, ts: seq<Term>, k: string) {
    exists j :: 0 <= j < |ts| && !ts[j].neg && ts[j].key == Some(k) && holds(ts[j])
  }

  /** Negated terms do not hold, free words all hold, and each key used positively has a holding alternative. */
  ghost predicate Matches(holds: Term -> bool, ts: seq<Term>) {
    forall i :: 0 <= i < |ts| ==>
                  if ts[i].neg then !holds(ts[i])
                  else if ts[i].key.None? then holds(ts[i])
                  else KeyHolds(holds, ts, ts[i].key.value)
  }

  /** After the first `n` terms: the groups hold exactly the positive terms under their names. */
  ghost predicate Grouped(ts: seq<Term>, n: nat, groups: map<GroupName, seq<Term>>)
    requires n <= |ts|
  {
    && (forall i :: 0 <= i < n && !ts[i].neg ==> NameAt(ts, i) in groups && ts[i] in groups[NameAt(ts, i)])
    && forall g, t :: g in groups && t in groups[g] ==> From(ts, n, g, t)
  }

  ghost predicate From(ts: seq<Term>, n: nat, g: GroupName, t: Term)
    requires n <= |ts|
  {
    exists i :: 0 <= i < n && !ts[i].neg && NameAt(ts, i) == g && ts[i] == t
  }

  lemma {:induction false} GroupOneMore(ts: seq<Term>, n: nat, groups: map<GroupName, seq<Term>>)
    requires n < |ts| && Grouped(ts, n, groups) && !ts[n].neg
    ensures var g := NameAt(ts, n);
            Grouped(ts, n + 1, groups[g := (if g in groups then groups[g] else []) + [ts[n]]])
  {
    var g := NameAt(ts, n);
    var next := groups[g := (if g in groups then groups[g] else []) + [ts[n]]];
    forall h, t | h in next && t in next[h]
      ensures From(ts, n + 1, h, t)
    {
      if h in groups && t in groups[h] {
        assert From(ts, n, h, t);
      } else {
        assert h == g && t == ts[n];
      }
    }
  }

  lemma {:induction false} GroupSkip(ts: seq<Term>, n: nat, groups: map<GroupName, seq<Term>>)
    requires n < |ts| && Grouped(ts, n, groups) && ts[n].neg
    ensures Grouped(ts, n + 1, groups)
  {
    forall h, t | h in groups && t in groups[h]
      ensures From(ts, n + 1, h, t)
    {
      assert From(ts, n, h, t);
    }
  }

  lemma {:induction false} WordsGrow(ts: seq<Term>, i: nat, j: nat)
    requires i <= j <= |ts|
    ensures Words(ts[..i]) <= Words(ts[..j])
    decreases j
  {
    if i < j {
      assert ts[..j][..j - 1] == ts[..j - 1];
      WordsGrow(ts, i, j - 1);
    }
  }

  /** Different free words have different groups. */
  lemma {:induction false} WordsApart(ts: seq<Term>, i: nat, j: nat)
    requires i < |ts| && j < |ts| && IsWord(ts[i]) && !ts[j].neg && NameAt(ts, i) == NameAt(ts, j)
    ensures i == j
  {
    var a, b := if i < j then i else j, if i < j then j else i;
    if a < b {
      assert ts[..a + 1][..a] == ts[..a];
      WordsGrow(ts, a + 1, b);
    }
  }

  /** Some term of the list holds. */
  predicate AnyHolds(holds: Term -> bool, list: seq<Term>) {
    exists i :: 0 <= i < |list| && holds(list[i])
  }

  lemma {:induction false} GroupDecides(holds: Term -> bool, ts: seq<Term>, groups: map<GroupName, seq<Term>>, i: nat)
    requires Grouped(ts, |ts|, groups) && i < |ts| && !ts[i].neg
    ensures NameAt(ts, i) in groups
    ensures AnyHolds(holds, groups[NameAt(ts, i)]) <==>
            if ts[i].key.None? then holds(ts[i]) else KeyHolds(holds, ts, ts[i].key.value)
  {
    var g := NameAt(ts, i);
    if k :| 0 <= k < |groups[g]| && holds(groups[g][k]) {
      assert groups[g][k] in groups[g] && From(ts, |ts|, g, groups[g][k]);
      var j :| 0 <= j < |ts| && !ts[j].neg && NameAt(ts, j) == g && ts[j] == groups[g][k];
      if ts[i].key.None? {
        WordsApart(ts, i, j);
      }
    }
    if ts[i].key.None? && holds(ts[i]) {
      var k :| 0 <= k < |groups[g]| && groups[g][k] == ts[i];
    }
    if ts[i].key.Some? && KeyHolds(holds, ts, ts[i].key.value) {
      var j :| 0 <= j < |ts| && !ts[j].neg && ts[j].key == ts[i].key && holds(ts[j]);
      assert NameAt(ts, j) == g && ts[j] in groups[g];
      var k :| 0 <= k < |groups[g]| && groups[g][k] == ts[j];
    }
  }

  lemma {:induction false} GroupsDecide(holds: Term -> bool, ts: seq<Term>, groups: map<GroupName, seq<Term>>)
    requires Grouped(ts, |ts|, groups) && (forall g :: g in groups ==> groups[g] != [])
    requires forall i :: 0 <= i < |ts| && ts[i].neg ==> !holds(ts[i])
    ensures (forall g :: g in groups ==> AnyHolds(holds, groups[g])) <==> Matches(holds, ts)
  {
    forall i | 0 <= i < |ts| && !ts[i].neg
      ensures NameAt(ts, i) in groups
      ensures AnyHolds(holds, groups[NameAt(ts, i)]) <==>
              if ts[i].key.None? then holds(ts[i]) else KeyHolds(holds, ts, ts[i].key.value)
    {
      GroupDecides(holds, ts, groups, i);
    }
    if Matches(holds, ts) {
      forall g | g in groups
        ensures AnyHolds(holds, groups[g])
      {
        assert groups[g][0] in groups[g] && From(ts, |ts|, g, groups[g][0]);
        var i :| 0 <= i < |ts| && !ts[i].neg && NameAt(ts, i) == g;
      }
    }
  }

  /** `matchTerms`, for any iteration order of the groups. */
  method MatchTerms(holds: Term -> bool, ts: seq<Term>) returns (ok: bool)
    ensures ok <==> Matches(holds, ts)
  {
    var groups: map<GroupName, seq<Term>> := map[];
    var words := 0;
    for n := 0 to |ts|
      invariant Grouped(ts, n, groups) && words == Words(ts[..n])
      invariant forall g :: g in groups ==> groups[g] != []
      invariant forall i :: 0 <= i < n && ts[i].neg ==> !holds(ts[i])
    {
      assert ts[..n + 1][..n] == ts[..n];
      if ts[n].neg {
        if holds(ts[n]) {
          return false;
        }
        GroupSkip(ts, n, groups);
      } else {
        GroupOneMore(ts, n, groups);
        var g := if ts[n].key.Some? then OfKey(ts[n].key.value) else OfWord(words);
        if ts[n].key.None? {
          words := words + 1;
        }
        groups := groups[g := (if g in groups then groups[g] else []) + [ts[n]]];
      }
    }
    GroupsDecide(holds, ts, groups);
    var rest := groups.Keys;
    while rest != {}
      invariant rest <= groups.Keys
      invariant forall g :: g in groups && g !in rest ==> AnyHolds(holds, groups[g])
    {
      var g :| g in rest;
      if !AnyHolds(holds, groups[g]) {
        return false;
      }
      rest := rest - {g};
    }
    ok := true;
  }

  /** Where no condition is NULL and each condition decides as its term does, the compiled query keeps
      exactly the rows that `matchTerms` accepts. */
  lemma {:induction false} CompiledAgreesWithMatcher(
    holds: Term -> bool, ts: seq<Term>, conds: seq<Cond>, sem: (string, seq<Arg>) -> Tri, more: seq<Arg>)
    requires |conds| == |ts| && AllComplete(conds)
    requires forall i :: 0 <= i < |ts| ==>
               && conds[i].neg == ts[i].neg
               && (if ts[i].key.Some? then ts[i].key.value != "" && conds[i].key == ts[i].key.value else conds[i].key == "")
               && Value(sem, conds[i]) == if holds(ts[i]) then True else False
    ensures Keeps(sem, TextOf(WherePieces(conds)), ArgsOf(WherePieces(conds)) + more) <==> Matches(holds, ts)
  {
    WhereKeepsIff(conds, sem, more);
    forall k | k != ""
      ensures AlternativeHolds(sem, conds, k) <==> KeyHolds(holds, ts, k)
    {
      if j :| 0 <= j < |ts| && !ts[j].neg && ts[j].key == Some(k) && holds(ts[j]) {
        assert conds[j].key == k;
      }
      if j :| 0 <= j < |conds| && !conds[j].neg && conds[j].key == k && Value(sem, conds[j]) == True {
        assert ts[j].key == Some(k);
      }
    }
  }
}
