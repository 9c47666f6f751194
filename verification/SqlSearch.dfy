/** The search compiler: parsed conditions to AND-ed WHERE clauses with positional
    arguments (`whereFor`, `QueryHistory`), and the in-memory evaluator `matchTerms`. */
module SqlSearch {
  import opened SqlText

  /** One parsed search condition; an empty key marks free text. */
  datatype Cond = Cond(key: string, sql: seq<Tok>, args: seq<Arg>, neg: bool)

  /** The condition's text as a piece with the meaning it has on its own. */
  function PieceOf(c: Cond): Piece {
    var r := ParsePrimary(c.sql, c.args);
    Piece(c.sql, c.args, if r.Parsed? then r.expr else Leaf("", []))
  }

  /** The text is one self-contained condition whose placeholders take exactly its arguments. */
  ghost predicate Complete(c: Cond) {
    ReadsAsPrimary(PieceOf(c))
  }

  lemma {:induction false} CompletePiece(key: string, p: Piece, neg: bool)
    requires ReadsAsPrimary(p)
    ensures PieceOf(Cond(key, p.toks, p.args, neg)) == p && Complete(Cond(key, p.toks, p.args, neg))
  {
    assert p.toks + [] == p.toks && p.args + [] == p.args;
    assert ParsePrimary(p.toks + [], p.args + []) == Parsed(p.expr, [], []);
  }

  /** Free-text and negated conditions are emitted where they stand. */
  predicate Immediate(c: Cond) {
    c.key == "" || c.neg
  }

  // ---- What whereFor emits ----

  function ImmediatePiece(c: Cond): Piece {
    if c.neg then Negated(PieceOf(c)) else PieceOf(c)
  }

  function ImmediatePieces(conds: seq<Cond>): seq<Piece> {
    if conds == [] then []
    else
      var n := |conds| - 1;
      if Immediate(conds[n]) then ImmediatePieces(conds[..n]) + [ImmediatePiece(conds[n])] else ImmediatePieces(conds[..n])
  }

  /** Keys of the positive keyed conditions in order of first appearance. */
  function KeyOrder(conds: seq<Cond>): seq<string> {
    if conds == [] then []
    else
      var n := |conds| - 1;
      var before := KeyOrder(conds[..n]);
      if Immediate(conds[n]) || conds[n].key in before then before else before + [conds[n].key]
  }

  /** The positive conditions of one key, in order. */
  function Group(conds: seq<Cond>, k: string): seq<Cond> {
    if conds == [] then []
    else
      var n := |conds| - 1;
      if !Immediate(conds[n]) && conds[n].key == k then Group(conds[..n], k) + [conds[n]] else Group(conds[..n], k)
  }

  function Alternatives(cs: seq<Cond>): (ps: seq<Piece>)
    ensures |ps| == |cs| && forall i :: 0 <= i < |cs| ==> ps[i] == Parens(PieceOf(cs[i]))
  {
    seq(|cs|, i requires 0 <= i < |cs| => Parens(PieceOf(cs[i])))
  }

  function GroupPiece(cs: seq<Cond>): Piece
    requires cs != []
  {
    Parens(OrPiece(Alternatives(cs)))
  }

  lemma {:induction false} GroupNonEmpty(conds: seq<Cond>, k: string)
    ensures k in KeyOrder(conds) <==> Group(conds, k) != []
  {
    if conds != [] {
      GroupNonEmpty(conds[..|conds| - 1], k);
    }
  }

  function GroupPieces(conds: seq<Cond>, keys: seq<string>): (ps: seq<Piece>)
    requires forall i :: 0 <= i < |keys| ==> Group(conds, keys[i]) != []
    ensures |ps| == |keys| && forall i :: 0 <= i < |keys| ==> ps[i] == GroupPiece(Group(conds, keys[i]))
  {
    seq(|keys|, i requires 0 <= i < |keys| => GroupPiece(Group(conds, keys[i])))
  }

  function WherePieces(conds: seq<Cond>): seq<Piece> {
    var keys := KeyOrder(conds);
    assert forall i :: 0 <= i < |keys| ==> Group(conds, keys[i]) != [] by {
      forall i | 0 <= i < |keys|
        ensures Group(conds, keys[i]) != []
      {
        GroupNonEmpty(conds, keys[i]);
      }
    }
    ImmediatePieces(conds) + GroupPieces(conds, keys)
  }

  /** The text and arguments of one key's alternatives. */
  method RenderGroup(cs: seq<Cond>) returns (text: seq<Tok>, args: seq<Arg>)
    requires cs != []
    ensures text == GroupPiece(cs).toks && args == GroupPiece(cs).args
  {
    var parts: seq<seq<Tok>> := [];
    args := [];
    for n := 0 to |cs|
      invariant parts == TextOf(Alternatives(cs[..n])) && args == ArgsOf(Alternatives(cs[..n]))
    {
      assert cs[..n + 1] == cs[..n] + [cs[n]];
      assert Alternatives(cs[..n + 1]) == Alternatives(cs[..n]) + [Parens(PieceOf(cs[n]))];
      ArgsSnoc(Alternatives(cs[..n]), Parens(PieceOf(cs[n])));
      parts := parts + [[LParen] + cs[n].sql + [RParen]];
      args := args + cs[n].args;
    }
    assert cs[..|cs|] == cs;
    text := [LParen] + Join(OrTok, parts) + [RParen];
  }

  /** The state of the first loop of `whereFor` after `conds`. */
  ghost predicate Collected(
    conds: seq<Cond>, sql: seq<seq<Tok>>, args: seq<Arg>, groups: map<string, seq<Cond>>, order: seq<string>) {
    && sql == TextOf(ImmediatePieces(conds)) && args == ArgsOf(ImmediatePieces(conds))
    && order == KeyOrder(conds)
    && (forall k :: k in groups <==> k in order)
    && forall k :: k in groups ==> groups[k] == Group(conds, k)
  }

  lemma {:induction false} CollectImmediate(
    conds: seq<Cond>, c: Cond, sql: seq<seq<Tok>>, args: seq<Arg>, groups: map<string, seq<Cond>>,
    order: seq<string>)
    requires Collected(conds, sql, args, groups, order) && Immediate(c)
    ensures Collected(conds + [c], sql + [ImmediatePiece(c).toks], args + c.args, groups, order)
  {
    assert (conds + [c])[..|conds|] == conds;
    ArgsSnoc(ImmediatePieces(conds), ImmediatePiece(c));
    forall k
      ensures Group(conds + [c], k) == Group(conds, k)
    {
      GroupSnoc(conds, c, k);
    }
  }

  lemma {:induction false} KeyedSnoc(conds: seq<Cond>, c: Cond)
    requires !Immediate(c)
    ensures ImmediatePieces(conds + [c]) == ImmediatePieces(conds)
    ensures KeyOrder(conds + [c]) == if c.key in KeyOrder(conds) then KeyOrder(conds) else KeyOrder(conds) + [c.key]
  {
    assert (conds + [c])[..|conds|] == conds;
  }

  lemma {:induction false} CollectKeyed(
    conds: seq<Cond>, c: Cond, sql: seq<seq<Tok>>, args: seq<Arg>, groups: map<string, seq<Cond>>,
    order: seq<string>)
    requires Collected(conds, sql, args, groups, order) && !Immediate(c)
    ensures Collected(conds + [c], sql, args, groups[c.key := (if c.key in groups then groups[c.key] else []) + [c]],
                      if c.key in groups then order else order + [c.key])
  {
    KeyedSnoc(conds, c);
    GroupNonEmpty(conds, c.key);
    assert c.key in groups <==> c.key in order;
    forall k
      ensures Group(conds + [c], k) == if k == c.key then Group(conds, k) + [c] else Group(conds, k)
    {
      GroupSnoc(conds, c, k);
    }
  }

  lemma {:induction false} GroupSnoc(conds: seq<Cond>, c: Cond, k: string)
    ensures Group(conds + [c], k) == if !Immediate(c) && k == c.key then Group(conds, k) + [c] else Group(conds, k)
  {
    assert (conds + [c])[..|conds|] == conds;
  }

  /** `whereFor`. */
  method WhereFor(conds: seq<Cond>) returns (sql: seq<seq<Tok>>, args: seq<Arg>)
    ensures sql == TextOf(WherePieces(conds)) && args == ArgsOf(WherePieces(conds))
  {
    var groups: map<string, seq<Cond>> := map[];
    var order: seq<string> := [];
    sql, args := [], [];
    for n := 0 to |conds|
      invariant Collected(conds[..n], sql, args, groups, order)
    {
      var c := conds[n];
      assert conds[..n + 1] == conds[..n] + [c];
      if c.key == "" || c.neg {
        CollectImmediate(conds[..n], c, sql, args, groups, order);
        var s := c.sql;
        if c.neg {
          s := [NotTok] + ([LParen] + s + [RParen]);
        }
        sql := sql + [s];
        args := args + c.args;
      } else {
        CollectKeyed(conds[..n], c, sql, args, groups, order);
        if c.key !in groups {
          order := order + [c.key];
        }
        groups := groups[c.key := (if c.key in groups then groups[c.key] else []) + [c]];
      }
    }
    assert conds[..|conds|] == conds;
    sql, args := AppendGroups(conds, groups, order, sql, args);
  }

  /** The second loop of `whereFor`. */
  method AppendGroups(
    conds: seq<Cond>, groups: map<string, seq<Cond>>, order: seq<string>, sql0: seq<seq<Tok>>, args0: seq<Arg>)
    returns (sql: seq<seq<Tok>>, args: seq<Arg>)
    requires sql0 == TextOf(ImmediatePieces(conds)) && args0 == ArgsOf(ImmediatePieces(conds)) && order == KeyOrder(conds)
    requires forall n :: 0 <= n < |order| ==> order[n] in groups && groups[order[n]] == Group(conds, order[n])
    ensures sql == TextOf(WherePieces(conds)) && args == ArgsOf(WherePieces(conds))
  {
    sql, args := sql0, args0;
    EmittedFirst(conds);
    for n := 0 to |order|
      invariant Emitted(conds, n, sql, args)
    {
      var group := groups[order[n]];
      EmittedNext(conds, n, sql, args, group);
      var text, more := RenderGroup(group);
      sql := sql + [text];
      args := args + more;
    }
    EmittedAll(conds, sql, args);
  }

  /** The immediate clauses and those of the first `n` keys. */
  ghost predicate Emitted(conds: seq<Cond>, n: nat, sql: seq<seq<Tok>>, args: seq<Arg>) {
    var ps, m := WherePieces(conds), |ImmediatePieces(conds)|;
    m + n <= |ps| && sql == TextOf(ps[..m + n]) && args == ArgsOf(ps[..m + n])
  }

  lemma {:induction false} EmittedFirst(conds: seq<Cond>)
    ensures Emitted(conds, 0, TextOf(ImmediatePieces(conds)), ArgsOf(ImmediatePieces(conds)))
  {
    assert WherePieces(conds)[..|ImmediatePieces(conds)|] == ImmediatePieces(conds);
  }

  lemma {:induction false} EmittedAll(conds: seq<Cond>, sql: seq<seq<Tok>>, args: seq<Arg>)
    requires Emitted(conds, |KeyOrder(conds)|, sql, args)
    ensures sql == TextOf(WherePieces(conds)) && args == ArgsOf(WherePieces(conds))
  {
    var ps := WherePieces(conds);
    assert ps[..|ps|] == ps;
  }

  lemma {:induction false} WherePieceAt(conds: seq<Cond>, n: nat)
    requires n < |KeyOrder(conds)|
    ensures var ps, m, k := WherePieces(conds), |ImmediatePieces(conds)|, KeyOrder(conds)[n];
            Group(conds, k) != [] && m + n < |ps| && ps[m + n] == GroupPiece(Group(conds, k))
  {
    GroupNonEmpty(conds, KeyOrder(conds)[n]);
  }

  lemma {:induction false} PrefixNext(ps: seq<Piece>, i: nat)
    requires i < |ps|
    ensures TextOf(ps[..i + 1]) == TextOf(ps[..i]) + [ps[i].toks] && ArgsOf(ps[..i + 1]) == ArgsOf(ps[..i]) + ps[i].args
  {
    assert ps[..i + 1] == ps[..i] + [ps[i]];
    ArgsSnoc(ps[..i], ps[i]);
  }

  lemma {:induction false} EmittedNext(conds: seq<Cond>, n: nat, sql: seq<seq<Tok>>, args: seq<Arg>, group: seq<Cond>)
    requires n < |KeyOrder(conds)| && Emitted(conds, n, sql, args) && group == Group(conds, KeyOrder(conds)[n])
    ensures group != [] && Emitted(conds, n + 1, sql + [GroupPiece(group).toks], args + GroupPiece(group).args)
  {
    WherePieceAt(conds, n);
    PrefixNext(WherePieces(conds), |ImmediatePieces(conds)| + n);
  }

  // ---- What a row must satisfy ----

  function Value(sem: (string, seq<Arg>) -> Tri, c: Cond): Tri {
    Eval(sem, PieceOf(c).expr)
  }

  /** Some positive condition of key `k` is true. */
  ghost predicate AlternativeHolds(sem: (string, seq<Arg>) -> Tri, conds: seq<Cond>, k: string) {
    exists j :: 0 <= j < |conds| && !conds[j].neg && conds[j].key == k && Value(sem, conds[j]) == True
  }

  /** Free text must be true, a negated condition must be false and not NULL, and every key used
      positively must have a true alternative. */
  ghost predicate Satisfies(sem: (string, seq<Arg>) -> Tri, conds: seq<Cond>) {
    forall i :: 0 <= i < |conds| ==>
                  if conds[i].neg then Value(sem, conds[i]) == False
                  else if conds[i].key == "" then Value(sem, conds[i]) == True
                  else AlternativeHolds(sem, conds, conds[i].key)
  }

  ghost predicate AllComplete(conds: seq<Cond>) {
    forall i :: 0 <= i < |conds| ==> Complete(conds[i])
  }

  /** The free-text conditions are true and the negated ones false. */
  predicate ImmediatesHold(sem: (string, seq<Arg>) -> Tri, conds: seq<Cond>) {
    forall i :: 0 <= i < |conds| && Immediate(conds[i]) ==> ImmediateHolds(sem, conds[i])
  }

  predicate ImmediateHolds(sem: (string, seq<Arg>) -> Tri, c: Cond) {
    Value(sem, c) == if c.neg then False else True
  }

  lemma {:induction false} ImmediatesSnoc(sem: (string, seq<Arg>) -> Tri, conds: seq<Cond>)
    requires conds != []
    ensures var n := |conds| - 1;
            ImmediatesHold(sem, conds) <==>
            ImmediatesHold(sem, conds[..n]) && (Immediate(conds[n]) ==> ImmediateHolds(sem, conds[n]))
  {
    var n := |conds| - 1;
    assert forall i :: 0 <= i < n ==> conds[..n][i] == conds[i];
  }

  lemma {:induction false} ImmediateReads(conds: seq<Cond>, sem: (string, seq<Arg>) -> Tri)
    requires AllComplete(conds)
    ensures AllRead(ImmediatePieces(conds))
    ensures AllTrue(sem, ImmediatePieces(conds)) <==> ImmediatesHold(sem, conds)
  {
    if conds != [] {
      var n := |conds| - 1;
      assert AllComplete(conds[..n]);
      ImmediateReads(conds[..n], sem);
      ImmediatesSnoc(sem, conds);
      if Immediate(conds[n]) {
        var init, last := ImmediatePieces(conds[..n]), ImmediatePiece(conds[n]);
        ImmediatePieceReads(conds[n]);
        AllReadConcat(init, [last]);
        AllTrueConcat(sem, init, [last]);
        assert AllTrue(sem, [last]) <==> Eval(sem, [last][0].expr) == True;
      }
    }
  }

  lemma {:induction false} ImmediatePieceReads(c: Cond)
    requires Complete(c)
    ensures ReadsAsNot(ImmediatePiece(c))
  {
    PrimaryReadsAsNot(PieceOf(c));
    NotReadsAsOr(PieceOf(c));
    if c.neg {
      NegatedReads(PieceOf(c));
    }
  }

  lemma {:induction false} GroupMembers(conds: seq<Cond>, k: string, c: Cond)
    ensures c in Group(conds, k) <==> c in conds && !Immediate(c) && c.key == k
  {
    if conds != [] {
      var n := |conds| - 1;
      GroupMembers(conds[..n], k, c);
      assert conds == conds[..n] + [conds[n]];
    }
  }

  lemma {:induction false} GroupReads(cs: seq<Cond>, sem: (string, seq<Arg>) -> Tri)
    requires cs != [] && AllComplete(cs)
    ensures ReadsAsNot(GroupPiece(cs))
    ensures Eval(sem, GroupPiece(cs).expr) == True <==> exists i :: 0 <= i < |cs| && Value(sem, cs[i]) == True
  {
    var alts := Alternatives(cs);
    forall i | 0 <= i < |alts|
      ensures ReadsAsNot(alts[i])
    {
      assert Complete(cs[i]);
      PrimaryReadsAsNot(PieceOf(cs[i]));
      NotReadsAsOr(PieceOf(cs[i]));
      ParensRead(PieceOf(cs[i]));
      PrimaryReadsAsNot(Parens(PieceOf(cs[i])));
    }
    OrJoinReads(alts);
    ParensRead(OrPiece(alts));
    PrimaryReadsAsNot(GroupPiece(cs));
    DisjAllTrue(sem, alts[0].expr, alts[1..]);
    assert forall i :: 0 <= i < |cs| ==> Eval(sem, alts[i].expr) == Value(sem, cs[i]);
    assert forall i :: 1 <= i < |cs| ==> alts[1..][i - 1] == alts[i];
    if i :| 0 <= i < |cs| && Value(sem, cs[i]) == True {
      assert i == 0 || Eval(sem, alts[1..][i - 1].expr) == True;
    }
  }

  lemma {:induction false} KeyGroupReads(conds: seq<Cond>, k: string, sem: (string, seq<Arg>) -> Tri)
    requires AllComplete(conds) && Group(conds, k) != []
    ensures ReadsAsNot(GroupPiece(Group(conds, k)))
    ensures Eval(sem, GroupPiece(Group(conds, k)).expr) == True <==> AlternativeHolds(sem, conds, k)
  {
    var cs := Group(conds, k);
    forall i | 0 <= i < |cs|
      ensures cs[i] in conds && Complete(cs[i])
    {
      GroupMembers(conds, k, cs[i]);
    }
    GroupReads(cs, sem);
    GroupMembers(conds, k, cs[0]);
    if j :| 0 <= j < |conds| && !conds[j].neg && conds[j].key == k && Value(sem, conds[j]) == True {
      GroupMembers(conds, k, conds[j]);
    }
    if i :| 0 <= i < |cs| && Value(sem, cs[i]) == True {
      GroupMembers(conds, k, cs[i]);
      var j :| 0 <= j < |conds| && conds[j] == cs[i];
    }
  }

  lemma {:induction false} KeyOrderMembers(conds: seq<Cond>, k: string)
    ensures k in KeyOrder(conds) <==> exists i :: 0 <= i < |conds| && !Immediate(conds[i]) && conds[i].key == k
  {
    if conds != [] {
      var n := |conds| - 1;
      KeyOrderMembers(conds[..n], k);
      assert forall i :: 0 <= i < n ==> conds[i] == conds[..n][i];
    }
  }

  /** Every key used positively has a true alternative. */
  ghost predicate KeysHold(sem: (string, seq<Arg>) -> Tri, conds: seq<Cond>) {
    forall i :: 0 <= i < |KeyOrder(conds)| ==> AlternativeHolds(sem, conds, KeyOrder(conds)[i])
  }

  lemma {:induction false} GroupsRead(conds: seq<Cond>, sem: (string, seq<Arg>) -> Tri)
    requires AllComplete(conds)
    requires forall i :: 0 <= i < |KeyOrder(conds)| ==> Group(conds, KeyOrder(conds)[i]) != []
    ensures AllRead(GroupPieces(conds, KeyOrder(conds)))
    ensures AllTrue(sem, GroupPieces(conds, KeyOrder(conds))) <==> KeysHold(sem, conds)
  {
    var keys := KeyOrder(conds);
    var ps := GroupPieces(conds, keys);
    forall i | 0 <= i < |keys|
      ensures ReadsAsNot(ps[i]) && (Eval(sem, ps[i].expr) == True <==> AlternativeHolds(sem, conds, keys[i]))
    {
      KeyGroupReads(conds, keys[i], sem);
    }
  }

  lemma {:induction false} SatisfiesIff(conds: seq<Cond>, sem: (string, seq<Arg>) -> Tri)
    ensures Satisfies(sem, conds) <==> ImmediatesHold(sem, conds) && KeysHold(sem, conds)
  {
    var keys := KeyOrder(conds);
    if Satisfies(sem, conds) {
      forall j | 0 <= j < |keys|
        ensures AlternativeHolds(sem, conds, keys[j])
      {
        KeyOrderMembers(conds, keys[j]);
      }
    }
    if KeysHold(sem, conds) {
      forall i | 0 <= i < |conds| && !Immediate(conds[i])
        ensures AlternativeHolds(sem, conds, conds[i].key)
      {
        KeyOrderMembers(conds, conds[i].key);
        var j :| 0 <= j < |keys| && keys[j] == conds[i].key;
      }
    }
  }

  /** All emitted pieces can stand between ANDs, and they are all true exactly when the row satisfies
      the conditions. */
  lemma {:induction false} WherePiecesMean(conds: seq<Cond>, sem: (string, seq<Arg>) -> Tri)
    requires AllComplete(conds)
    ensures AllRead(WherePieces(conds)) && (AllTrue(sem, WherePieces(conds)) <==> Satisfies(sem, conds))
  {
    forall i | 0 <= i < |KeyOrder(conds)|
      ensures Group(conds, KeyOrder(conds)[i]) != []
    {
      GroupNonEmpty(conds, KeyOrder(conds)[i]);
    }
    var a, b := ImmediatePieces(conds), GroupPieces(conds, KeyOrder(conds));
    ImmediateReads(conds, sem);
    GroupsRead(conds, sem);
    AllReadConcat(a, b);
    AllTrueConcat(sem, a, b);
    SatisfiesIff(conds, sem);
  }

  /** Compiling conditions to text preserves their meaning: the text, read by SQL's own precedences
      with the arguments in their positions, keeps exactly the rows that satisfy the conditions. */
  lemma {:induction false} WhereKeepsIff(conds: seq<Cond>, sem: (string, seq<Arg>) -> Tri, more: seq<Arg>)
    requires AllComplete(conds)
    ensures Keeps(sem, TextOf(WherePieces(conds)), ArgsOf(WherePieces(conds)) + more) <==> Satisfies(sem, conds)
  {
    WherePiecesMean(conds, sem);
    AndKeepsIff(sem, WherePieces(conds), more);
  }
}
