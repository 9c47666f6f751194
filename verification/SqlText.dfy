/** WHERE clauses as text: a token stream with positional placeholders, read by a parser
    with SQL's precedences, and evaluated in three-valued logic. */
module SqlText {

  datatype Arg = Str(text: string) | Num(value: int)

  /** An atomic condition such as `asn = ?` is one token. */
  datatype Tok = LParen | RParen | NotTok | AndTok | OrTok | Atom(text: string)

  /** Number of placeholders in a text. */
  function Holes(s: string): nat {
    if s == "" then 0 else (if s[0] == '?' then 1 else 0) + Holes(s[1..])
  }

  /** SQL truth values. */
  datatype Tri = True | False | Null

  /** A parsed condition, arguments attached to their atoms. */
  datatype Expr = Leaf(text: string, args: seq<Arg>) | Neg(e: Expr) | Conj(l: Expr, r: Expr) | Disj(l: Expr, r: Expr)

  datatype Parsed = NoParse | Parsed(expr: Expr, toks: seq<Tok>, args: seq<Arg>)

  // ---- Parsing: OR binds weakest, then AND, then NOT; placeholders take arguments left to right ----

  function ParseOr(toks: seq<Tok>, args: seq<Arg>): (r: Parsed)
    ensures r.Parsed? ==> |r.toks| < |toks|
    decreases |toks|, 3
  {
    var l := ParseAnd(toks, args);
    if l.NoParse? then NoParse else OrTail(l.expr, l.toks, l.args)
  }

  function OrTail(e: Expr, toks: seq<Tok>, args: seq<Arg>): (r: Parsed)
    ensures r.Parsed? ==> |r.toks| <= |toks|
    decreases |toks|, 4
  {
    if toks == [] || toks[0] != OrTok then Parsed(e, toks, args)
    else
      var r := ParseAnd(toks[1..], args);
      if r.NoParse? then NoParse else OrTail(Disj(e, r.expr), r.toks, r.args)
  }

  function ParseAnd(toks: seq<Tok>, args: seq<Arg>): (r: Parsed)
    ensures r.Parsed? ==> |r.toks| < |toks|
    decreases |toks|, 2
  {
    var l := ParseNot(toks, args);
    if l.NoParse? then NoParse else AndTail(l.expr, l.toks, l.args)
  }

  function AndTail(e: Expr, toks: seq<Tok>, args: seq<Arg>): (r: Parsed)
    ensures r.Parsed? ==> |r.toks| <= |toks|
    decreases |toks|, 4
  {
    if toks == [] || toks[0] != AndTok then Parsed(e, toks, args)
    else
      var r := ParseNot(toks[1..], args);
      if r.NoParse? then NoParse else AndTail(Conj(e, r.expr), r.toks, r.args)
  }

  function ParseNot(toks: seq<Tok>, args: seq<Arg>): (r: Parsed)
    ensures r.Parsed? ==> |r.toks| < |toks|
    decreases |toks|, 1
  {
    if toks != [] && toks[0] == NotTok then
      var r := ParseNot(toks[1..], args);
      if r.NoParse? then NoParse else Parsed(Neg(r.expr), r.toks, r.args)
    else ParsePrimary(toks, args)
  }

  function ParsePrimary(toks: seq<Tok>, args: seq<Arg>): (r: Parsed)
    ensures r.Parsed? ==> |r.toks| < |toks|
    decreases |toks|, 0
  {
    if toks == [] then NoParse
    else if toks[0].Atom? then
      var holes := Holes(toks[0].text);
      if holes > |args| then NoParse else Parsed(Leaf(toks[0].text, args[..holes]), toks[1..], args[holes..])
    else if toks[0] == LParen then
      var r := ParseOr(toks[1..], args);
      if r.NoParse? || r.toks == [] || r.toks[0] != RParen then NoParse else Parsed(r.expr, r.toks[1..], r.args)
    else NoParse
  }

  // ---- Meaning ----

  function Not3(a: Tri): Tri {
    match a
    case True => False
    case False => True
    case Null => Null
  }

  function And3(a: Tri, b: Tri): Tri {
    if a.False? || b.False? then False else if a.Null? || b.Null? then Null else True
  }

  function Or3(a: Tri, b: Tri): Tri {
    if a.True? || b.True? then True else if a.Null? || b.Null? then Null else False
  }

  /** `sem` gives the truth of an atom with its arguments on the row at hand. */
  function Eval(sem: (string, seq<Arg>) -> Tri, e: Expr): Tri {
    match e
    case Leaf(text, args) => sem(text, args)
    case Neg(x) => Not3(Eval(sem, x))
    case Conj(l, r) => And3(Eval(sem, l), Eval(sem, r))
    case Disj(l, r) => Or3(Eval(sem, l), Eval(sem, r))
  }

  // ---- Pieces: text and arguments that read as one condition wherever they stand ----

  /** A piece of text with its arguments and the condition it is meant to express. */
  datatype Piece = Piece(toks: seq<Tok>, args: seq<Arg>, expr: Expr)

  /** The piece is read as its condition, consuming exactly its own text and arguments. */
  ghost predicate ReadsAsPrimary(p: Piece) {
    forall toks, args :: ParsePrimary(p.toks + toks, p.args + args) == Parsed(p.expr, toks, args)
  }

  ghost predicate ReadsAsNot(p: Piece) {
    forall toks, args :: ParseNot(p.toks + toks, p.args + args) == Parsed(p.expr, toks, args)
  }

  lemma {:induction false} ReadNotAt(p: Piece, toks: seq<Tok>, args: seq<Arg>)
    requires ReadsAsNot(p)
    ensures ParseNot(p.toks + toks, p.args + args) == Parsed(p.expr, toks, args)
  {
  }

  predicate EndsPhrase(toks: seq<Tok>) {
    toks == [] || toks[0] == RParen
  }

  ghost predicate ReadsAsOr(p: Piece) {
    forall toks, args :: EndsPhrase(toks) ==> ParseOr(p.toks + toks, p.args + args) == Parsed(p.expr, toks, args)
  }

  function AtomPiece(text: string, args: seq<Arg>): Piece {
    Piece([Atom(text)], args, Leaf(text, args))
  }

  function Parens(p: Piece): Piece {
    Piece([LParen] + p.toks + [RParen], p.args, p.expr)
  }

  function Negated(p: Piece): Piece {
    Piece([NotTok] + Parens(p).toks, p.args, Neg(p.expr))
  }

  /** An atom reads as itself when its text has a placeholder for each argument. */
  lemma {:induction false} AtomReads(text: string, args: seq<Arg>)
    requires Holes(text) == |args|
    ensures ReadsAsPrimary(AtomPiece(text, args))
  {
    forall toks, more
      ensures ParsePrimary([Atom(text)] + toks, args + more) == Parsed(Leaf(text, args), toks, more)
    {
      assert ([Atom(text)] + toks)[1..] == toks;
      assert (args + more)[..|args|] == args && (args + more)[|args|..] == more;
    }
  }

  lemma {:induction false} HolesConcat(a: string, b: string)
    ensures Holes(a + b) == Holes(a) + Holes(b)
  {
    if a == "" {
      assert a + b == b;
    } else {
      assert (a + b)[1..] == a[1..] + b;
      HolesConcat(a[1..], b);
    }
  }

  lemma {:induction false} NoHoles(s: string)
    requires '?' !in s
    ensures Holes(s) == 0
  {
    if s != "" {
      NoHoles(s[1..]);
    }
  }

  /** A text with one placeholder. */
  function OneHole(before: string, after: string): string {
    before + "?" + after
  }

  lemma {:induction false} OneHoleHolds(before: string, after: string)
    requires '?' !in before && '?' !in after
    ensures Holes(OneHole(before, after)) == 1
  {
    NoHoles(before);
    NoHoles(after);
    HolesConcat(before + "?", after);
    HolesConcat(before, "?");
    assert "?"[1..] == "";
  }

  lemma {:induction false} PrimaryReadsAsNot(p: Piece)
    requires ReadsAsPrimary(p)
    ensures ReadsAsNot(p)
  {
    forall toks, args
      ensures ParseNot(p.toks + toks, p.args + args) == Parsed(p.expr, toks, args)
    {
      assert ParsePrimary(p.toks + toks, p.args + args) == Parsed(p.expr, toks, args);
    }
  }

  lemma {:induction false} ParensRead(p: Piece)
    requires ReadsAsOr(p)
    ensures ReadsAsPrimary(Parens(p))
  {
    forall toks, args
      ensures ParsePrimary(Parens(p).toks + toks, p.args + args) == Parsed(p.expr, toks, args)
    {
      var all := Parens(p).toks + toks;
      assert all[1..] == p.toks + ([RParen] + toks);
      assert ParseOr(p.toks + ([RParen] + toks), p.args + args) == Parsed(p.expr, [RParen] + toks, args);
      assert ([RParen] + toks)[1..] == toks;
    }
  }

  lemma {:induction false} NotOfPrimary(p: Piece)
    requires ReadsAsPrimary(p)
    ensures ReadsAsNot(Piece([NotTok] + p.toks, p.args, Neg(p.expr)))
  {
    PrimaryReadsAsNot(p);
    forall toks, args
      ensures ParseNot([NotTok] + p.toks + toks, p.args + args) == Parsed(Neg(p.expr), toks, args)
    {
      var all := [NotTok] + p.toks + toks;
      assert all[0] == NotTok && all[1..] == p.toks + toks;
      assert ParseNot(p.toks + toks, p.args + args) == Parsed(p.expr, toks, args);
    }
  }

  lemma {:induction false} NegatedReads(p: Piece)
    requires ReadsAsOr(p)
    ensures ReadsAsNot(Negated(p))
  {
    ParensRead(p);
    NotOfPrimary(Parens(p));
  }

  /** A NOT-level piece is also a whole condition. */
  lemma {:induction false} NotReadsAsOr(p: Piece)
    requires ReadsAsNot(p)
    ensures ReadsAsOr(p)
  {
    forall toks, args | EndsPhrase(toks)
      ensures ParseOr(p.toks + toks, p.args + args) == Parsed(p.expr, toks, args)
    {
      assert ParseNot(p.toks + toks, p.args + args) == Parsed(p.expr, toks, args);
      assert AndTail(p.expr, toks, args) == Parsed(p.expr, toks, args);
      assert ParseAnd(p.toks + toks, p.args + args) == Parsed(p.expr, toks, args);
      assert OrTail(p.expr, toks, args) == Parsed(p.expr, toks, args);
    }
  }

  // ---- Joining pieces with AND and OR ----

  function ArgsOf(ps: seq<Piece>): seq<Arg> {
    if ps == [] then [] else ps[0].args + ArgsOf(ps[1..])
  }

  /** The texts of the pieces, each preceded by the operator. */
  function Following(op: Tok, ps: seq<Piece>): seq<Tok> {
    if ps == [] then [] else [op] + ps[0].toks + Following(op, ps[1..])
  }

  /** `strings.Join(parts, op)`. */
  function Join(op: Tok, parts: seq<seq<Tok>>): seq<Tok> {
    if parts == [] then []
    else if |parts| == 1 then parts[0]
    else parts[0] + [op] + Join(op, parts[1..])
  }

  function TextOf(ps: seq<Piece>): (r: seq<seq<Tok>>)
    ensures |r| == |ps| && forall i :: 0 <= i < |ps| ==> r[i] == ps[i].toks
  {
    seq(|ps|, i requires 0 <= i < |ps| => ps[i].toks)
  }

  lemma {:induction false} JoinIsFollowing(op: Tok, ps: seq<Piece>)
    requires ps != []
    ensures Join(op, TextOf(ps)) == ps[0].toks + Following(op, ps[1..])
  {
    assert TextOf(ps)[1..] == TextOf(ps[1..]);
    if |ps| == 1 {
      assert ps[0].toks + [] == ps[0].toks;
    } else {
      JoinIsFollowing(op, ps[1..]);
      var q := ps[1..];
      assert ps[0].toks + [op] + (q[0].toks + Following(op, q[1..])) == ps[0].toks + ([op] + q[0].toks + Following(op, q[1..]));
    }
  }

  function ConjAll(e: Expr, ps: seq<Piece>): Expr
    decreases |ps|
  {
    if ps == [] then e else ConjAll(Conj(e, ps[0].expr), ps[1..])
  }

  function DisjAll(e: Expr, ps: seq<Piece>): Expr
    decreases |ps|
  {
    if ps == [] then e else DisjAll(Disj(e, ps[0].expr), ps[1..])
  }

  lemma {:induction false} AndTailReads(e: Expr, ps: seq<Piece>, toks: seq<Tok>, args: seq<Arg>)
    requires forall i :: 0 <= i < |ps| ==> ReadsAsNot(ps[i])
    requires toks == [] || toks[0] != AndTok
    ensures AndTail(e, Following(AndTok, ps) + toks, ArgsOf(ps) + args) == Parsed(ConjAll(e, ps), toks, args)
    decreases |ps|
  {
    if ps == [] {
      assert Following(AndTok, ps) + toks == toks && ArgsOf(ps) + args == args;
    } else {
      var p := ps[0];
      var text, rest := Following(AndTok, ps) + toks, Following(AndTok, ps[1..]) + toks;
      assert text[0] == AndTok && text[1..] == p.toks + rest;
      assert ArgsOf(ps) + args == p.args + (ArgsOf(ps[1..]) + args);
      ReadNotAt(p, rest, ArgsOf(ps[1..]) + args);
      AndTailReads(Conj(e, p.expr), ps[1..], toks, args);
    }
  }

  /** Pieces joined by AND read as their conjunction. */
  lemma {:induction false} AndJoinReads(ps: seq<Piece>, toks: seq<Tok>, args: seq<Arg>)
    requires ps != [] && forall i :: 0 <= i < |ps| ==> ReadsAsNot(ps[i])
    requires toks == [] || toks[0] != AndTok
    ensures ParseAnd(Join(AndTok, TextOf(ps)) + toks, ArgsOf(ps) + args) == Parsed(ConjAll(ps[0].expr, ps[1..]), toks, args)
  {
    JoinIsFollowing(AndTok, ps);
    var p, rest, more := ps[0], Following(AndTok, ps[1..]) + toks, ArgsOf(ps[1..]) + args;
    assert Join(AndTok, TextOf(ps)) + toks == p.toks + rest;
    assert ArgsOf(ps) + args == p.args + more;
    ReadNotAt(p, rest, more);
    AndTailReads(p.expr, ps[1..], toks, args);
    AndStep(p.toks + rest, p.args + more, p.expr, rest, more);
  }

  lemma {:induction false} AndStep(text: seq<Tok>, args: seq<Arg>, e: Expr, rest: seq<Tok>, more: seq<Arg>)
    requires ParseNot(text, args) == Parsed(e, rest, more)
    ensures ParseAnd(text, args) == AndTail(e, rest, more)
  {
  }

  lemma {:induction false} OrStep(text: seq<Tok>, args: seq<Arg>, e: Expr, rest: seq<Tok>, more: seq<Arg>)
    requires ParseNot(text, args) == Parsed(e, rest, more) && (rest == [] || rest[0] != AndTok)
    ensures ParseOr(text, args) == OrTail(e, rest, more)
  {
    assert AndTail(e, rest, more) == Parsed(e, rest, more);
    AndStep(text, args, e, rest, more);
  }

  lemma {:induction false} FollowingHead(ps: seq<Piece>, toks: seq<Tok>)
    requires EndsPhrase(toks)
    ensures var rest := Following(OrTok, ps) + toks; rest == [] || rest[0] == RParen || rest[0] == OrTok
  {
  }

  lemma {:induction false} OrTailReads(e: Expr, ps: seq<Piece>, toks: seq<Tok>, args: seq<Arg>)
    requires forall i :: 0 <= i < |ps| ==> ReadsAsNot(ps[i])
    requires EndsPhrase(toks)
    ensures OrTail(e, Following(OrTok, ps) + toks, ArgsOf(ps) + args) == Parsed(DisjAll(e, ps), toks, args)
    decreases |ps|
  {
    if ps == [] {
      assert Following(OrTok, ps) + toks == toks && ArgsOf(ps) + args == args;
    } else {
      var p := ps[0];
      var text, rest, more := Following(OrTok, ps) + toks, Following(OrTok, ps[1..]) + toks, ArgsOf(ps[1..]) + args;
      assert text[0] == OrTok && text[1..] == p.toks + rest;
      assert ArgsOf(ps) + args == p.args + more;
      ReadNotAt(p, rest, more);
      FollowingHead(ps[1..], toks);
      assert AndTail(p.expr, rest, more) == Parsed(p.expr, rest, more);
      OrTailReads(Disj(e, p.expr), ps[1..], toks, args);
    }
  }

  /** The pieces joined by OR form a piece that reads as their disjunction. */
  function OrPiece(ps: seq<Piece>): Piece
    requires ps != []
  {
    Piece(Join(OrTok, TextOf(ps)), ArgsOf(ps), DisjAll(ps[0].expr, ps[1..]))
  }

  lemma {:induction false} OrJoinReadsAt(ps: seq<Piece>, toks: seq<Tok>, args: seq<Arg>)
    requires ps != [] && EndsPhrase(toks) && forall i :: 0 <= i < |ps| ==> ReadsAsNot(ps[i])
    ensures ParseOr(OrPiece(ps).toks + toks, ArgsOf(ps) + args) == Parsed(OrPiece(ps).expr, toks, args)
  {
    JoinIsFollowing(OrTok, ps);
    var p, rest, more := ps[0], Following(OrTok, ps[1..]) + toks, ArgsOf(ps[1..]) + args;
    assert OrPiece(ps).toks + toks == p.toks + rest;
    assert ArgsOf(ps) + args == p.args + more;
    ReadNotAt(p, rest, more);
    FollowingHead(ps[1..], toks);
    OrStep(p.toks + rest, p.args + more, p.expr, rest, more);
    OrTailReads(p.expr, ps[1..], toks, args);
  }

  lemma {:induction false} OrJoinReads(ps: seq<Piece>)
    requires ps != [] && forall i :: 0 <= i < |ps| ==> ReadsAsNot(ps[i])
    ensures ReadsAsOr(OrPiece(ps))
  {
    forall toks, args | EndsPhrase(toks)
      ensures ParseOr(OrPiece(ps).toks + toks, ArgsOf(ps) + args) == Parsed(OrPiece(ps).expr, toks, args)
    {
      OrJoinReadsAt(ps, toks, args);
    }
  }

  lemma {:induction false} ConjAllTrue(sem: (string, seq<Arg>) -> Tri, e: Expr, ps: seq<Piece>)
    ensures Eval(sem, ConjAll(e, ps)) == True <==> Eval(sem, e) == True && forall i :: 0 <= i < |ps| ==> Eval(sem, ps[i].expr) == True
    decreases |ps|
  {
    if ps != [] {
      ConjAllTrue(sem, Conj(e, ps[0].expr), ps[1..]);
      assert forall i :: 0 < i < |ps| ==> ps[i] == ps[1..][i - 1];
    }
  }

  lemma {:induction false} DisjAllTrue(sem: (string, seq<Arg>) -> Tri, e: Expr, ps: seq<Piece>)
    ensures Eval(sem, DisjAll(e, ps)) == True <==> Eval(sem, e) == True || exists i :: 0 <= i < |ps| && Eval(sem, ps[i].expr) == True
    decreases |ps|
  {
    if ps != [] {
      DisjAllTrue(sem, Disj(e, ps[0].expr), ps[1..]);
      assert forall i :: 0 < i < |ps| ==> ps[i] == ps[1..][i - 1];
      if i :| 0 <= i < |ps| && Eval(sem, ps[i].expr) == True {
        assert i == 0 || Eval(sem, ps[1..][i - 1].expr) == True;
      }
    }
  }

  ghost predicate AllRead(ps: seq<Piece>) {
    forall i :: 0 <= i < |ps| ==> ReadsAsNot(ps[i])
  }

  predicate AllTrue(sem: (string, seq<Arg>) -> Tri, ps: seq<Piece>) {
    forall i :: 0 <= i < |ps| ==> Eval(sem, ps[i].expr) == True
  }

  lemma {:induction false} AllReadConcat(a: seq<Piece>, b: seq<Piece>)
    requires AllRead(a) && AllRead(b)
    ensures AllRead(a + b)
  {
    forall i | 0 <= i < |a + b|
      ensures ReadsAsNot((a + b)[i])
    {
      assert i < |a| ==> ReadsAsNot(a[i]);
      assert i >= |a| ==> ReadsAsNot(b[i - |a|]);
    }
  }

  lemma {:induction false} AllTrueConcat(sem: (string, seq<Arg>) -> Tri, a: seq<Piece>, b: seq<Piece>)
    ensures AllTrue(sem, a + b) <==> AllTrue(sem, a) && AllTrue(sem, b)
  {
    assert forall i :: 0 <= i < |a| ==> a[i] == (a + b)[i];
    assert forall i :: 0 <= i < |b| ==> b[i] == (a + b)[|a| + i];
  }

  /** Does the text, read with these arguments, keep the row? */
  predicate Keeps(sem: (string, seq<Arg>) -> Tri, where: seq<seq<Tok>>, args: seq<Arg>) {
    where == [] ||
    var r := ParseOr(Join(AndTok, where), args);
    r.Parsed? && r.toks == [] && Eval(sem, r.expr) == True
  }

  /** Joined with AND, pieces keep a row exactly when each of them is true, and the arguments behind
      theirs are left for what follows. */
  lemma {:induction false} AndKeepsIff(sem: (string, seq<Arg>) -> Tri, ps: seq<Piece>, args: seq<Arg>)
    requires AllRead(ps)
    ensures Keeps(sem, TextOf(ps), ArgsOf(ps) + args) <==> AllTrue(sem, ps)
    ensures ps != [] ==> var r := ParseOr(Join(AndTok, TextOf(ps)), ArgsOf(ps) + args); r.Parsed? && r.toks == [] && r.args == args
  {
    if ps != [] {
      AndJoinReads(ps, [], args);
      assert Join(AndTok, TextOf(ps)) + [] == Join(AndTok, TextOf(ps));
      var e := ConjAll(ps[0].expr, ps[1..]);
      assert OrTail(e, [], args) == Parsed(e, [], args);
      assert ParseOr(Join(AndTok, TextOf(ps)), ArgsOf(ps) + args) == Parsed(e, [], args);
      ConjAllTrue(sem, ps[0].expr, ps[1..]);
      assert forall i :: 0 < i < |ps| ==> ps[i] == ps[1..][i - 1];
    }
  }

  lemma {:induction false} ArgsConcat(a: seq<Piece>, b: seq<Piece>)
    ensures ArgsOf(a + b) == ArgsOf(a) + ArgsOf(b)
  {
    if a == [] {
      assert a + b == b;
    } else {
      assert (a + b)[1..] == a[1..] + b;
      ArgsConcat(a[1..], b);
    }
  }

  lemma {:induction false} ArgsSnoc(a: seq<Piece>, p: Piece)
    ensures ArgsOf(a + [p]) == ArgsOf(a) + p.args
  {
    ArgsConcat(a, [p]);
    assert [p][1..] == [];
  }
}
