/** Which rows a search keeps, said of the rows: every kind of condition on the columns of a row, and the query
    string and the filters, compiled and executed, against a direct reading of them. */
module SearchMeaning {
  import opened Basics
  import opened SqlText
  import opened SqlSearch
  import opened HistoryQuery
  import Like
  import Ordering

  /** The columns of a row: text, the two numbers, and what `json_extract` finds in the meta column. */
  datatype Row = Row(text: string -> string, port: int, asn: int, meta: string -> Option<string>)

  function Truth(b: bool): Tri {
    if b then True else False
  }

  // ---- SQL on one row ----

  /** The value of the left side of a condition. */
  datatype Cell = Text(s: string) | Whole(n: int) | NullCell

  predicate EndsWith(text: string, tail: string) {
    |text| >= |tail| && text[|text| - |tail|..] == tail
  }

  /** What stands in front of a tail. */
  function Front(text: string, tail: string): string
    requires EndsWith(text, tail)
  {
    text[..|text| - |tail|]
  }

  const META_HEAD := "json_extract(" + "(CASE WHEN meta = '' THEN '{}' ELSE meta END)" + ", '$."
  const META_TAIL := "')"

  /** Columns that hold text, the tag column wrapped in commas, and fields of the meta column. */
  function CellOf(row: Row, left: string): Cell {
    if left == "dst_port" then Whole(row.port)
    else if left == "asn" then Whole(row.asn)
    else if left == TAG_COLUMN then Text(Like.Wrapped(row.text("tags")))
    else if |left| >= |META_HEAD| + |META_TAIL| && left[..|META_HEAD|] == META_HEAD && EndsWith(left, META_TAIL) then
      var field := row.meta(left[|META_HEAD|..|left| - |META_TAIL|]);
      if field.None? then NullCell else Text(field.value)
    else Text(row.text(left))
  }

  /** `=`. Beside a numeric column a text counts as the number `whole` reads from it, if it is one. */
  function Equal(whole: string -> Option<int>, cell: Cell, arg: Arg): Tri {
    match cell
    case NullCell => Null
    case Text(s) => Truth(arg == Str(s))
    case Whole(n) => Truth(arg == Num(n) || (arg.Str? && whole(arg.text) == Some(n)))
  }

  /** ASCII upper case, SQLite's `UPPER`. */
  function UpperChar(c: char): char {
    if 'a' <= c <= 'z' then (c as int - 32) as char else c
  }

  predicate SameUpper(a: string, b: string) {
    |a| == |b| && forall i :: 0 <= i < |a| ==> UpperChar(a[i]) == UpperChar(b[i])
  }

  const LIKE_TAIL := " LIKE ? ESCAPE '\\'"
  const FROM_TAIL := " >= ?"
  const TO_TAIL := " <= ?"
  const IS_TAIL := " = ?"
  const UPPER_HEAD := "UPPER("
  const UPPER_TAIL := ") = UPPER(?)"
  const LOWER_HEAD := "LOWER("
  const LOWER_TAIL := ") = LOWER(?)"

  function InTail(n: nat): string {
    " IN (" + Placeholders(n) + ")"
  }

  predicate Between(text: string, head: string, tail: string) {
    |text| >= |head| + |tail| && text[..|head|] == head && EndsWith(text, tail)
  }

  function Middle(text: string, head: string, tail: string): string
    requires Between(text, head, tail)
  {
    text[|head|..|text| - |tail|]
  }

  /** The meaning of a condition with one placeholder; NULL for texts that are no such condition. */
  function OneSem(row: Row, whole: string -> Option<int>, text: string, arg: Arg): Tri {
    if EndsWith(text, LIKE_TAIL) then
      var cell := CellOf(row, Front(text, LIKE_TAIL));
      if cell.Text? && arg.Str? then Truth(Like.Match(arg.text, cell.s)) else Null
    else if EndsWith(text, FROM_TAIL) then
      var cell := CellOf(row, Front(text, FROM_TAIL));
      if cell.Text? && arg.Str? then Truth(!Ordering.Less(cell.s, arg.text)) else Null
    else if EndsWith(text, TO_TAIL) then
      var cell := CellOf(row, Front(text, TO_TAIL));
      if cell.Text? && arg.Str? then Truth(!Ordering.Less(arg.text, cell.s)) else Null
    else if EndsWith(text, IS_TAIL) then Equal(whole, CellOf(row, Front(text, IS_TAIL)), arg)
    else if Between(text, UPPER_HEAD, UPPER_TAIL) then
      var cell := CellOf(row, Middle(text, UPPER_HEAD, UPPER_TAIL));
      if cell.Text? && arg.Str? then Truth(SameUpper(cell.s, arg.text)) else Null
    else if Between(text, LOWER_HEAD, LOWER_TAIL) then
      var cell := CellOf(row, Middle(text, LOWER_HEAD, LOWER_TAIL));
      if cell.Text? && arg.Str? then Truth(Like.EqFold(cell.s, arg.text)) else Null
    else Null
  }

  /** `IN`: the column equals one of the arguments. */
  function InSem(row: Row, whole: string -> Option<int>, text: string, args: seq<Arg>): Tri {
    if EndsWith(text, InTail(|args|)) then
      var cell := CellOf(row, Front(text, InTail(|args|)));
      if cell == NullCell then Null else Truth(exists i :: 0 <= i < |args| && Equal(whole, cell, args[i]) == True)
    else Null
  }

  /** The meaning of atoms on a row. */
  function RowSem(row: Row, whole: string -> Option<int>): (string, seq<Arg>) -> Tri {
    (text: string, args: seq<Arg>) =>
      if args != [] && EndsWith(text, InTail(|args|)) then InSem(row, whole, text, args)
      else if |args| == 1 then OneSem(row, whole, text, args[0])
      else Null
  }

  // ---- Texts are read as they are meant ----

  lemma {:induction false} FrontOf(left: string, tail: string)
    ensures EndsWith(left + tail, tail) && Front(left + tail, tail) == left
  {
  }

  lemma {:induction false} MiddleOf(head: string, left: string, tail: string)
    ensures Between(head + left + tail, head, tail) && Middle(head + left + tail, head, tail) == left
  {
  }

  /** Two tails that differ `k` characters before their end. */
  lemma {:induction false} TailsDiffer(text: string, a: string, b: string, k: nat)
    requires EndsWith(text, a) && k < |a| && k < |b| && a[|a| - 1 - k] != b[|b| - 1 - k]
    ensures !EndsWith(text, b)
  {
    var at := |text| - 1 - k;
    assert text[|text| - |a|..][|a| - 1 - k] == text[at];
    if EndsWith(text, b) {
      Reaches(text, b, k);
    }
  }

  lemma {:induction false} Reaches(text: string, b: string, k: nat)
    requires EndsWith(text, b) && k < |b|
    ensures text[|text| - 1 - k] == b[|b| - 1 - k]
  {
    assert text[|text| - |b|..][|b| - 1 - k] == b[|b| - 1 - k];
  }

  lemma {:induction false} InTailOfOne()
    ensures InTail(1) == " IN (?)"
  {
  }

  /** A text that does not end like a list of one placeholder is a simple condition. */
  lemma {:induction false} SimpleSem(row: Row, whole: string -> Option<int>, text: string, arg: Arg)
    requires !EndsWith(text, " IN (?)")
    ensures RowSem(row, whole)(text, [arg]) == OneSem(row, whole, text, arg)
  {
    InTailOfOne();
  }

  /** The comparison of a text cell with a text argument. */
  predicate TextCell(row: Row, left: string) {
    CellOf(row, left).Text?
  }

  lemma {:induction false} LikeReads(row: Row, whole: string -> Option<int>, left: string, pattern: string)
    requires TextCell(row, left)
    ensures RowSem(row, whole)(ColumnLike(left), [Str(pattern)]) == Truth(Like.Match(pattern, CellOf(row, left).s))
  {
    var text := left + LIKE_TAIL;
    LikeTailIs(left);
    FrontOf(left, LIKE_TAIL);
    TailsDiffer(text, LIKE_TAIL, " IN (?)", 0);
    SimpleSem(row, whole, text, Str(pattern));
  }

  lemma {:induction false} LikeTailIs(left: string)
    ensures ColumnLike(left) == left + LIKE_TAIL
  {
    assert LIKE_TAIL == " LIKE " + "?" + " ESCAPE '\\'";
  }

  lemma {:induction false} FromReads(row: Row, whole: string -> Option<int>, left: string, stamp: string)
    requires TextCell(row, left)
    ensures RowSem(row, whole)(left + FROM_TAIL, [Str(stamp)]) == Truth(!Ordering.Less(CellOf(row, left).s, stamp))
  {
    var text := left + FROM_TAIL;
    FrontOf(left, FROM_TAIL);
    TailsDiffer(text, FROM_TAIL, " IN (?)", 0);
    TailsDiffer(text, FROM_TAIL, LIKE_TAIL, 0);
    SimpleSem(row, whole, text, Str(stamp));
  }

  lemma {:induction false} ToReads(row: Row, whole: string -> Option<int>, left: string, stamp: string)
    requires TextCell(row, left)
    ensures RowSem(row, whole)(left + TO_TAIL, [Str(stamp)]) == Truth(!Ordering.Less(stamp, CellOf(row, left).s))
  {
    var text := left + TO_TAIL;
    FrontOf(left, TO_TAIL);
    TailsDiffer(text, TO_TAIL, " IN (?)", 0);
    TailsDiffer(text, TO_TAIL, LIKE_TAIL, 0);
    TailsDiffer(text, TO_TAIL, FROM_TAIL, 3);
    SimpleSem(row, whole, text, Str(stamp));
  }

  lemma {:induction false} IsReads(row: Row, whole: string -> Option<int>, left: string, arg: Arg)
    ensures RowSem(row, whole)(ColumnIs(left), [arg]) == Equal(whole, CellOf(row, left), arg)
  {
    var text := left + IS_TAIL;
    IsTailIs(left);
    FrontOf(left, IS_TAIL);
    TailsDiffer(text, IS_TAIL, " IN (?)", 0);
    TailsDiffer(text, IS_TAIL, LIKE_TAIL, 0);
    TailsDiffer(text, IS_TAIL, FROM_TAIL, 3);
    TailsDiffer(text, IS_TAIL, TO_TAIL, 3);
    SimpleSem(row, whole, text, arg);
  }

  lemma {:induction false} IsTailIs(left: string)
    ensures ColumnIs(left) == left + IS_TAIL
  {
    assert IS_TAIL == " = " + "?" + "";
  }

  /** Texts that end in a call are none of the comparisons above. */
  lemma {:induction false} CallSem(text: string, tail: string)
    requires EndsWith(text, tail) && (tail == UPPER_TAIL || tail == LOWER_TAIL)
    ensures !EndsWith(text, " IN (?)") && !EndsWith(text, LIKE_TAIL) && !EndsWith(text, FROM_TAIL)
    ensures !EndsWith(text, TO_TAIL) && !EndsWith(text, IS_TAIL)
  {
    TailsDiffer(text, tail, " IN (?)", 3);
    TailsDiffer(text, tail, LIKE_TAIL, 0);
    TailsDiffer(text, tail, FROM_TAIL, 0);
    TailsDiffer(text, tail, TO_TAIL, 0);
    TailsDiffer(text, tail, IS_TAIL, 0);
  }

  lemma {:induction false} UpperReads(row: Row, whole: string -> Option<int>, left: string, value: string)
    requires TextCell(row, left)
    ensures RowSem(row, whole)(UPPER_HEAD + left + UPPER_TAIL, [Str(value)]) == Truth(Like.EqFold(CellOf(row, left).s, value))
  {
    var text := UPPER_HEAD + left + UPPER_TAIL;
    MiddleOf(UPPER_HEAD, left, UPPER_TAIL);
    CallSem(text, UPPER_TAIL);
    SimpleSem(row, whole, text, Str(value));
    SameUpperIff(CellOf(row, left).s, value);
  }

  lemma {:induction false} LowerReads(row: Row, whole: string -> Option<int>, left: string, value: string)
    requires TextCell(row, left)
    ensures RowSem(row, whole)(LOWER_HEAD + left + LOWER_TAIL, [Str(value)]) == Truth(Like.EqFold(CellOf(row, left).s, value))
  {
    var text := LOWER_HEAD + left + LOWER_TAIL;
    MiddleOf(LOWER_HEAD, left, LOWER_TAIL);
    CallSem(text, LOWER_TAIL);
    TailsDiffer(text, LOWER_TAIL, UPPER_TAIL, 5);
    SimpleSem(row, whole, text, Str(value));
  }

  /** Upper case and lower case tell the same texts apart. */
  lemma {:induction false} SameUpperIff(a: string, b: string)
    ensures SameUpper(a, b) <==> Like.EqFold(a, b)
  {
    if |a| == |b| {
      forall i | 0 <= i < |a|
        ensures UpperChar(a[i]) == UpperChar(b[i]) <==> LowerChar(a[i]) == LowerChar(b[i])
      {
        SameUpperChar(a[i], b[i]);
      }
    }
  }

  lemma {:induction false} SameUpperChar(a: char, b: char)
    ensures UpperChar(a) == UpperChar(b) <==> LowerChar(a) == LowerChar(b)
  {
  }

  /** The list of ports: the row's port is one of them. */
  lemma {:induction false} PortsRead(row: Row, whole: string -> Option<int>, ports: seq<string>)
    requires ports != []
    ensures RowSem(row, whole)(PortsText(|ports|), StrArgs(ports)) ==
            Truth(exists i :: 0 <= i < |ports| && whole(ports[i]) == Some(row.port))
  {
    var text, args := PortsText(|ports|), StrArgs(ports);
    assert text == "dst_port" + InTail(|ports|) by {
      assert "dst_port IN (" == "dst_port" + " IN (";
    }
    FrontOf("dst_port", InTail(|args|));
    forall i | 0 <= i < |ports|
      ensures Equal(whole, Whole(row.port), args[i]) == Truth(whole(ports[i]) == Some(row.port))
    {
    }
    assert InSem(row, whole, text, args) == Truth(exists i :: 0 <= i < |args| && Equal(whole, Whole(row.port), args[i]) == True);
    if i :| 0 <= i < |args| && Equal(whole, Whole(row.port), args[i]) == True {
      assert whole(ports[i]) == Some(row.port);
    }
    if i :| 0 <= i < |ports| && whole(ports[i]) == Some(row.port) {
      assert Equal(whole, Whole(row.port), args[i]) == True;
    }
  }

  // ---- Cells ----

  lemma {:induction false} PlainCell(row: Row, left: string)
    requires |left| < 20 && left != "dst_port" && left != "asn"
    ensures CellOf(row, left) == Text(row.text(left))
  {
    assert |TAG_COLUMN| == 20;
    MetaLengths();
  }

  lemma {:induction false} TagCell(row: Row)
    ensures CellOf(row, TAG_COLUMN) == Text(Like.Wrapped(row.text("tags")))
  {
    assert |TAG_COLUMN| == 20;
  }

  lemma {:induction false} MetaColumnIs(key: string)
    ensures MetaColumn(key) == META_HEAD + key + META_TAIL
  {
    assert META_JSON == "(CASE WHEN meta = '' THEN '{}' ELSE meta END)";
    assert MetaColumn(key) == "json_extract(" + META_JSON + ", '$." + key + "')";
  }

  /** A field of the meta column, NULL if it has none. */
  lemma {:induction false} MetaCell(row: Row, key: string)
    ensures CellOf(row, MetaColumn(key)) == if row.meta(key).None? then NullCell else Text(row.meta(key).value)
  {
    MetaColumnIs(key);
    MetaLengths();
    var left := META_HEAD + key + META_TAIL;
    MiddleOf(META_HEAD, key, META_TAIL);
    assert left[|META_HEAD|..|left| - |META_TAIL|] == key;
  }

  lemma {:induction false} MetaLengths()
    ensures |META_HEAD| > |TAG_COLUMN| && |META_HEAD| > 10
  {
    assert |TAG_COLUMN| == 20 && |"(CASE WHEN meta = '' THEN '{}' ELSE meta END)"| == 45;
  }

  // ---- Words on rows ----

  /** The word occurs in the text, up to ASCII case. */
  predicate Contains(s: string, word: string) {
    exists i :: 0 <= i <= |s| && Like.OccursAt(word, s, i)
  }

  predicate StartsWith(s: string, word: string) {
    |word| <= |s| && Like.EqFold(word, s[..|word|])
  }

  /** One of the seven text columns contains the word. */
  predicate InSomeColumn(row: Row, word: string) {
    || Contains(row.text("detail"), word) || Contains(row.text("asn_org"), word) || Contains(row.text("src_city"), word)
    || Contains(row.text("meta"), word) || Contains(row.text("src_ip"), word) || Contains(row.text("tags"), word)
    || Contains(row.text("scanner"), word)
  }

  /** The row has the tag; a value with commas stands for neighbouring tags. */
  predicate Tagged(row: Row, tag: string) {
    if ',' in tag then Contains(Like.Wrapped(row.text("tags")), Like.Wrapped(tag)) else Like.HasTag(row.text("tags"), tag)
  }

  lemma {:induction false} InfixMeans(row: Row, whole: string -> Option<int>, column: string, word: string)
    requires |column| < 20 && column != "dst_port" && column != "asn"
    ensures RowSem(row, whole)(ColumnLike(column), [Str("%" + (Like.Escape(word) + "%"))]) == Truth(Contains(row.text(column), word))
  {
    PlainCell(row, column);
    LikeReads(row, whole, column, "%" + (Like.Escape(word) + "%"));
    Like.InfixPatternIsExact(word, row.text(column));
  }

  lemma {:induction false} IpMeans(row: Row, whole: string -> Option<int>, value: string)
    ensures RowSem(row, whole)(ColumnLike("src_ip"), [Str(Like.Escape(value) + "%")]) ==
            Truth(StartsWith(row.text("src_ip"), value))
  {
    PlainCell(row, "src_ip");
    LikeReads(row, whole, "src_ip", Like.Escape(value) + "%");
    Like.PrefixPatternIsExact(value, row.text("src_ip"));
  }

  lemma {:induction false} TagMeans(row: Row, whole: string -> Option<int>, value: string)
    requires value != ""
    ensures RowSem(row, whole)(ColumnLike(TAG_COLUMN), [Str("%," + Like.Escape(value) + ",%")]) == Truth(Tagged(row, value))
  {
    TagCell(row);
    LikeReads(row, whole, TAG_COLUMN, "%," + Like.Escape(value) + ",%");
    if ',' in value {
      Like.TagFilterIsOccurrence(value, row.text("tags"));
    } else {
      Like.TagFilterExactIff(value);
      assert Like.TagFilter(value, row.text("tags")) <==> Like.HasTag(row.text("tags"), value);
    }
  }

  lemma {:induction false} ColumnMeans(row: Row, whole: string -> Option<int>, column: string, value: string)
    requires |column| < 20 && column != "dst_port" && column != "asn"
    ensures RowSem(row, whole)(ColumnIs(column), [Str(value)]) == Truth(row.text(column) == value)
  {
    PlainCell(row, column);
    IsReads(row, whole, column, Str(value));
  }

  lemma {:induction false} NumberMeans(row: Row, whole: string -> Option<int>, n: int)
    ensures RowSem(row, whole)(ColumnIs("dst_port"), [Num(n)]) == Truth(row.port == n)
    ensures RowSem(row, whole)(ColumnIs("asn"), [Num(n)]) == Truth(row.asn == n)
  {
    IsReads(row, whole, "dst_port", Num(n));
    IsReads(row, whole, "asn", Num(n));
  }

  lemma {:induction false} PortTextMeans(row: Row, whole: string -> Option<int>, port: string)
    ensures RowSem(row, whole)(ColumnIs("dst_port"), [Str(port)]) == Truth(whole(port) == Some(row.port))
  {
    IsReads(row, whole, "dst_port", Str(port));
  }

  lemma {:induction false} CountryMeans(row: Row, whole: string -> Option<int>, value: string)
    ensures RowSem(row, whole)(COUNTRY_IS, [Str(value)]) == Truth(Like.EqFold(row.text("src_cc"), value))
  {
    assert COUNTRY_IS == UPPER_HEAD + "src_cc" + UPPER_TAIL;
    PlainCell(row, "src_cc");
    UpperReads(row, whole, "src_cc", value);
  }

  lemma {:induction false} ScannerMeans(row: Row, whole: string -> Option<int>, value: string)
    ensures RowSem(row, whole)(SCANNER_IS, [Str(value)]) == Truth(Like.EqFold(row.text("scanner"), value))
  {
    assert SCANNER_IS == LOWER_HEAD + "scanner" + LOWER_TAIL;
    PlainCell(row, "scanner");
    LowerReads(row, whole, "scanner", value);
  }

  lemma {:induction false} TimeMeans(row: Row, whole: string -> Option<int>, stamp: string)
    ensures RowSem(row, whole)(TIME_FROM, [Str(stamp)]) == Truth(!Ordering.Less(row.text("time"), stamp))
    ensures RowSem(row, whole)(TIME_TO, [Str(stamp)]) == Truth(!Ordering.Less(stamp, row.text("time")))
  {
    assert TIME_FROM == "time" + FROM_TAIL && TIME_TO == "time" + TO_TAIL;
    PlainCell(row, "time");
    FromReads(row, whole, "time", stamp);
    ToReads(row, whole, "time", stamp);
  }

  lemma {:induction false} MetaMeans(row: Row, whole: string -> Option<int>, key: string, value: string)
    ensures RowSem(row, whole)(ColumnIs(MetaColumn(key)), [Str(value)]) ==
            if row.meta(key).None? then Null else Truth(row.meta(key).value == value)
  {
    MetaCell(row, key);
    IsReads(row, whole, MetaColumn(key), Str(value));
  }

  // ---- Free words ----

  /** Alternatives that are each true or false are true exactly when one of them is. */
  lemma {:induction false} DisjAllMeans(sem: (string, seq<Arg>) -> Tri, e: Expr, ps: seq<Piece>)
    requires Eval(sem, e) != Null && forall i :: 0 <= i < |ps| ==> Eval(sem, ps[i].expr) != Null
    ensures Eval(sem, DisjAll(e, ps)) == Truth(Eval(sem, e) == True || exists i :: 0 <= i < |ps| && Eval(sem, ps[i].expr) == True)
  {
    DisjAllTrue(sem, e, ps);
    NeverNull(sem, e, ps);
  }

  lemma {:induction false} NeverNull(sem: (string, seq<Arg>) -> Tri, e: Expr, ps: seq<Piece>)
    requires Eval(sem, e) != Null && forall i :: 0 <= i < |ps| ==> Eval(sem, ps[i].expr) != Null
    ensures Eval(sem, DisjAll(e, ps)) != Null
    decreases |ps|
  {
    if ps != [] {
      NeverNull(sem, Disj(e, ps[0].expr), ps[1..]);
    }
  }

  lemma {:induction false} OrMeans(sem: (string, seq<Arg>) -> Tri, ps: seq<Piece>)
    requires ps != [] && forall i :: 0 <= i < |ps| ==> Eval(sem, ps[i].expr) != Null
    ensures Eval(sem, OrPiece(ps).expr) == Truth(exists i :: 0 <= i < |ps| && Eval(sem, ps[i].expr) == True)
  {
    DisjAllMeans(sem, ps[0].expr, ps[1..]);
    if i :| 0 <= i < |ps| && Eval(sem, ps[i].expr) == True {
      assert i == 0 || ps[1..][i - 1] == ps[i];
    }
  }

  lemma {:induction false} TextPieceMeans(
    row: Row, whole: string -> Option<int>, word: string, columns: seq<string>, i: nat)
    requires i < |columns| && |columns[i]| < 20 && columns[i] != "dst_port" && columns[i] != "asn"
    ensures Eval(RowSem(row, whole), TextPieces("%" + (Like.Escape(word) + "%"), columns)[i].expr) ==
            Truth(Contains(row.text(columns[i]), word))
  {
    InfixMeans(row, whole, columns[i], word);
  }

  lemma {:induction false} PlainColumn(i: nat)
    requires i < |TEXT_COLUMNS|
    ensures |TEXT_COLUMNS[i]| < 20 && TEXT_COLUMNS[i] != "dst_port" && TEXT_COLUMNS[i] != "asn"
  {
  }

  lemma {:induction false} SevenColumns(row: Row, word: string)
    ensures InSomeColumn(row, word) <==> exists i :: 0 <= i < |TEXT_COLUMNS| && Contains(row.text(TEXT_COLUMNS[i]), word)
  {
    var c := TEXT_COLUMNS;
    assert |c| == 7 && c[0] == "detail" && c[1] == "asn_org" && c[2] == "src_city" && c[3] == "meta" && c[4] == "src_ip"
      && c[5] == "tags" && c[6] == "scanner";
  }

  /** A free word is true of exactly the rows with an occurrence in one of the seven columns, and false of all
      others. */
  lemma {:induction false} WordMeans(row: Row, whole: string -> Option<int>, word: string, neg: bool)
    ensures Value(RowSem(row, whole), TextCond(word, neg)) == Truth(InSomeColumn(row, word))
  {
    var columns := TEXT_COLUMNS;
    var ps := TextPieces("%" + (Like.Escape(word) + "%"), columns);
    forall i | 0 <= i < |columns|
      ensures Eval(RowSem(row, whole), ps[i].expr) == Truth(Contains(row.text(columns[i]), word))
    {
      PlainColumn(i);
      TextPieceMeans(row, whole, word, columns, i);
    }
    OrMeans(RowSem(row, whole), ps);
    TextCondComplete(word, neg);
    SevenColumns(row, word);
  }

  // ---- The words of a query ----

  const SEARCH_KEYS := {
    "port", "ip", "cc", "asn", "tag", "scanner", "since", "until", "kind", "class", "proto", "ja3", "ja4", "sni", "user"}

  predicate Negative(tok: string) {
    |tok| > 1 && tok[0] == '-'
  }

  /** The word without its sign. */
  function Unsigned(tok: string): string {
    if Negative(tok) then tok[1..] else tok
  }

  /** What stands before and behind the first colon; a word without one is all name. */
  function NamePart(tok: string): string {
    var t := Unsigned(tok);
    t[..ColonAt(t)]
  }

  predicate HasColon(tok: string) {
    ':' in Unsigned(tok)
  }

  function ValuePart(tok: string): string {
    var t := Unsigned(tok);
    if ColonAt(t) < |t| then t[ColonAt(t) + 1..] else ""
  }

  /** The first colon cuts the word. */
  lemma {:induction false} ColonCuts(t: string)
    ensures ':' !in t[..ColonAt(t)] && (ColonAt(t) < |t| <==> ':' in t) && (ColonAt(t) < |t| ==> t[ColonAt(t)] == ':')
  {
    if t != "" && t[0] != ':' {
      ColonCuts(t[1..]);
      assert t[..ColonAt(t)] == [t[0]] + t[1..][..ColonAt(t[1..])];
      assert t == [t[0]] + t[1..];
    }
  }

  /** The search key of a word; empty for a free word. */
  function KeyOf(lib: Library, tok: string): string {
    var key := lib.lower(NamePart(tok));
    if HasColon(tok) && key in SEARCH_KEYS then key else ""
  }

  /** The number behind `asn:`, with or without the letters AS. */
  function AsnOf(lib: Library, value: string): Option<nat> {
    var u := lib.upper(value);
    lib.parseUint32(if |u| >= 2 && u[0] == 'A' && u[1] == 'S' then u[2..] else u)
  }

  /** The value does not fit the key. */
  predicate BadValue(lib: Library, key: string, value: string) {
    || (key == "port" && !(lib.atoi(value).Some? && 0 <= lib.atoi(value).value <= 65535))
    || (key == "cc" && lib.bytes(value) != 2)
    || (key == "asn" && AsnOf(lib, value).None?)
    || ((key == "since" || key == "until") && lib.resolve(value).None?)
  }

  /** A word with a colon that looks like a key but is none: a short name, and a value that is no URL or address. */
  predicate Mistyped(lib: Library, tok: string) {
    var name, value := lib.lower(NamePart(tok)), ValuePart(tok);
    && HasColon(tok) && name != "" && lib.bytes(name) <= 12
    && (forall c :: c in name ==> (lib.isLetterOrDigit(c) || c == '_') && c != '.' && c != ' ')
    && value != "" && value[0] != '/' && forall c :: c in value ==> c != ':'
  }

  /** Words the parser refuses. */
  predicate Refused(lib: Library, tok: string) {
    var key := KeyOf(lib, tok);
    if key == "" then Mistyped(lib, tok) else ValuePart(tok) == "" || BadValue(lib, key, ValuePart(tok))
  }

  /** What a keyed word says of a row. */
  function SaysKey(lib: Library, row: Row, key: string, value: string): Tri
    requires !BadValue(lib, key, value)
  {
    if key == "ip" then Truth(StartsWith(row.text("src_ip"), value))
    else if key == "tag" then Truth(Tagged(row, value))
    else if key == "port" then Truth(row.port == lib.atoi(value).value)
    else if key == "asn" then Truth(row.asn == AsnOf(lib, value).value)
    else if key == "cc" then Truth(Like.EqFold(row.text("src_cc"), value))
    else if key == "scanner" then Truth(Like.EqFold(row.text("scanner"), value))
    else if key == "since" then Truth(!Ordering.Less(row.text("time"), lib.resolve(value).value))
    else if key == "until" then Truth(!Ordering.Less(lib.resolve(value).value, row.text("time")))
    else if key == "kind" then Truth(row.text("kind") == lib.lower(value))
    else if key == "class" then Truth(row.text("class") == lib.lower(value))
    else if key == "proto" then Truth(row.text("protocol") == lib.lower(value))
    else if row.meta(key).None? then Null
    else Truth(row.meta(key).value == value)
  }

  /** What a word says of a row, its sign aside. */
  function Says(lib: Library, row: Row, tok: string): Tri
    requires !Refused(lib, tok)
  {
    var key := KeyOf(lib, tok);
    if key == "" then Truth(InSomeColumn(row, Unsigned(tok))) else SaysKey(lib, row, key, ValuePart(tok))
  }

  lemma {:induction false} KeysAre(key: string)
    ensures IsKey(key) <==> key in SEARCH_KEYS
  {
  }

  lemma {:induction false} ArgRefusedIff(lib: Library, key: string, value: string)
    requires IsKey(key)
    ensures KeyArg(lib, key, value).Err? <==> BadValue(lib, key, value)
  {
    if key == "asn" {
      var u := lib.upper(value);
      assert TrimAS(u) == if |u| >= 2 && u[0] == 'A' && u[1] == 'S' then u[2..] else u;
    }
  }

  lemma {:induction false} MistypedIff(lib: Library, tok: string)
    requires HasColon(tok)
    ensures LooksLikeKey(lib, lib.lower(NamePart(tok)), ValuePart(tok)) <==> Mistyped(lib, tok)
  {
    var name := lib.lower(NamePart(tok));
    assert IsIdent(lib, name) <==> name != "" && forall c :: c in name ==> lib.isLetterOrDigit(c) || c == '_';
  }

  /** Exactly these words are refused. */
  lemma {:induction false} RefusedIff(lib: Library, tok: string)
    ensures CondOf(lib, tok).Err? <==> Refused(lib, tok)
  {
    ColonCuts(Unsigned(tok));
    KeysAre(lib.lower(NamePart(tok)));
    if HasColon(tok) {
      MistypedIff(lib, tok);
      if KeyOf(lib, tok) != "" {
        ArgRefusedIff(lib, KeyOf(lib, tok), ValuePart(tok));
      }
    }
  }

  lemma {:induction false} AsnTrimmed(u: string)
    ensures TrimAS(u) == if |u| >= 2 && u[0] == 'A' && u[1] == 'S' then u[2..] else u
  {
    assert |u| >= 2 ==> u[..2] == [u[0], u[1]];
  }

  /** The text and argument compiled for the key mean what the key says. */
  ghost predicate MeansAsSaid(lib: Library, row: Row, whole: string -> Option<int>, key: string, value: string) {
    && KeyArg(lib, key, value).Ok? && !BadValue(lib, key, value)
    && RowSem(row, whole)(KeyText(key), [KeyArg(lib, key, value).value]) == SaysKey(lib, row, key, value)
  }

  lemma {:induction false} IpCompiles(lib: Library, value: string)
    ensures KeyText("ip") == ColumnLike("src_ip") && KeyArg(lib, "ip", value) == Ok(Str(Like.Escape(value) + "%"))
  {
  }

  lemma {:induction false} IpSays(lib: Library, row: Row, value: string)
    ensures !BadValue(lib, "ip", value) && SaysKey(lib, row, "ip", value) == Truth(StartsWith(row.text("src_ip"), value))
  {
  }

  lemma {:induction false} IpKeyMeans(lib: Library, row: Row, whole: string -> Option<int>, value: string)
    ensures MeansAsSaid(lib, row, whole, "ip", value)
  {
    IpCompiles(lib, value);
    IpSays(lib, row, value);
    IpMeans(row, whole, value);
  }

  lemma {:induction false} TagCompiles(lib: Library, value: string)
    requires value != ""
    ensures KeyText("tag") == ColumnLike(TAG_COLUMN) && KeyArg(lib, "tag", value) == Ok(Str("%," + Like.Escape(value) + ",%"))
  {
  }

  lemma {:induction false} TagSays(lib: Library, row: Row, value: string)
    requires value != ""
    ensures !BadValue(lib, "tag", value) && SaysKey(lib, row, "tag", value) == Truth(Tagged(row, value))
  {
  }

  lemma {:induction false} TagKeyMeans(lib: Library, row: Row, whole: string -> Option<int>, value: string)
    requires value != ""
    ensures MeansAsSaid(lib, row, whole, "tag", value)
  {
    TagCompiles(lib, value);
    TagSays(lib, row, value);
    TagMeans(row, whole, value);
  }

  lemma {:induction false} PortCompiles(lib: Library, value: string, n: int)
    requires lib.atoi(value) == Some(n) && 0 <= n <= 65535
    ensures KeyText("port") == ColumnIs("dst_port") && KeyArg(lib, "port", value) == Ok(Num(n))
  {
  }

  lemma {:induction false} PortSays(lib: Library, row: Row, value: string, n: int)
    requires lib.atoi(value) == Some(n) && 0 <= n <= 65535
    ensures !BadValue(lib, "port", value) && SaysKey(lib, row, "port", value) == Truth(row.port == n)
  {
  }

  lemma {:induction false} PortKeyMeans(lib: Library, row: Row, whole: string -> Option<int>, value: string, n: int)
    requires lib.atoi(value) == Some(n) && 0 <= n <= 65535
    ensures MeansAsSaid(lib, row, whole, "port", value)
  {
    PortCompiles(lib, value, n);
    PortSays(lib, row, value, n);
    NumberMeans(row, whole, n);
  }

  lemma {:induction false} AsnCompiles(lib: Library, value: string, n: nat)
    requires AsnOf(lib, value) == Some(n)
    ensures KeyText("asn") == ColumnIs("asn") && KeyArg(lib, "asn", value) == Ok(Num(n))
  {
    AsnTrimmed(lib.upper(value));
  }

  lemma {:induction false} AsnSays(lib: Library, row: Row, value: string, n: nat)
    requires AsnOf(lib, value) == Some(n)
    ensures !BadValue(lib, "asn", value) && SaysKey(lib, row, "asn", value) == Truth(row.asn == n)
  {
  }

  lemma {:induction false} AsnKeyMeans(lib: Library, row: Row, whole: string -> Option<int>, value: string, n: nat)
    requires AsnOf(lib, value) == Some(n)
    ensures MeansAsSaid(lib, row, whole, "asn", value)
  {
    AsnCompiles(lib, value, n);
    AsnSays(lib, row, value, n);
    NumberMeans(row, whole, n);
  }

  lemma {:induction false} CountryCompiles(lib: Library, value: string)
    requires lib.bytes(value) == 2
    ensures KeyText("cc") == COUNTRY_IS && KeyArg(lib, "cc", value) == Ok(Str(value))
  {
  }

  lemma {:induction false} CountrySays(lib: Library, row: Row, value: string)
    requires lib.bytes(value) == 2
    ensures !BadValue(lib, "cc", value) && SaysKey(lib, row, "cc", value) == Truth(Like.EqFold(row.text("src_cc"), value))
  {
  }

  lemma {:induction false} CountryKeyMeans(lib: Library, row: Row, whole: string -> Option<int>, value: string)
    requires lib.bytes(value) == 2
    ensures MeansAsSaid(lib, row, whole, "cc", value)
  {
    CountryCompiles(lib, value);
    CountrySays(lib, row, value);
    CountryMeans(row, whole, value);
  }

  lemma {:induction false} ScannerCompiles(lib: Library, value: string)
    ensures KeyText("scanner") == SCANNER_IS && KeyArg(lib, "scanner", value) == Ok(Str(value))
  {
  }

  lemma {:induction false} ScannerSays(lib: Library, row: Row, value: string)
    ensures !BadValue(lib, "scanner", value) && SaysKey(lib, row, "scanner", value) == Truth(Like.EqFold(row.text("scanner"), value))
  {
  }

  lemma {:induction false} ScannerKeyMeans(lib: Library, row: Row, whole: string -> Option<int>, value: string)
    ensures MeansAsSaid(lib, row, whole, "scanner", value)
  {
    ScannerCompiles(lib, value);
    ScannerSays(lib, row, value);
    ScannerMeans(row, whole, value);
  }

  lemma {:induction false} SinceCompiles(lib: Library, value: string, stamp: string)
    requires lib.resolve(value) == Some(stamp)
    ensures KeyText("since") == TIME_FROM && KeyArg(lib, "since", value) == Ok(Str(stamp))
  {
  }

  lemma {:induction false} SinceSays(lib: Library, row: Row, value: string, stamp: string)
    requires lib.resolve(value) == Some(stamp)
    ensures !BadValue(lib, "since", value) && SaysKey(lib, row, "since", value) == Truth(!Ordering.Less(row.text("time"), stamp))
  {
  }

  lemma {:induction false} SinceKeyMeans(
    lib: Library, row: Row, whole: string -> Option<int>, value: string, stamp: string)
    requires lib.resolve(value) == Some(stamp)
    ensures MeansAsSaid(lib, row, whole, "since", value)
  {
    SinceCompiles(lib, value, stamp);
    SinceSays(lib, row, value, stamp);
    TimeMeans(row, whole, stamp);
  }

  lemma {:induction false} UntilCompiles(lib: Library, value: string, stamp: string)
    requires lib.resolve(value) == Some(stamp)
    ensures KeyText("until") == TIME_TO && KeyArg(lib, "until", value) == Ok(Str(stamp))
  {
  }

  lemma {:induction false} UntilSays(lib: Library, row: Row, value: string, stamp: string)
    requires lib.resolve(value) == Some(stamp)
    ensures !BadValue(lib, "until", value) && SaysKey(lib, row, "until", value) == Truth(!Ordering.Less(stamp, row.text("time")))
  {
  }

  lemma {:induction false} UntilKeyMeans(
    lib: Library, row: Row, whole: string -> Option<int>, value: string, stamp: string)
    requires lib.resolve(value) == Some(stamp)
    ensures MeansAsSaid(lib, row, whole, "until", value)
  {
    UntilCompiles(lib, value, stamp);
    UntilSays(lib, row, value, stamp);
    TimeMeans(row, whole, stamp);
  }

  lemma {:induction false} KindCompiles(lib: Library, value: string)
    ensures KeyText("kind") == ColumnIs("kind") && KeyArg(lib, "kind", value) == Ok(Str(lib.lower(value)))
  {
  }

  lemma {:induction false} KindSays(lib: Library, row: Row, value: string)
    ensures !BadValue(lib, "kind", value) && SaysKey(lib, row, "kind", value) == Truth(row.text("kind") == lib.lower(value))
  {
  }

  lemma {:induction false} KindKeyMeans(lib: Library, row: Row, whole: string -> Option<int>, value: string)
    ensures MeansAsSaid(lib, row, whole, "kind", value)
  {
    KindCompiles(lib, value);
    KindSays(lib, row, value);
    ColumnMeans(row, whole, "kind", lib.lower(value));
  }

  lemma {:induction false} ClassCompiles(lib: Library, value: string)
    ensures KeyText("class") == ColumnIs("class") && KeyArg(lib, "class", value) == Ok(Str(lib.lower(value)))
  {
  }

  lemma {:induction false} ClassSays(lib: Library, row: Row, value: string)
    ensures !BadValue(lib, "class", value) && SaysKey(lib, row, "class", value) == Truth(row.text("class") == lib.lower(value))
  {
  }

  lemma {:induction false} ClassKeyMeans(lib: Library, row: Row, whole: string -> Option<int>, value: string)
    ensures MeansAsSaid(lib, row, whole, "class", value)
  {
    ClassCompiles(lib, value);
    ClassSays(lib, row, value);
    ColumnMeans(row, whole, "class", lib.lower(value));
  }

  lemma {:induction false} ProtoCompiles(lib: Library, value: string)
    ensures KeyText("proto") == ColumnIs("protocol") && KeyArg(lib, "proto", value) == Ok(Str(lib.lower(value)))
  {
  }

  lemma {:induction false} ProtoSays(lib: Library, row: Row, value: string)
    ensures !BadValue(lib, "proto", value) && SaysKey(lib, row, "proto", value) == Truth(row.text("protocol") == lib.lower(value))
  {
  }

  lemma {:induction false} ProtoKeyMeans(lib: Library, row: Row, whole: string -> Option<int>, value: string)
    ensures MeansAsSaid(lib, row, whole, "proto", value)
  {
    ProtoCompiles(lib, value);
    ProtoSays(lib, row, value);
    ColumnMeans(row, whole, "protocol", lib.lower(value));
  }

  lemma {:induction false} MetaCompiles(lib: Library, key: string, value: string)
    requires IsMetaKey(key)
    ensures KeyText(key) == ColumnIs(MetaColumn(key)) && KeyArg(lib, key, value) == Ok(Str(value))
  {
  }

  lemma {:induction false} MetaSays(lib: Library, row: Row, key: string, value: string)
    requires IsMetaKey(key)
    ensures !BadValue(lib, key, value)
    ensures SaysKey(lib, row, key, value) == if row.meta(key).None? then Null else Truth(row.meta(key).value == value)
  {
  }

  lemma {:induction false} MetaKeyMeans(
    lib: Library, row: Row, whole: string -> Option<int>, key: string, value: string)
    requires IsMetaKey(key)
    ensures MeansAsSaid(lib, row, whole, key, value)
  {
    MetaCompiles(lib, key, value);
    MetaSays(lib, row, key, value);
    MetaMeans(row, whole, key, value);
  }

  lemma {:induction false} AddressKeyMeans(
    lib: Library, row: Row, whole: string -> Option<int>, key: string, value: string)
    requires key == "ip" || key == "tag" || key == "port" || key == "asn" || key == "cc"
    requires value != "" && !BadValue(lib, key, value)
    ensures MeansAsSaid(lib, row, whole, key, value)
  {
    if key == "ip" {
      IpKeyMeans(lib, row, whole, value);
    } else if key == "tag" {
      TagKeyMeans(lib, row, whole, value);
    } else if key == "port" {
      PortKeyMeans(lib, row, whole, value, lib.atoi(value).value);
    } else if key == "asn" {
      AsnKeyMeans(lib, row, whole, value, AsnOf(lib, value).value);
    } else {
      CountryKeyMeans(lib, row, whole, value);
    }
  }

  lemma {:induction false} LabelKeyMeans(
    lib: Library, row: Row, whole: string -> Option<int>, key: string, value: string)
    requires key == "scanner" || key == "kind" || key == "class" || key == "proto"
    ensures MeansAsSaid(lib, row, whole, key, value)
  {
    if key == "scanner" {
      ScannerKeyMeans(lib, row, whole, value);
    } else if key == "kind" {
      KindKeyMeans(lib, row, whole, value);
    } else if key == "class" {
      ClassKeyMeans(lib, row, whole, value);
    } else {
      ProtoKeyMeans(lib, row, whole, value);
    }
  }

  lemma {:induction false} TimeKeyMeans(
    lib: Library, row: Row, whole: string -> Option<int>, key: string, value: string)
    requires (key == "since" || key == "until") && !BadValue(lib, key, value)
    ensures MeansAsSaid(lib, row, whole, key, value)
  {
    if key == "since" {
      SinceKeyMeans(lib, row, whole, value, lib.resolve(value).value);
    } else {
      UntilKeyMeans(lib, row, whole, value, lib.resolve(value).value);
    }
  }

  /** Every key is compiled to what it says. */
  lemma {:induction false} KeyMeans(lib: Library, row: Row, whole: string -> Option<int>, key: string, value: string)
    requires key in SEARCH_KEYS && value != "" && !BadValue(lib, key, value)
    ensures MeansAsSaid(lib, row, whole, key, value)
  {
    if key == "ip" || key == "tag" || key == "port" || key == "asn" || key == "cc" {
      AddressKeyMeans(lib, row, whole, key, value);
    } else if key == "since" || key == "until" {
      TimeKeyMeans(lib, row, whole, key, value);
    } else if key == "scanner" || key == "kind" || key == "class" || key == "proto" {
      LabelKeyMeans(lib, row, whole, key, value);
    } else {
      MetaKeyMeans(lib, row, whole, key, value);
    }
  }

  lemma {:induction false} KeyedMeans(
    lib: Library, row: Row, whole: string -> Option<int>, key: string, value: string, neg: bool)
    requires key in SEARCH_KEYS && value != "" && KeyArg(lib, key, value).Ok? && !BadValue(lib, key, value)
    ensures Value(RowSem(row, whole), AtomCond(KeyText(key), KeyArg(lib, key, value).value).(neg := neg, key := key)) ==
            SaysKey(lib, row, key, value)
  {
    KeyTextHoles(key);
    AtomCondComplete(KeyText(key), KeyArg(lib, key, value).value, key, neg);
    KeyMeans(lib, row, whole, key, value);
  }

  /** How the parser takes a word apart. */
  lemma {:induction false} CondParts(lib: Library, tok: string)
    requires !Refused(lib, tok)
    ensures CondOf(lib, tok).Ok?
    ensures KeyOf(lib, tok) == "" ==> CondOf(lib, tok).value == TextCond(Unsigned(tok), Negative(tok))
    ensures var key, value := KeyOf(lib, tok), ValuePart(tok);
            key != "" ==>
              && value != "" && KeyArg(lib, key, value).Ok?
              && CondOf(lib, tok).value == AtomCond(KeyText(key), KeyArg(lib, key, value).value).(neg := Negative(tok), key := key)
  {
    RefusedIff(lib, tok);
    ColonCuts(Unsigned(tok));
    KeysAre(lib.lower(NamePart(tok)));
  }

  /** The condition compiled for a word is true, false or NULL exactly as the word says. */
  lemma {:induction false} WordCompiled(lib: Library, row: Row, whole: string -> Option<int>, tok: string)
    requires !Refused(lib, tok)
    ensures CondOf(lib, tok).Ok?
    ensures var c := CondOf(lib, tok).value;
            c.neg == Negative(tok) && c.key == KeyOf(lib, tok) && Value(RowSem(row, whole), c) == Says(lib, row, tok)
  {
    CondParts(lib, tok);
    if KeyOf(lib, tok) == "" {
      WordMeans(row, whole, Unsigned(tok), Negative(tok));
    } else {
      KeyedMeans(lib, row, whole, KeyOf(lib, tok), ValuePart(tok), Negative(tok));
    }
  }

  lemma {:induction false} CondsUnfold(lib: Library, toks: seq<string>)
    requires toks != []
    ensures var n := |toks| - 1;
            var init, last := CondsOf(lib, toks[..n]), CondOf(lib, toks[n]);
            && (CondsOf(lib, toks).Ok? <==> init.Ok? && last.Ok?)
            && (CondsOf(lib, toks).Ok? ==> CondsOf(lib, toks) == Ok(init.value + [last.value]))
  {
  }

  ghost predicate NoneRefused(lib: Library, toks: seq<string>) {
    forall i :: 0 <= i < |toks| ==> !Refused(lib, toks[i])
  }

  lemma {:induction false} NoneRefusedSnoc(lib: Library, init: seq<string>, tok: string)
    ensures NoneRefused(lib, init + [tok]) <==> NoneRefused(lib, init) && !Refused(lib, tok)
  {
    var toks := init + [tok];
    assert toks[|init|] == tok && forall i :: 0 <= i < |init| ==> toks[i] == init[i];
    if NoneRefused(lib, toks) {
      assert !Refused(lib, toks[|init|]);
      forall i | 0 <= i < |init|
        ensures !Refused(lib, init[i])
      {
        assert !Refused(lib, toks[i]);
      }
    }
  }

  lemma {:induction false} QueryStep(lib: Library, init: seq<string>, tok: string)
    ensures CondsOf(lib, init + [tok]).Ok? <==> CondsOf(lib, init).Ok? && !Refused(lib, tok)
  {
    assert (init + [tok])[..|init|] == init;
    CondsUnfold(lib, init + [tok]);
    RefusedIff(lib, tok);
  }

  /** A query is refused exactly for one of its words. */
  lemma {:induction false} QueryRefusedIff(lib: Library, toks: seq<string>)
    ensures CondsOf(lib, toks).Ok? <==> NoneRefused(lib, toks)
  {
    if toks != [] {
      var init, tok := toks[..|toks| - 1], toks[|toks| - 1];
      assert toks == init + [tok];
      QueryRefusedIff(lib, init);
      QueryStep(lib, init, tok);
      NoneRefusedSnoc(lib, init, tok);
    }
  }

  /** Some word of that key, without a minus sign, holds of the row. */
  ghost predicate SomeSays(lib: Library, row: Row, toks: seq<string>, key: string)
    requires NoneRefused(lib, toks)
  {
    exists j :: 0 <= j < |toks| && !Negative(toks[j]) && KeyOf(lib, toks[j]) == key && Says(lib, row, toks[j]) == True
  }

  /** The row passes: words with a minus sign are false of it, free words are true of it, and for each key some
      word is. */
  ghost predicate Passes(lib: Library, row: Row, toks: seq<string>)
    requires NoneRefused(lib, toks)
  {
    forall i :: 0 <= i < |toks| ==>
                  if Negative(toks[i]) then Says(lib, row, toks[i]) == False
                  else if KeyOf(lib, toks[i]) == "" then Says(lib, row, toks[i]) == True
                  else SomeSays(lib, row, toks, KeyOf(lib, toks[i]))
  }

  ghost predicate CondsSay(
    lib: Library, row: Row, whole: string -> Option<int>, toks: seq<string>, conds: seq<Cond>)
    requires NoneRefused(lib, toks)
  {
    && |conds| == |toks|
    && forall i :: 0 <= i < |toks| ==>
                     && conds[i].neg == Negative(toks[i]) && conds[i].key == KeyOf(lib, toks[i])
                     && Value(RowSem(row, whole), conds[i]) == Says(lib, row, toks[i])
  }

  lemma {:induction false} LastCond(
    lib: Library, row: Row, whole: string -> Option<int>, init: seq<string>, tok: string) returns (c: Cond)
    requires CondsOf(lib, init).Ok? && !Refused(lib, tok)
    ensures CondsOf(lib, init + [tok]) == Ok(CondsOf(lib, init).value + [c])
    ensures c.neg == Negative(tok) && c.key == KeyOf(lib, tok) && Value(RowSem(row, whole), c) == Says(lib, row, tok)
  {
    WordCompiled(lib, row, whole, tok);
    assert (init + [tok])[..|init|] == init;
    CondsUnfold(lib, init + [tok]);
    c := CondOf(lib, tok).value;
  }

  lemma {:induction false} CondsSaySnoc(
    lib: Library, row: Row, whole: string -> Option<int>, init: seq<string>, tok: string, conds: seq<Cond>, c: Cond)
    requires NoneRefused(lib, init) && CondsSay(lib, row, whole, init, conds) && NoneRefused(lib, init + [tok])
    requires !Refused(lib, tok) && c.neg == Negative(tok) && c.key == KeyOf(lib, tok)
    requires Value(RowSem(row, whole), c) == Says(lib, row, tok)
    ensures CondsSay(lib, row, whole, init + [tok], conds + [c])
  {
    var toks, all := init + [tok], conds + [c];
    forall i | 0 <= i < |toks|
      ensures all[i].neg == Negative(toks[i]) && all[i].key == KeyOf(lib, toks[i])
      ensures Value(RowSem(row, whole), all[i]) == Says(lib, row, toks[i])
    {
      assert i < |init| ==> toks[i] == init[i] && all[i] == conds[i];
    }
  }

  /** The compiled conditions say what the words say, one by one. */
  ghost predicate Said(lib: Library, row: Row, whole: string -> Option<int>, toks: seq<string>) {
    NoneRefused(lib, toks) && CondsOf(lib, toks).Ok? && CondsSay(lib, row, whole, toks, CondsOf(lib, toks).value)
  }

  lemma {:induction false} NothingSaid(lib: Library, row: Row, whole: string -> Option<int>)
    ensures Said(lib, row, whole, [])
  {
  }

  lemma {:induction false} OneMoreSaid(
    lib: Library, row: Row, whole: string -> Option<int>, init: seq<string>, tok: string)
    requires Said(lib, row, whole, init) && !Refused(lib, tok)
    ensures Said(lib, row, whole, init + [tok])
  {
    NoneRefusedSnoc(lib, init, tok);
    var c := LastCond(lib, row, whole, init, tok);
    CondsSaySnoc(lib, row, whole, init, tok, CondsOf(lib, init).value, c);
  }

  lemma {:induction false} CondsAreSaid(lib: Library, row: Row, whole: string -> Option<int>, toks: seq<string>)
    requires NoneRefused(lib, toks)
    ensures Said(lib, row, whole, toks)
  {
    if toks == [] {
      NothingSaid(lib, row, whole);
    } else {
      var init, tok := toks[..|toks| - 1], toks[|toks| - 1];
      assert toks == init + [tok];
      NoneRefusedSnoc(lib, init, tok);
      CondsAreSaid(lib, row, whole, init);
      OneMoreSaid(lib, row, whole, init, tok);
    }
  }

  lemma {:induction false} SatisfiesIsPasses(
    lib: Library, row: Row, whole: string -> Option<int>, toks: seq<string>, conds: seq<Cond>)
    requires NoneRefused(lib, toks) && CondsSay(lib, row, whole, toks, conds)
    ensures Satisfies(RowSem(row, whole), conds) <==> Passes(lib, row, toks)
  {
    forall k
      ensures AlternativeHolds(RowSem(row, whole), conds, k) <==> SomeSays(lib, row, toks, k)
    {
    }
  }

  /** A query string, parsed, compiled to text and read back by SQL's own precedences, keeps exactly the rows that
      its words describe. */
  lemma {:induction false} QueryKeepsIff(
    lib: Library, row: Row, whole: string -> Option<int>, toks: seq<string>, more: seq<Arg>)
    requires NoneRefused(lib, toks)
    ensures CondsOf(lib, toks).Ok?
    ensures var ps := WherePieces(CondsOf(lib, toks).value);
            Keeps(RowSem(row, whole), TextOf(ps), ArgsOf(ps) + more) <==> Passes(lib, row, toks)
  {
    CondsAreSaid(lib, row, whole, toks);
    var conds := CondsOf(lib, toks).value;
    CondsComplete(lib, toks);
    SatisfiesIsPasses(lib, row, whole, toks, conds);
    WhereKeepsIff(conds, RowSem(row, whole), more);
  }

  /** A word is neither true nor false of a row exactly when it asks for a field of the meta column that the row does
      not have; on all other rows a minus sign keeps the complement. */
  lemma {:induction false} UnknownIff(lib: Library, row: Row, tok: string)
    requires !Refused(lib, tok)
    ensures Says(lib, row, tok) == Null <==>
            KeyOf(lib, tok) in {"ja3", "ja4", "sni", "user"} && row.meta(KeyOf(lib, tok)) == None
  {
    var key := KeyOf(lib, tok);
    assert key == "" || key in SEARCH_KEYS;
  }

  /** A word with a minus sign on a field of the meta column also drops the rows that do not have the field. */
  lemma {:induction false} NegatedFieldDrops(lib: Library, row: Row, toks: seq<string>, i: nat)
    requires NoneRefused(lib, toks) && i < |toks| && Negative(toks[i])
    requires KeyOf(lib, toks[i]) in {"ja3", "ja4", "sni", "user"} && row.meta(KeyOf(lib, toks[i])) == None
    ensures !Passes(lib, row, toks)
  {
    assert Says(lib, row, toks[i]) == Null;
  }

  // ---- The whole statement ----

  /** Filters that are not set pass everything. */
  predicate AddressPasses(row: Row, whole: string -> Option<int>, f: HistoryFilter) {
    && (f.country == "" || Like.EqFold(row.text("src_cc"), f.country))
    && (f.ip == "" || StartsWith(row.text("src_ip"), f.ip))
    && (f.tag == "" || Tagged(row, f.tag))
    && (f.asn == 0 || row.asn == f.asn)
    && (f.port == "" || whole(f.port) == Some(row.port))
  }

  predicate ServicePasses(row: Row, whole: string -> Option<int>, f: HistoryFilter, ports: seq<string>) {
    f.service == "" || ports == [] || exists i :: 0 <= i < |ports| && whole(ports[i]) == Some(row.port)
  }

  predicate LabelsPass(lib: Library, row: Row, f: HistoryFilter) {
    && (f.kind == "" || row.text("kind") == lib.lower(f.kind))
    && (f.class_ == "" || row.text("class") == lib.lower(f.class_))
    && (f.proto == "" || row.text("protocol") == lib.lower(f.proto))
    && (f.scanner == "" || Like.EqFold(row.text("scanner"), f.scanner))
  }

  /** The date bounds are inclusive; a date without a time means the end of that day. */
  predicate DatesPass(lib: Library, row: Row, f: HistoryFilter) {
    && (f.dateFrom == "" || !Ordering.Less(row.text("time"), f.dateFrom))
    && (f.dateTo == "" ||
        !Ordering.Less(if lib.bytes(f.dateTo) == 10 then f.dateTo + "T23:59:59Z" else f.dateTo, row.text("time")))
  }

  lemma {:induction false} WhenMeans(sem: (string, seq<Arg>) -> Tri, cond: bool, text: string, args: seq<Arg>)
    ensures AllTrue(sem, When(cond, AtomPiece(text, args))) <==> !cond || sem(text, args) == True
  {
    if cond {
      assert Eval(sem, [AtomPiece(text, args)][0].expr) == sem(text, args);
    }
  }

  lemma {:induction false} CountryFilterMeans(row: Row, whole: string -> Option<int>, f: HistoryFilter)
    ensures AllTrue(RowSem(row, whole), CountryPiece(f)) <==> f.country == "" || Like.EqFold(row.text("src_cc"), f.country)
  {
    CountryMeans(row, whole, f.country);
    WhenMeans(RowSem(row, whole), f.country != "", COUNTRY_IS, [Str(f.country)]);
  }

  lemma {:induction false} IpFilterMeans(row: Row, whole: string -> Option<int>, f: HistoryFilter)
    ensures AllTrue(RowSem(row, whole), IpPiece(f)) <==> f.ip == "" || StartsWith(row.text("src_ip"), f.ip)
  {
    IpMeans(row, whole, f.ip);
    WhenMeans(RowSem(row, whole), f.ip != "", ColumnLike("src_ip"), [Str(Like.Escape(f.ip) + "%")]);
  }

  lemma {:induction false} TagFilterMeans(row: Row, whole: string -> Option<int>, f: HistoryFilter)
    ensures AllTrue(RowSem(row, whole), TagPiece(f)) <==> f.tag == "" || Tagged(row, f.tag)
  {
    if f.tag != "" {
      TagMeans(row, whole, f.tag);
      WhenMeans(RowSem(row, whole), true, ColumnLike(TAG_COLUMN), [Str("%," + Like.Escape(f.tag) + ",%")]);
    }
  }

  lemma {:induction false} NumberFiltersMean(row: Row, whole: string -> Option<int>, f: HistoryFilter)
    ensures AllTrue(RowSem(row, whole), AsnPiece(f)) <==> f.asn == 0 || row.asn == f.asn
    ensures AllTrue(RowSem(row, whole), PortPiece(f)) <==> f.port == "" || whole(f.port) == Some(row.port)
  {
    NumberMeans(row, whole, f.asn);
    WhenMeans(RowSem(row, whole), f.asn != 0, ColumnIs("asn"), [Num(f.asn)]);
    PortTextMeans(row, whole, f.port);
    WhenMeans(RowSem(row, whole), f.port != "", ColumnIs("dst_port"), [Str(f.port)]);
  }

  lemma {:induction false} AddressMeans(row: Row, whole: string -> Option<int>, f: HistoryFilter)
    ensures AllTrue(RowSem(row, whole), AddressPieces(f)) <==> AddressPasses(row, whole, f)
  {
    var sem := RowSem(row, whole);
    var a, b, c, d, e := CountryPiece(f), IpPiece(f), TagPiece(f), AsnPiece(f), PortPiece(f);
    AllTrueConcat(sem, a, b);
    AllTrueConcat(sem, a + b, c);
    AllTrueConcat(sem, a + b + c, d);
    AllTrueConcat(sem, a + b + c + d, e);
    CountryFilterMeans(row, whole, f);
    IpFilterMeans(row, whole, f);
    TagFilterMeans(row, whole, f);
    NumberFiltersMean(row, whole, f);
  }

  lemma {:induction false} ServiceMeans(row: Row, whole: string -> Option<int>, f: HistoryFilter, ports: seq<string>)
    ensures AllTrue(RowSem(row, whole), ServicePiece(f, ports)) <==> ServicePasses(row, whole, f, ports)
  {
    if f.service != "" && ports != [] {
      PortsRead(row, whole, ports);
      WhenMeans(RowSem(row, whole), true, PortsText(|ports|), StrArgs(ports));
    }
  }

  lemma {:induction false} LabelFilterMeans(
    lib: Library, row: Row, whole: string -> Option<int>, column: string, value: string)
    requires |column| < 20 && column != "dst_port" && column != "asn"
    ensures AllTrue(RowSem(row, whole), ColumnPiece(lib, column, value)) <==> value == "" || row.text(column) == lib.lower(value)
  {
    ColumnMeans(row, whole, column, lib.lower(value));
    WhenMeans(RowSem(row, whole), value != "", ColumnIs(column), [Str(lib.lower(value))]);
  }

  lemma {:induction false} LabelsMean(lib: Library, row: Row, whole: string -> Option<int>, f: HistoryFilter)
    ensures AllTrue(RowSem(row, whole), LabelPieces(lib, f)) <==> LabelsPass(lib, row, f)
  {
    var sem := RowSem(row, whole);
    var a, b, c := ColumnPiece(lib, "kind", f.kind), ColumnPiece(lib, "class", f.class_), ColumnPiece(lib, "protocol", f.proto);
    AllTrueConcat(sem, a, b);
    AllTrueConcat(sem, a + b, c);
    AllTrueConcat(sem, a + b + c, ScannerPiece(f));
    LabelFilterMeans(lib, row, whole, "kind", f.kind);
    LabelFilterMeans(lib, row, whole, "class", f.class_);
    LabelFilterMeans(lib, row, whole, "protocol", f.proto);
    ScannerMeans(row, whole, f.scanner);
    WhenMeans(sem, f.scanner != "", SCANNER_IS, [Str(f.scanner)]);
  }

  lemma {:induction false} DatesMean(lib: Library, row: Row, whole: string -> Option<int>, f: HistoryFilter)
    ensures AllTrue(RowSem(row, whole), TailPieces(lib, f)) <==> DatesPass(lib, row, f)
  {
    var sem := RowSem(row, whole);
    AllTrueConcat(sem, FromPiece(f), ToPiece(lib, f));
    TimeMeans(row, whole, f.dateFrom);
    WhenMeans(sem, f.dateFrom != "", TIME_FROM, [Str(f.dateFrom)]);
    TimeMeans(row, whole, EndOfDay(lib, f.dateTo));
    WhenMeans(sem, f.dateTo != "", TIME_TO, [Str(EndOfDay(lib, f.dateTo))]);
  }

  /** The ports the filter's service stands for; none without a service or a way to resolve it. */
  function ServicePorts(f: HistoryFilter, portsFor: Option<string -> seq<string>>): seq<string> {
    if f.service == "" || portsFor.None? then [] else portsFor.value(f.service)
  }

  /** The statement for a filter with a query keeps exactly the rows that pass every filter and the words of the
      query. */
  lemma {:induction false} StatementMeansIff(
    lib: Library, row: Row, whole: string -> Option<int>, f: HistoryFilter, toks: seq<string>,
    portsFor: Option<string -> seq<string>>, more: seq<Arg>)
    requires NoneRefused(lib, toks) && CondsOf(lib, toks) == Ok(f.conds)
    ensures var ps := AllPieces(lib, f, PortList(PortsAsked(f, portsFor)));
            Keeps(RowSem(row, whole), TextOf(ps), ArgsOf(ps) + more) <==>
              && AddressPasses(row, whole, f) && ServicePasses(row, whole, f, ServicePorts(f, portsFor))
              && LabelsPass(lib, row, f) && Passes(lib, row, toks) && DatesPass(lib, row, f)
  {
    var ports := PortList(PortsAsked(f, portsFor));
    assert ports == ServicePorts(f, portsFor);
    var sem := RowSem(row, whole);
    CondsComplete(lib, toks);
    StatementKeepsIff(lib, f, ports, sem, more);
    QueryKeepsIff(lib, row, whole, toks, more);
    WhereKeepsIff(f.conds, sem, more);
    AllTrueConcat(sem, AddressPieces(f), ServicePiece(f, ports));
    AllTrueConcat(sem, AddressPieces(f) + ServicePiece(f, ports), LabelPieces(lib, f));
    AddressMeans(row, whole, f);
    ServiceMeans(row, whole, f, ports);
    LabelsMean(lib, row, whole, f);
    DatesMean(lib, row, whole, f);
  }

  /** No statement is built exactly when the service stands for no port. */
  lemma {:induction false} NothingIff(f: HistoryFilter, portsFor: Option<string -> seq<string>>)
    ensures PortsAsked(f, portsFor) == Some([]) <==> f.service != "" && portsFor.Some? && ServicePorts(f, portsFor) == []
  {
  }
}
