/** From a query string and a filter to the final statement: `tokenize`, `ParseQuery`,
    `keyCond`, `textCond` and the clause assembly of `QueryHistory`. */
module HistoryQuery {
  import opened Basics
  import opened SqlText
  import opened SqlSearch
  import Like

  datatype SearchError =
    | UnterminatedQuote
    | TooManyTerms
    | UnknownKey(key: string)
    | NeedsValue(key: string)
    | BadPort
    | BadCountry
    | BadAsn
    | BadTime(key: string)

  datatype Result<+T> = Ok(value: T) | Err(error: SearchError)

  /** Library functions the parser calls. `bytes` is the length of a string in bytes; `resolve` turns
      a duration or date into a timestamp, relative to the current time. */
  datatype Library = Library(
    isSpace: char -> bool,
    isLetterOrDigit: char -> bool,
    lower: string -> string,
    upper: string -> string,
    bytes: string -> nat,
    atoi: string -> Option<int>,
    parseUint32: string -> Option<nat>,
    resolve: string -> Option<string>)

  const MAX_QUERY_TOKENS := 20

  // ---- Tokens ----

  /** The words of the remaining text from a scanner state; quotes toggle and are dropped. */
  function Words(lib: Library, q: string, cur: string, inQuote: bool, has: bool): seq<string>
    decreases |q|
  {
    if q == "" then (if has then [cur] else [])
    else if q[0] == '"' then Words(lib, q[1..], cur, !inQuote, true)
    else if lib.isSpace(q[0]) && !inQuote then (if has then [cur] else []) + Words(lib, q[1..], "", false, false)
    else Words(lib, q[1..], cur + [q[0]], inQuote, true)
  }

  /** The text has an odd number of double quotes. */
  predicate OddQuotes(q: string) {
    q != "" && (if q[0] == '"' then !OddQuotes(q[1..]) else OddQuotes(q[1..]))
  }

  /** What `tokenize` returns: an error exactly for an odd number of quotes or more than twenty words. */
  function Tokens(lib: Library, q: string): Result<seq<string>> {
    var words := Words(lib, q, "", false, false);
    if OddQuotes(q) then Err(UnterminatedQuote)
    else if |words| > MAX_QUERY_TOKENS then Err(TooManyTerms)
    else Ok(words)
  }

  method Tokenize(lib: Library, q: string) returns (r: Result<seq<string>>)
    ensures r == Tokens(lib, q)
  {
    var toks: seq<string> := [];
    var cur, inQuote, has := "", false, false;
    assert q[0..] == q;
    for i := 0 to |q|
      invariant toks + Words(lib, q[i..], cur, inQuote, has) == Words(lib, q, "", false, false)
      invariant OddQuotes(q) == (OddQuotes(q[i..]) != inQuote)
    {
      assert q[i..][1..] == q[i + 1..];
      if q[i] == '"' {
        inQuote, has := !inQuote, true;
      } else if lib.isSpace(q[i]) && !inQuote {
        if has {
          toks := toks + [cur];
        }
        cur, has := "", false;
      } else {
        cur, has := cur + [q[i]], true;
      }
    }
    assert q[|q|..] == "";
    if inQuote {
      return Err(UnterminatedQuote);
    }
    if has {
      toks := toks + [cur];
    }
    assert toks == Words(lib, q, "", false, false);
    if |toks| > MAX_QUERY_TOKENS {
      return Err(TooManyTerms);
    }
    r := Ok(toks);
  }

  // ---- What the words are ----

  predicate QuoteFree(w: string) {
    '"' !in w
  }

  /** No word holds a quote. */
  lemma {:induction false} WordsAreQuoteFree(lib: Library, q: string, cur: string, inQuote: bool, has: bool, i: nat)
    requires QuoteFree(cur) && i < |Words(lib, q, cur, inQuote, has)|
    ensures QuoteFree(Words(lib, q, cur, inQuote, has)[i])
    decreases |q|
  {
    if q != "" {
      if q[0] == '"' {
        WordsAreQuoteFree(lib, q[1..], cur, !inQuote, true, i);
      } else if lib.isSpace(q[0]) && !inQuote {
        var first := if has then [cur] else [];
        if i >= |first| {
          WordsAreQuoteFree(lib, q[1..], "", false, false, i - |first|);
        }
      } else {
        WordsAreQuoteFree(lib, q[1..], cur + [q[0]], inQuote, true, i);
      }
    }
  }

  /** Inside quotes everything up to the next quote is text. */
  lemma {:induction false} WordsInside(lib: Library, w: string, rest: string, cur: string)
    requires QuoteFree(w)
    ensures Words(lib, w + rest, cur, true, true) == Words(lib, rest, cur + w, true, true)
    decreases |w|
  {
    if w == "" {
      assert w + rest == rest && cur + w == cur;
    } else {
      assert (w + rest)[1..] == w[1..] + rest && w[0] in w;
      assert cur + [w[0]] + w[1..] == cur + w;
      WordsInside(lib, w[1..], rest, cur + [w[0]]);
    }
  }

  /** Every word in quotes, a space behind each. */
  function Print(ws: seq<string>): string {
    if ws == [] then "" else "\"" + (ws[0] + ("\" " + Print(ws[1..])))
  }

  lemma {:induction false} PrintedWord(lib: Library, w: string, rest: string)
    requires QuoteFree(w) && lib.isSpace(' ')
    ensures Words(lib, "\"" + (w + ("\" " + rest)), "", false, false) == [w] + Words(lib, rest, "", false, false)
  {
    var tail := "\" " + rest;
    assert ("\"" + (w + tail))[1..] == w + tail;
    WordsInside(lib, w, tail, "");
    assert "" + w == w;
    assert tail[1..] == " " + rest && (" " + rest)[1..] == rest;
    assert Words(lib, tail, w, true, true) == Words(lib, " " + rest, w, false, true);
  }

  /** Every list of quote-free words, empty ones and ones with spaces included, is read back. */
  lemma {:induction false} PrintedWordsReadBack(lib: Library, ws: seq<string>)
    requires lib.isSpace(' ') && forall i :: 0 <= i < |ws| ==> QuoteFree(ws[i])
    ensures Words(lib, Print(ws), "", false, false) == ws && !OddQuotes(Print(ws))
  {
    if ws != [] {
      PrintedWordsReadBack(lib, ws[1..]);
      PrintedWord(lib, ws[0], Print(ws[1..]));
      EvenQuotes(ws[0], Print(ws[1..]));
    }
  }

  lemma {:induction false} QuotesConcat(a: string, b: string)
    ensures OddQuotes(a + b) == (OddQuotes(a) != OddQuotes(b))
  {
    if a == "" {
      assert a + b == b;
    } else {
      assert (a + b)[1..] == a[1..] + b;
      QuotesConcat(a[1..], b);
    }
  }

  lemma {:induction false} NoQuotes(w: string)
    requires QuoteFree(w)
    ensures !OddQuotes(w)
  {
    if w != "" {
      NoQuotes(w[1..]);
    }
  }

  lemma {:induction false} EvenQuotes(w: string, rest: string)
    requires QuoteFree(w)
    ensures OddQuotes("\"" + (w + ("\" " + rest))) == OddQuotes(rest)
  {
    NoQuotes(w);
    QuotesConcat("\"", w + ("\" " + rest));
    QuotesConcat(w, "\" " + rest);
    QuotesConcat("\" ", rest);
    assert "\""[1..] == "" && "\" "[1..] == " " && " "[1..] == "";
  }

  // ---- Conditions ----

  const TEXT_COLUMNS := ["detail", "asn_org", "src_city", "meta", "src_ip", "tags", "scanner"]

  function ColumnLike(column: string): string {
    OneHole(column + " LIKE ", " ESCAPE '\\'")
  }

  function ColumnIs(column: string): string {
    OneHole(column + " = ", "")
  }

  const COUNTRY_IS := OneHole("UPPER(src_cc) = UPPER(", ")")
  const SCANNER_IS := OneHole("LOWER(scanner) = LOWER(", ")")
  const TIME_FROM := OneHole("time >= ", "")
  const TIME_TO := OneHole("time <= ", "")
  const TAG_COLUMN := "(',' || tags || ',')"

  function LikePiece(column: string, pattern: string): Piece {
    AtomPiece(ColumnLike(column), [Str(pattern)])
  }

  lemma {:induction false} ColumnTexts(column: string)
    requires '?' !in column
    ensures Holes(ColumnLike(column)) == 1 && Holes(ColumnIs(column)) == 1
  {
    OneHoleHolds(column + " LIKE ", " ESCAPE '\\'");
    OneHoleHolds(column + " = ", "");
  }

  lemma {:induction false} CountryText()
    ensures Holes(COUNTRY_IS) == 1
  {
    OneHoleHolds("UPPER(src_cc) = UPPER(", ")");
  }

  lemma {:induction false} ScannerText()
    ensures Holes(SCANNER_IS) == 1
  {
    OneHoleHolds("LOWER(scanner) = LOWER(", ")");
  }

  lemma {:induction false} TimeTexts()
    ensures Holes(TIME_FROM) == 1 && Holes(TIME_TO) == 1
  {
    OneHoleHolds("time >= ", "");
    OneHoleHolds("time <= ", "");
  }

  lemma {:induction false} FixedTexts()
    ensures Holes(COUNTRY_IS) == 1 && Holes(SCANNER_IS) == 1 && Holes(TIME_FROM) == 1 && Holes(TIME_TO) == 1
  {
    CountryText();
    ScannerText();
    TimeTexts();
  }

  lemma {:induction false} AddressTexts()
    ensures Holes(ColumnIs("dst_port")) == 1 && Holes(ColumnLike("src_ip")) == 1 && Holes(ColumnIs("asn")) == 1
  {
    ColumnTexts("dst_port");
    ColumnTexts("src_ip");
    ColumnTexts("asn");
  }

  lemma {:induction false} TagText()
    ensures Holes(ColumnLike(TAG_COLUMN)) == 1
  {
    ColumnTexts(TAG_COLUMN);
  }

  lemma {:induction false} LabelTexts()
    ensures Holes(ColumnIs("kind")) == 1 && Holes(ColumnIs("class")) == 1 && Holes(ColumnIs("protocol")) == 1
  {
    ColumnTexts("kind");
    ColumnTexts("class");
    ColumnTexts("protocol");
  }

  lemma {:induction false} MetaText(key: string)
    requires IsMetaKey(key)
    ensures Holes(ColumnIs(MetaColumn(key))) == 1
  {
    MetaColumnText(key);
    ColumnTexts(MetaColumn(key));
  }

  function MetaColumn(key: string): string {
    "json_extract(" + META_JSON + (", '$." + key + "')")
  }

  lemma {:induction false} MetaColumnText(key: string)
    requires IsMetaKey(key)
    ensures '?' !in MetaColumn(key)
  {
    assert '?' !in META_JSON;
    assert '?' !in key;
  }

  function TextPieces(pattern: string, columns: seq<string>): (ps: seq<Piece>)
    ensures |ps| == |columns| && forall i :: 0 <= i < |columns| ==> ps[i] == LikePiece(columns[i], pattern)
  {
    seq(|columns|, i requires 0 <= i < |columns| => LikePiece(columns[i], pattern))
  }

  /** `textCond`: the value in any of seven columns. */
  function TextCond(s: string, neg: bool): Cond {
    var p := Parens(OrPiece(TextPieces("%" + (Like.Escape(s) + "%"), TEXT_COLUMNS)));
    Cond("", p.toks, p.args, neg)
  }

  function AtomCond(text: string, arg: Arg): Cond {
    Cond("", AtomPiece(text, [arg]).toks, [arg], false)
  }

  predicate IsMetaKey(k: string) {
    k == "ja3" || k == "ja4" || k == "sni" || k == "user"
  }

  function ColumnFor(k: string): Option<string> {
    if k == "kind" then Some("kind")
    else if k == "class" then Some("class")
    else if k == "proto" then Some("protocol")
    else None
  }

  predicate IsKey(k: string) {
    || k == "port" || k == "ip" || k == "cc" || k == "asn" || k == "tag" || k == "scanner" || k == "since" || k == "until"
    || ColumnFor(k).Some? || IsMetaKey(k)
  }

  const META_JSON := "(CASE WHEN meta = '' THEN '{}' ELSE meta END)"

  function TrimAS(s: string): string {
    if |s| >= 2 && s[..2] == "AS" then s[2..] else s
  }

  /** The text of a key on a column of its own. */
  function FixedText(key: string): string {
    if key == "port" then ColumnIs("dst_port")
    else if key == "ip" then ColumnLike("src_ip")
    else if key == "cc" then COUNTRY_IS
    else if key == "asn" then ColumnIs("asn")
    else if key == "tag" then ColumnLike(TAG_COLUMN)
    else if key == "scanner" then SCANNER_IS
    else if key == "until" then TIME_TO
    else TIME_FROM
  }

  /** The text of a key's condition. */
  function KeyText(key: string): string {
    if ColumnFor(key).Some? then ColumnIs(ColumnFor(key).value)
    else if IsMetaKey(key) then ColumnIs(MetaColumn(key))
    else FixedText(key)
  }

  /** The argument of a key's condition. */
  function KeyArg(lib: Library, key: string, val: string): Result<Arg> {
    if key == "port" then
      var n := lib.atoi(val);
      if n.None? || n.value < 0 || n.value > 65535 then Err(BadPort) else Ok(Num(n.value))
    else if key == "ip" then Ok(Str(Like.Escape(val) + "%"))
    else if key == "cc" then
      if lib.bytes(val) != 2 then Err(BadCountry) else Ok(Str(val))
    else if key == "asn" then
      var n := lib.parseUint32(TrimAS(lib.upper(val)));
      if n.None? then Err(BadAsn) else Ok(Num(n.value))
    else if key == "tag" then Ok(Str("%," + Like.Escape(val) + ",%"))
    else if key == "scanner" then Ok(Str(val))
    else if key == "since" || key == "until" then
      var ts := lib.resolve(val);
      if ts.None? then Err(BadTime(key)) else Ok(Str(ts.value))
    else if ColumnFor(key).Some? then Ok(Str(lib.lower(val)))
    else if IsMetaKey(key) then Ok(Str(val))
    else Err(UnknownKey(key))
  }

  /** `keyCond`. */
  function KeyCond(lib: Library, key: string, val: string): Result<Cond> {
    var arg := KeyArg(lib, key, val);
    if arg.Err? then Err(arg.error) else Ok(AtomCond(KeyText(key), arg.value))
  }

  /** Position of the first colon, or the length. */
  function ColonAt(s: string): (n: nat)
    ensures n <= |s|
  {
    if s == "" || s[0] == ':' then 0 else 1 + ColonAt(s[1..])
  }

  predicate IsIdent(lib: Library, s: string) {
    s != "" && forall i :: 0 <= i < |s| ==> lib.isLetterOrDigit(s[i]) || s[i] == '_'
  }

  /** A `word:value` that looks like a mistyped key. */
  predicate LooksLikeKey(lib: Library, key: string, val: string) {
    && IsIdent(lib, key) && '.' !in key && ' ' !in key && lib.bytes(key) <= 12
    && val != "" && ':' !in val && val[0] != '/'
  }

  /** The condition of one token. */
  function CondOf(lib: Library, tok: string): Result<Cond> {
    var neg := |tok| > 1 && tok[0] == '-';
    var t := if neg then tok[1..] else tok;
    var n := ColonAt(t);
    var ok := n < |t|;
    var key := lib.lower(t[..n]);
    var val := if ok then t[n + 1..] else "";
    if !ok || !IsKey(key) then
      if ok && LooksLikeKey(lib, key, val) then Err(UnknownKey(key)) else Ok(TextCond(t, neg))
    else if val == "" then Err(NeedsValue(key))
    else
      var c := KeyCond(lib, key, val);
      if c.Err? then c else Ok(c.value.(neg := neg, key := key))
  }

  /** The conditions of all tokens, or the first error. */
  function CondsOf(lib: Library, toks: seq<string>): Result<seq<Cond>> {
    if toks == [] then Ok([])
    else
      var n := |toks| - 1;
      var init := CondsOf(lib, toks[..n]);
      if init.Err? then init
      else
        var c := CondOf(lib, toks[n]);
        if c.Err? then Err(c.error) else Ok(init.value + [c.value])
  }

  /** `ParseQuery`. */
  method ParseQuery(lib: Library, q: string) returns (r: Result<seq<Cond>>)
    ensures Tokens(lib, q).Err? ==> r == Err(Tokens(lib, q).error)
    ensures Tokens(lib, q).Ok? ==> r == CondsOf(lib, Tokens(lib, q).value)
    ensures r.Ok? ==> AllComplete(r.value) && |r.value| <= MAX_QUERY_TOKENS
  {
    var toks := Tokenize(lib, q);
    if toks.Err? {
      return Err(toks.error);
    }
    r := ParseTokens(lib, toks.value);
    if r.Ok? {
      CondsComplete(lib, toks.value);
    }
  }

  /** The loop over the tokens. */
  method ParseTokens(lib: Library, toks: seq<string>) returns (r: Result<seq<Cond>>)
    ensures r == CondsOf(lib, toks)
  {
    var conds: seq<Cond> := [];
    for n := 0 to |toks|
      invariant CondsOf(lib, toks[..n]) == Ok(conds)
    {
      CondsStep(lib, toks, n);
      var c := CondOf(lib, toks[n]);
      if c.Err? {
        ErrorStays(lib, toks, n + 1);
        return Err(c.error);
      }
      conds := conds + [c.value];
    }
    assert toks[..|toks|] == toks;
    r := Ok(conds);
  }

  lemma {:induction false} CondsStep(lib: Library, toks: seq<string>, n: nat)
    requires n < |toks| && CondsOf(lib, toks[..n]).Ok?
    ensures var c := CondOf(lib, toks[n]);
            CondsOf(lib, toks[..n + 1]) == if c.Err? then Err(c.error) else Ok(CondsOf(lib, toks[..n]).value + [c.value])
  {
    assert toks[..n + 1][..n] == toks[..n];
  }

  lemma {:induction false} ErrorStays(lib: Library, toks: seq<string>, n: nat)
    requires n <= |toks| && CondsOf(lib, toks[..n]).Err?
    ensures CondsOf(lib, toks) == CondsOf(lib, toks[..n])
    decreases |toks| - n
  {
    if n < |toks| {
      assert toks[..n + 1][..n] == toks[..n];
      ErrorStays(lib, toks, n + 1);
    } else {
      assert toks[..n] == toks;
    }
  }

  lemma {:induction false} TextColumns(i: nat)
    requires i < |TEXT_COLUMNS|
    ensures '?' !in TEXT_COLUMNS[i]
  {
  }

  lemma {:induction false} TextCondComplete(s: string, neg: bool)
    ensures Complete(TextCond(s, neg))
    ensures PieceOf(TextCond(s, neg)) == Parens(OrPiece(TextPieces("%" + (Like.Escape(s) + "%"), TEXT_COLUMNS)))
  {
    var ps := TextPieces("%" + (Like.Escape(s) + "%"), TEXT_COLUMNS);
    forall i | 0 <= i < |ps|
      ensures ReadsAsNot(ps[i])
    {
      TextColumns(i);
      ColumnTexts(TEXT_COLUMNS[i]);
      AtomReads(ColumnLike(TEXT_COLUMNS[i]), [Str("%" + (Like.Escape(s) + "%"))]);
      PrimaryReadsAsNot(ps[i]);
    }
    OrJoinReads(ps);
    ParensRead(OrPiece(ps));
    CompletePiece("", Parens(OrPiece(ps)), neg);
  }

  lemma {:induction false} AtomCondComplete(text: string, arg: Arg, key: string, neg: bool)
    requires Holes(text) == 1
    ensures Complete(AtomCond(text, arg).(neg := neg, key := key))
    ensures PieceOf(AtomCond(text, arg).(neg := neg, key := key)) == AtomPiece(text, [arg])
  {
    AtomReads(text, [arg]);
    CompletePiece(key, AtomPiece(text, [arg]), neg);
  }

  lemma {:induction false} FixedTextHoles(key: string)
    ensures Holes(FixedText(key)) == 1
  {
    if key == "port" || key == "ip" {
      AddressTexts();
    } else if key == "cc" {
      FixedTexts();
    } else if key == "asn" {
      AddressTexts();
    } else if key == "tag" {
      TagText();
    } else {
      FixedTexts();
    }
  }

  /** Every key's text has one placeholder. */
  lemma {:induction false} KeyTextHoles(key: string)
    ensures Holes(KeyText(key)) == 1
  {
    if ColumnFor(key).Some? {
      LabelTexts();
    } else if IsMetaKey(key) {
      MetaText(key);
    } else {
      FixedTextHoles(key);
    }
  }

  lemma {:induction false} CondComplete(lib: Library, tok: string)
    requires CondOf(lib, tok).Ok?
    ensures Complete(CondOf(lib, tok).value)
  {
    var neg := |tok| > 1 && tok[0] == '-';
    var t := if neg then tok[1..] else tok;
    var n := ColonAt(t);
    var key := lib.lower(t[..n]);
    if n < |t| && IsKey(key) {
      KeyTextHoles(key);
      AtomCondComplete(KeyText(key), KeyArg(lib, key, t[n + 1..]).value, key, neg);
    } else {
      TextCondComplete(t, neg);
    }
  }

  /** Every condition a parsed query yields is self-contained text with exactly its own arguments. */
  lemma {:induction false} CondsComplete(lib: Library, toks: seq<string>)
    requires CondsOf(lib, toks).Ok?
    ensures AllComplete(CondsOf(lib, toks).value) && |CondsOf(lib, toks).value| == |toks|
  {
    if toks != [] {
      CondsComplete(lib, toks[..|toks| - 1]);
      CondComplete(lib, toks[|toks| - 1]);
    }
  }

  // ---- The statement ----

  const DEFAULT_HISTORY_LIMIT := 20000
  const MAX_HISTORY_LIMIT := 100000

  /** Empty strings and zero mean "not set". */
  datatype HistoryFilter = HistoryFilter(
    country: string, ip: string, tag: string, asn: nat, port: string, service: string,
    kind: string, class_: string, proto: string, scanner: string, conds: seq<Cond>,
    dateFrom: string, dateTo: string, limit: int, offset: int)

  /** A statement, or the empty result returned without asking the database. */
  datatype Built = Nothing | Statement(where: seq<seq<Tok>>, args: seq<Arg>)

  function When(cond: bool, p: Piece): seq<Piece> {
    if cond then [p] else []
  }

  /** `?,?,…,?` with `n` placeholders. */
  function Placeholders(n: nat): string {
    if n == 0 then "" else if n == 1 then "?" else Placeholders(n - 1) + "," + "?"
  }

  /** The port list has one placeholder per port. */
  lemma {:induction false} PlaceholderCount(n: nat)
    ensures Holes(Placeholders(n)) == n
  {
    if n > 0 {
      assert "?"[1..] == "" && ","[1..] == "";
    }
    if n > 1 {
      PlaceholderCount(n - 1);
      HolesConcat(Placeholders(n - 1) + ",", "?");
      HolesConcat(Placeholders(n - 1), ",");
    }
  }

  function PortsText(n: nat): string {
    "dst_port IN (" + Placeholders(n) + ")"
  }

  lemma {:induction false} NoHoleInHead(head: string)
    requires head == "dst_port IN ("
    ensures '?' !in head
  {
  }

  lemma {:induction false} NoHoleInTail(tail: string)
    requires tail == ")"
    ensures '?' !in tail
  {
  }

  /** A text around a list has the placeholders of the list. */
  lemma {:induction false} HolesBetween(before: string, list: string, after: string)
    requires '?' !in before && '?' !in after
    ensures Holes(before + list + after) == Holes(list)
  {
    NoHoles(before);
    NoHoles(after);
    HolesConcat(before + list, after);
    HolesConcat(before, list);
  }

  lemma {:induction false} PortsTextHoles(n: nat)
    ensures Holes(PortsText(n)) == n
  {
    PlaceholderCount(n);
    var head, tail := "dst_port IN (", ")";
    NoHoleInHead(head);
    NoHoleInTail(tail);
    HolesBetween(head, Placeholders(n), tail);
  }

  function StrArgs(xs: seq<string>): (r: seq<Arg>)
    ensures |r| == |xs|
  {
    seq(|xs|, i requires 0 <= i < |xs| => Str(xs[i]))
  }

  function PortsPiece(ports: seq<string>): Piece {
    AtomPiece(PortsText(|ports|), StrArgs(ports))
  }

  function EndOfDay(lib: Library, date: string): string {
    if lib.bytes(date) == 10 then date + "T23:59:59Z" else date
  }

  function CountryPiece(f: HistoryFilter): seq<Piece> {
    When(f.country != "", AtomPiece(COUNTRY_IS, [Str(f.country)]))
  }

  function IpPiece(f: HistoryFilter): seq<Piece> {
    When(f.ip != "", AtomPiece(ColumnLike("src_ip"), [Str(Like.Escape(f.ip) + "%")]))
  }

  function TagPiece(f: HistoryFilter): seq<Piece> {
    When(f.tag != "", AtomPiece(ColumnLike(TAG_COLUMN), [Str("%," + Like.Escape(f.tag) + ",%")]))
  }

  function AsnPiece(f: HistoryFilter): seq<Piece> {
    When(f.asn != 0, AtomPiece(ColumnIs("asn"), [Num(f.asn)]))
  }

  function PortPiece(f: HistoryFilter): seq<Piece> {
    When(f.port != "", AtomPiece(ColumnIs("dst_port"), [Str(f.port)]))
  }

  function ServicePiece(f: HistoryFilter, ports: seq<string>): seq<Piece> {
    When(f.service != "" && ports != [], PortsPiece(ports))
  }

  function ColumnPiece(lib: Library, column: string, value: string): seq<Piece> {
    When(value != "", AtomPiece(ColumnIs(column), [Str(lib.lower(value))]))
  }

  function ScannerPiece(f: HistoryFilter): seq<Piece> {
    When(f.scanner != "", AtomPiece(SCANNER_IS, [Str(f.scanner)]))
  }

  function FromPiece(f: HistoryFilter): seq<Piece> {
    When(f.dateFrom != "", AtomPiece(TIME_FROM, [Str(f.dateFrom)]))
  }

  function ToPiece(lib: Library, f: HistoryFilter): seq<Piece> {
    When(f.dateTo != "", AtomPiece(TIME_TO, [Str(EndOfDay(lib, f.dateTo))]))
  }

  function AddressPieces(f: HistoryFilter): seq<Piece> {
    CountryPiece(f) + IpPiece(f) + TagPiece(f) + AsnPiece(f) + PortPiece(f)
  }

  function LabelPieces(lib: Library, f: HistoryFilter): seq<Piece> {
    ColumnPiece(lib, "kind", f.kind) + ColumnPiece(lib, "class", f.class_) + ColumnPiece(lib, "protocol", f.proto) + ScannerPiece(f)
  }

  /** The plain filters before the search conditions. */
  function HeadPieces(lib: Library, f: HistoryFilter, ports: seq<string>): seq<Piece> {
    AddressPieces(f) + ServicePiece(f, ports) + LabelPieces(lib, f)
  }

  /** The date filters behind them. */
  function TailPieces(lib: Library, f: HistoryFilter): seq<Piece> {
    FromPiece(f) + ToPiece(lib, f)
  }

  function AllPieces(lib: Library, f: HistoryFilter, ports: seq<string>): seq<Piece> {
    HeadPieces(lib, f, ports) + WherePieces(f.conds) + TailPieces(lib, f)
  }

  /** The ports of the requested service, if one is requested and can be resolved. */
  function PortsAsked(f: HistoryFilter, portsFor: Option<string -> seq<string>>): Option<seq<string>> {
    if f.service != "" && portsFor.Some? then Some(portsFor.value(f.service)) else None
  }

  function PortList(ports: Option<seq<string>>): seq<string> {
    if ports.Some? then ports.value else []
  }

  function OffsetOf(f: HistoryFilter): nat {
    if f.offset < 0 then 0 else f.offset
  }

  function LimitOf(f: HistoryFilter): (n: int)
    ensures 1 <= n <= MAX_HISTORY_LIMIT
  {
    if f.limit <= 0 then DEFAULT_HISTORY_LIMIT else if f.limit > MAX_HISTORY_LIMIT then MAX_HISTORY_LIMIT else f.limit
  }

  /** The page asked for: the limit as given, 20000 if none is given and never above 100000; the offset as given,
      none if it is negative. */
  predicate Pages(f: HistoryFilter, limit: Arg, offset: Arg) {
    && limit.Num? && offset.Num?
    && (1 <= f.limit <= 100000 ==> limit.value == f.limit) && (f.limit <= 0 ==> limit.value == 20000)
    && (f.limit > 100000 ==> limit.value == 100000)
    && (f.offset >= 0 ==> offset.value == f.offset) && (f.offset < 0 ==> offset.value == 0)
  }

  /** The clauses and arguments so far are those of the pieces `ps`. */
  ghost predicate Holds(ps: seq<Piece>, where: seq<seq<Tok>>, args: seq<Arg>) {
    where == TextOf(ps) && args == ArgsOf(ps)
  }

  lemma {:induction false} HoldsConcat(ps: seq<Piece>, qs: seq<Piece>, where: seq<seq<Tok>>, args: seq<Arg>)
    requires Holds(ps, where, args)
    ensures Holds(ps + qs, where + TextOf(qs), args + ArgsOf(qs))
  {
    ArgsConcat(ps, qs);
  }

  /** Appends one clause with its arguments, if asked for. */
  method Clause(asked: bool, text: string, arg: Arg, where: seq<seq<Tok>>, args: seq<Arg>, ghost ps: seq<Piece>)
    returns (where': seq<seq<Tok>>, args': seq<Arg>)
    requires Holds(ps, where, args)
    ensures Holds(ps + When(asked, AtomPiece(text, [arg])), where', args')
  {
    where', args' := where, args;
    if asked {
      HoldsConcat(ps, [AtomPiece(text, [arg])], where, args);
      ArgsOfOne(AtomPiece(text, [arg]));
      where' := where' + [[Atom(text)]];
      args' := args' + [arg];
    } else {
      assert ps + [] == ps;
    }
  }

  lemma {:induction false} ArgsOfOne(p: Piece)
    ensures ArgsOf([p]) == p.args && TextOf([p]) == [p.toks]
  {
    assert [p][1..] == [];
  }

  method AddressClauses(f: HistoryFilter) returns (where: seq<seq<Tok>>, args: seq<Arg>)
    ensures Holds(AddressPieces(f), where, args)
  {
    where, args := [], [];
    where, args := Clause(f.country != "", COUNTRY_IS, Str(f.country), where, args, []);
    assert [] + CountryPiece(f) == CountryPiece(f);
    where, args := Clause(f.ip != "", ColumnLike("src_ip"), Str(Like.Escape(f.ip) + "%"), where, args, CountryPiece(f));
    where, args := Clause(f.tag != "", ColumnLike(TAG_COLUMN), Str("%," + Like.Escape(f.tag) + ",%"), where, args,
                          CountryPiece(f) + IpPiece(f));
    where, args := Clause(f.asn != 0, ColumnIs("asn"), Num(f.asn), where, args, CountryPiece(f) + IpPiece(f) + TagPiece(f));
    where, args := Clause(f.port != "", ColumnIs("dst_port"), Str(f.port), where, args,
                          CountryPiece(f) + IpPiece(f) + TagPiece(f) + AsnPiece(f));
  }

  method LabelClauses(lib: Library, f: HistoryFilter) returns (where: seq<seq<Tok>>, args: seq<Arg>)
    ensures Holds(LabelPieces(lib, f), where, args)
  {
    where, args := [], [];
    ghost var ps: seq<Piece> := [];
    where, args := Clause(f.kind != "", ColumnIs("kind"), Str(lib.lower(f.kind)), where, args, ps);
    ps := ps + ColumnPiece(lib, "kind", f.kind);
    where, args := Clause(f.class_ != "", ColumnIs("class"), Str(lib.lower(f.class_)), where, args, ps);
    ps := ps + ColumnPiece(lib, "class", f.class_);
    where, args := Clause(f.proto != "", ColumnIs("protocol"), Str(lib.lower(f.proto)), where, args, ps);
    ps := ps + ColumnPiece(lib, "protocol", f.proto);
    where, args := Clause(f.scanner != "", SCANNER_IS, Str(f.scanner), where, args, ps);
    assert [] + ColumnPiece(lib, "kind", f.kind) == ColumnPiece(lib, "kind", f.kind);
  }

  method DateClauses(lib: Library, f: HistoryFilter) returns (where: seq<seq<Tok>>, args: seq<Arg>)
    ensures Holds(TailPieces(lib, f), where, args)
  {
    where, args := [], [];
    where, args := Clause(f.dateFrom != "", TIME_FROM, Str(f.dateFrom), where, args, []);
    assert [] + FromPiece(f) == FromPiece(f);
    var dateTo := f.dateTo;
    if lib.bytes(dateTo) == 10 {
      dateTo := dateTo + "T23:59:59Z";
    }
    where, args := Clause(f.dateTo != "", TIME_TO, Str(dateTo), where, args, FromPiece(f));
  }

  /** The loop that lists the ports of a service. */
  method PortClause(ports: seq<string>) returns (text: string, args: seq<Arg>)
    requires ports != []
    ensures text == PortsText(|ports|) && args == StrArgs(ports)
  {
    var placeholders := "";
    args := [];
    for i := 0 to |ports|
      invariant placeholders == Placeholders(i) && args == StrArgs(ports[..i])
    {
      if i > 0 {
        placeholders := placeholders + ",";
      }
      placeholders := placeholders + "?";
      assert ports[..i + 1] == ports[..i] + [ports[i]];
      args := args + [Str(ports[i])];
    }
    assert ports[..|ports|] == ports;
    text := "dst_port IN (" + placeholders + ")";
  }

  /** The clause for the ports of a service. */
  method ServiceClause(f: HistoryFilter, ports: seq<string>) returns (where: seq<seq<Tok>>, args: seq<Arg>)
    ensures Holds(ServicePiece(f, ports), where, args)
  {
    where, args := [], [];
    if f.service != "" && ports != [] {
      var text, portArgs := PortClause(ports);
      ArgsOfOne(PortsPiece(ports));
      where, args := [[Atom(text)]], portArgs;
    }
  }

  /** The clause assembly of `QueryHistory`; `portsFor` resolves a service name, if given. */
  method BuildQuery(lib: Library, f: HistoryFilter, portsFor: Option<string -> seq<string>>) returns (b: Built)
    ensures var ports := PortsAsked(f, portsFor);
            if ports == Some([]) then b == Nothing
            else b.Statement? && b.where == TextOf(AllPieces(lib, f, PortList(ports))) &&
                 b.args == ArgsOf(AllPieces(lib, f, PortList(ports))) + [Num(LimitOf(f)), Num(OffsetOf(f))]
    ensures b.Statement? ==> |b.args| >= 2 && Pages(f, b.args[|b.args| - 2], b.args[|b.args| - 1])
  {
    var ports: seq<string> := [];
    if f.service != "" && portsFor.Some? {
      ports := portsFor.value(f.service);
      if ports == [] {
        return Nothing;
      }
    }
    var where, args := AddressClauses(f);
    var w, a := ServiceClause(f, ports);
    HoldsConcat(AddressPieces(f), ServicePiece(f, ports), where, args);
    where, args := where + w, args + a;
    w, a := LabelClauses(lib, f);
    HoldsConcat(AddressPieces(f) + ServicePiece(f, ports), LabelPieces(lib, f), where, args);
    where, args := where + w, args + a;
    w, a := WhereFor(f.conds);
    HoldsConcat(HeadPieces(lib, f, ports), WherePieces(f.conds), where, args);
    where, args := where + w, args + a;
    w, a := DateClauses(lib, f);
    HoldsConcat(HeadPieces(lib, f, ports) + WherePieces(f.conds), TailPieces(lib, f), where, args);
    where, args := where + w, args + a;
    var limit := f.limit;
    if limit <= 0 {
      limit := DEFAULT_HISTORY_LIMIT;
    }
    if limit > MAX_HISTORY_LIMIT {
      limit := MAX_HISTORY_LIMIT;
    }
    var offset := if f.offset < 0 then 0 else f.offset;
    b := Statement(where, args + [Num(limit), Num(offset)]);
  }

  // ---- Meaning of the statement ----

  lemma {:induction false} WhenReads(cond: bool, text: string, args: seq<Arg>)
    requires Holes(text) == |args|
    ensures AllRead(When(cond, AtomPiece(text, args)))
  {
    AtomReads(text, args);
    PrimaryReadsAsNot(AtomPiece(text, args));
  }

  lemma {:induction false} AddressReads(f: HistoryFilter)
    ensures AllRead(AddressPieces(f))
  {
    FixedTexts();
    AddressTexts();
    TagText();
    WhenReads(f.country != "", COUNTRY_IS, [Str(f.country)]);
    WhenReads(f.ip != "", ColumnLike("src_ip"), [Str(Like.Escape(f.ip) + "%")]);
    WhenReads(f.tag != "", ColumnLike(TAG_COLUMN), [Str("%," + Like.Escape(f.tag) + ",%")]);
    WhenReads(f.asn != 0, ColumnIs("asn"), [Num(f.asn)]);
    WhenReads(f.port != "", ColumnIs("dst_port"), [Str(f.port)]);
    AllReadConcat(CountryPiece(f), IpPiece(f));
    AllReadConcat(CountryPiece(f) + IpPiece(f), TagPiece(f));
    AllReadConcat(CountryPiece(f) + IpPiece(f) + TagPiece(f), AsnPiece(f));
    AllReadConcat(CountryPiece(f) + IpPiece(f) + TagPiece(f) + AsnPiece(f), PortPiece(f));
  }

  lemma {:induction false} LabelReads(lib: Library, f: HistoryFilter)
    ensures AllRead(LabelPieces(lib, f))
  {
    var a, b, c := ColumnPiece(lib, "kind", f.kind), ColumnPiece(lib, "class", f.class_), ColumnPiece(lib, "protocol", f.proto);
    FixedTexts();
    LabelTexts();
    WhenReads(f.kind != "", ColumnIs("kind"), [Str(lib.lower(f.kind))]);
    WhenReads(f.class_ != "", ColumnIs("class"), [Str(lib.lower(f.class_))]);
    WhenReads(f.proto != "", ColumnIs("protocol"), [Str(lib.lower(f.proto))]);
    WhenReads(f.scanner != "", SCANNER_IS, [Str(f.scanner)]);
    AllReadConcat(a, b);
    AllReadConcat(a + b, c);
    AllReadConcat(a + b + c, ScannerPiece(f));
  }

  lemma {:induction false} TailReads(lib: Library, f: HistoryFilter)
    ensures AllRead(TailPieces(lib, f))
  {
    FixedTexts();
    WhenReads(f.dateFrom != "", TIME_FROM, [Str(f.dateFrom)]);
    WhenReads(f.dateTo != "", TIME_TO, [Str(EndOfDay(lib, f.dateTo))]);
    AllReadConcat(FromPiece(f), ToPiece(lib, f));
  }

  lemma {:induction false} HeadReads(lib: Library, f: HistoryFilter, ports: seq<string>)
    ensures AllRead(HeadPieces(lib, f, ports))
  {
    AddressReads(f);
    PortsTextHoles(|ports|);
    WhenReads(f.service != "" && ports != [], PortsText(|ports|), StrArgs(ports));
    LabelReads(lib, f);
    AllReadConcat(AddressPieces(f), ServicePiece(f, ports));
    AllReadConcat(AddressPieces(f) + ServicePiece(f, ports), LabelPieces(lib, f));
  }

  /** The statement keeps exactly the rows that pass every plain filter and satisfy the search
      conditions, and what is left of the arguments is the limit and the offset. */
  lemma {:induction false} StatementKeepsIff(
    lib: Library, f: HistoryFilter, ports: seq<string>, sem: (string, seq<Arg>) -> Tri, rest: seq<Arg>)
    requires AllComplete(f.conds)
    ensures var ps := AllPieces(lib, f, ports);
            && (Keeps(sem, TextOf(ps), ArgsOf(ps) + rest) <==>
                AllTrue(sem, HeadPieces(lib, f, ports)) && Satisfies(sem, f.conds) && AllTrue(sem, TailPieces(lib, f)))
            && (ps != [] ==> ParseOr(Join(AndTok, TextOf(ps)), ArgsOf(ps) + rest).Parsed? &&
                             ParseOr(Join(AndTok, TextOf(ps)), ArgsOf(ps) + rest).args == rest)
  {
    var head, mid, tail := HeadPieces(lib, f, ports), WherePieces(f.conds), TailPieces(lib, f);
    HeadReads(lib, f, ports);
    WherePiecesMean(f.conds, sem);
    TailReads(lib, f);
    AllReadConcat(head, mid);
    AllReadConcat(head + mid, tail);
    AllTrueConcat(sem, head, mid);
    AllTrueConcat(sem, head + mid, tail);
    AndKeepsIff(sem, head + mid + tail, rest);
  }
}
