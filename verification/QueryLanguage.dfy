/** The search-query grammar of the web client: splitter, unquoter, parser, printer
    and the term editing built on them. */
module QueryLanguage {
  import opened Basics

  const ADDRESS_KEYS := ["port", "ip", "cc", "asn"]
  const LABEL_KEYS := ["tag", "kind", "class", "scanner"]
  const PROTOCOL_KEYS := ["proto", "ja3", "ja4", "sni"]
  const OTHER_KEYS := ["user", "since", "until"]
  const QUERY_KEYS: seq<string> := ADDRESS_KEYS + (LABEL_KEYS + (PROTOCOL_KEYS + OTHER_KEYS))

  /** A search term; no key means a free word. */
  datatype Term = Term(neg: bool, key: Option<string>, value: string)

  /** A token as typed, quotes retained. */
  datatype RawToken = RawToken(text: string, unterminated: bool)

  datatype ParseResult = ParseResult(terms: seq<Term>, error: Option<string>)

  predicate Listed(s: string, names: seq<string>) {
    names != [] && (s == names[0] || Listed(s, names[1..]))
  }

  predicate IsKey(s: string) {
    Listed(s, QUERY_KEYS)
  }

  /** The class `\s` of ECMAScript regular expressions. */
  predicate IsSpace(c: char) {
    var u := c as int;
    || 0x09 <= u <= 0x0d || u == 0x20 || u == 0xa0 || u == 0x1680 || 0x2000 <= u <= 0x200a
    || u == 0x2028 || u == 0x2029 || u == 0x202f || u == 0x205f || u == 0x3000 || u == 0xfeff
  }

  predicate IsAlnum(c: char) {
    'A' <= c <= 'Z' || 'a' <= c <= 'z' || '0' <= c <= '9'
  }

  function Lower(s: string): (r: string)
    ensures |r| == |s| && forall i :: 0 <= i < |s| ==> r[i] == LowerChar(s[i])
  {
    if s == "" then "" else [LowerChar(s[0])] + Lower(s[1..])
  }

  // ---- Splitting ----

  function Flush(cur: string, started: bool): seq<RawToken> {
    if started then [RawToken(cur, false)] else []
  }

  /** What `splitRaw` still produces for the remaining text `q` from a given scanner state. */
  function Split(q: string, cur: string, inQ: bool, started: bool): seq<RawToken>
    decreases |q|
  {
    if q == "" then
      if started then [RawToken(cur, inQ)] else []
    else if inQ then
      if q[0] == '\\' && |q| > 1 then Split(q[2..], cur + q[..2], true, started)
      else Split(q[1..], cur + [q[0]], q[0] != '"', started)
    else if q[0] == '"' then Split(q[1..], cur + [q[0]], true, true)
    else if IsSpace(q[0]) then Flush(cur, started) + Split(q[1..], "", false, false)
    else Split(q[1..], cur + [q[0]], false, true)
  }

  method SplitRaw(q: string) returns (out: seq<RawToken>)
    ensures out == Split(q, "", false, false)
  {
    out := [];
    var cur, inQ, started := "", false, false;
    var i := 0;
    while i < |q|
      invariant 0 <= i <= |q|
      invariant out + Split(q[i..], cur, inQ, started) == Split(q, "", false, false)
    {
      var c := q[i];
      assert q[i..][1..] == q[i + 1..];
      if inQ {
        cur := cur + [c];
        if c == '\\' && i + 1 < |q| {
          assert q[i..][..2] == [c, q[i + 1]] && q[i..][2..] == q[i + 2..];
          i := i + 1;
          assert cur + [q[i]] == cur[..|cur| - 1] + [c, q[i]];
          cur := cur + [q[i]];
        } else if c == '"' {
          inQ := false;
        }
      } else if c == '"' {
        inQ, started := true, true;
        cur := cur + [c];
      } else if IsSpace(c) {
        if started {
          out := out + [RawToken(cur, false)];
        }
        cur, started := "", false;
      } else {
        started := true;
        cur := cur + [c];
      }
      i := i + 1;
    }
    if started {
      out := out + [RawToken(cur, inQ)];
    }
  }

  // ---- Unquoting ----

  function Unquoted(raw: string, inQ: bool): string
    decreases |raw|
  {
    if raw == "" then ""
    else if inQ && raw[0] == '\\' && |raw| > 1 then [raw[1]] + Unquoted(raw[2..], true)
    else if raw[0] == '"' then Unquoted(raw[1..], !inQ)
    else [raw[0]] + Unquoted(raw[1..], inQ)
  }

  /** The same from position `i` on. */
  function UnquotedFrom(raw: string, i: nat, inQ: bool): string
    requires i <= |raw|
    decreases |raw| - i
  {
    if i == |raw| then ""
    else if inQ && raw[i] == '\\' && i + 1 < |raw| then [raw[i + 1]] + UnquotedFrom(raw, i + 2, true)
    else if raw[i] == '"' then UnquotedFrom(raw, i + 1, !inQ)
    else [raw[i]] + UnquotedFrom(raw, i + 1, inQ)
  }

  lemma {:induction false} UnquotedFromIsSuffix(raw: string, i: nat, inQ: bool)
    requires i <= |raw|
    ensures UnquotedFrom(raw, i, inQ) == Unquoted(raw[i..], inQ)
    decreases |raw| - i
  {
    if i < |raw| {
      assert raw[i..][1..] == raw[i + 1..];
      UnquotedFromIsSuffix(raw, i + 1, inQ);
      UnquotedFromIsSuffix(raw, i + 1, !inQ);
      if i + 1 < |raw| {
        assert raw[i..][1] == raw[i + 1] && raw[i..][2..] == raw[i + 2..];
        UnquotedFromIsSuffix(raw, i + 2, true);
      }
    }
  }

  method Unquote(raw: string) returns (out: string)
    ensures out == Unquoted(raw, false)
  {
    out := "";
    var inQ, i := false, 0;
    while i < |raw|
      invariant 0 <= i <= |raw|
      invariant out + UnquotedFrom(raw, i, inQ) == UnquotedFrom(raw, 0, false)
    {
      var c := raw[i];
      if inQ {
        if c == '\\' && i + 1 < |raw| {
          i := i + 1;
          out := out + [raw[i]];
        } else if c == '"' {
          inQ := false;
        } else {
          out := out + [c];
        }
      } else if c == '"' {
        inQ := true;
      } else {
        out := out + [c];
      }
      i := i + 1;
    }
    UnquotedFromIsSuffix(raw, 0, false);
    assert raw[0..] == raw;
  }

  // ---- Parsing ----

  /** End of the run of ASCII letters and digits that starts at `i`. */
  function AlnumEnd(s: string, i: nat): (n: nat)
    requires i <= |s|
    ensures i <= n <= |s|
    decreases |s| - i
  {
    if i < |s| && IsAlnum(s[i]) then AlnumEnd(s, i + 1) else i
  }

  /** A match of `/^(-?)([A-Za-z0-9]+):/`: sign, name and length of the whole match. */
  datatype Prefix = Prefix(neg: bool, name: string, length: nat)

  function KeyPrefix(s: string): (p: Option<Prefix>)
    ensures p.Some? ==> p.value.length <= |s|
  {
    var neg := s != "" && s[0] == '-';
    var start := if neg then 1 else 0;
    var n := AlnumEnd(s, start);
    if start < n < |s| && s[n] == ':' then Some(Prefix(neg, s[start..n], n + 1)) else None
  }

  /** The prefix names a search key. */
  predicate IsKeyed(text: string) {
    KeyPrefix(text).Some? && IsKey(Lower(KeyPrefix(text).value.name))
  }

  function TermOf(text: string): (t: Term)
    ensures t.key.None? ==> !t.neg
    ensures t.key.Some? ==> IsKey(t.key.value)
  {
    if IsKeyed(text) then
      var m := KeyPrefix(text).value;
      Term(m.neg, Some(Lower(m.name)), Unquoted(text[m.length..], false))
    else Term(false, None, Unquoted(text, false))
  }

  /** The problem a single token raises, the unterminated quote taking precedence. */
  function TokenError(tok: RawToken): Option<string> {
    if tok.unterminated then Some("Unterminated quote")
    else if IsKeyed(tok.text) && KeyPrefix(tok.text).value.length == |tok.text| then
      Some("Missing value after \"" + Lower(KeyPrefix(tok.text).value.name) + ":\"")
    else None
  }

  function TermsOf(toks: seq<RawToken>): (ts: seq<Term>)
    ensures |ts| == |toks| && forall i :: 0 <= i < |ts| ==> ts[i] == TermOf(toks[i].text)
  {
    seq(|toks|, i requires 0 <= i < |toks| => TermOf(toks[i].text))
  }

  function FirstError(toks: seq<RawToken>): Option<string> {
    if toks == [] then None
    else if TokenError(toks[0]).Some? then TokenError(toks[0])
    else FirstError(toks[1..])
  }

  function Parse(q: string): ParseResult {
    var toks := Split(q, "", false, false);
    ParseResult(TermsOf(toks), FirstError(toks))
  }

  /** The loop body of `parseQuery`: the token's term, and its problem if it is the first. */
  method ParseToken(tok: RawToken, found: Option<string>) returns (t: Term, error: Option<string>)
    ensures t == TermOf(tok.text)
    ensures error == if found.Some? then found else TokenError(tok)
  {
    error := found;
    if tok.unterminated && error.None? {
      error := Some("Unterminated quote");
    }
    var m := KeyPrefix(tok.text);
    var key := if m.Some? then Lower(m.value.name) else "";
    if m.Some? && IsKey(key) {
      var raw := tok.text[m.value.length..];
      var value := Unquote(raw);
      if raw == "" && error.None? {
        error := Some("Missing value after \"" + key + ":\"");
      }
      t := Term(m.value.neg, Some(key), value);
    } else {
      var value := Unquote(tok.text);
      t := Term(false, None, value);
    }
  }

  method ParseQuery(q: string) returns (r: ParseResult)
    ensures r == Parse(q)
  {
    var toks := SplitRaw(q);
    var terms: seq<Term> := [];
    var error: Option<string> := None;
    for n := 0 to |toks|
      invariant terms == TermsOf(toks[..n])
      invariant (if error.Some? then error else FirstError(toks[n..])) == FirstError(toks)
    {
      assert toks[n..][0] == toks[n] && toks[n..][1..] == toks[n + 1..];
      assert toks[..n + 1] == toks[..n] + [toks[n]];
      var t: Term;
      t, error := ParseToken(toks[n], error);
      terms := terms + [t];
    }
    assert toks[..|toks|] == toks;
    r := ParseResult(terms, error);
  }

  // ---- Printing ----

  function ReplaceAll(s: string, c: char, sub: string): string {
    if s == "" then "" else (if s[0] == c then sub else [s[0]]) + ReplaceAll(s[1..], c, sub)
  }

  /** A character that forces quotes. */
  predicate NeedsQuote(c: char) {
    IsSpace(c) || c == '"' || c == '\\'
  }

  function QuoteValue(v: string, force: bool): (r: string)
    ensures r != ""
  {
    if force || v == "" || exists i :: 0 <= i < |v| && NeedsQuote(v[i]) then
      "\"" + ReplaceAll(ReplaceAll(v, '\\', "\\\\"), '"', "\\\"") + "\""
    else v
  }

  function Sign(neg: bool): string {
    if neg then "-" else ""
  }

  function SerializeTerm(t: Term): string {
    match t.key
    case Some(k) => Sign(t.neg) + (k + (":" + QuoteValue(t.value, false)))
    case None => QuoteValue(t.value, IsKeyed(t.value))
  }

  function SerializeQuery(ts: seq<Term>): string {
    if ts == [] then ""
    else if |ts| == 1 then SerializeTerm(ts[0])
    else SerializeTerm(ts[0]) + " " + SerializeQuery(ts[1..])
  }

  // ---- Round trip ----

  /** Escaping character by character. */
  function Escape(v: string): string {
    if v == "" then ""
    else (if v[0] == '\\' then "\\\\" else if v[0] == '"' then "\\\"" else [v[0]]) + Escape(v[1..])
  }

  lemma {:induction false} ReplaceAllConcat(a: string, b: string, c: char, sub: string)
    ensures ReplaceAll(a + b, c, sub) == ReplaceAll(a, c, sub) + ReplaceAll(b, c, sub)
  {
    if a == "" {
      assert a + b == b;
    } else {
      assert (a + b)[1..] == a[1..] + b;
      ReplaceAllConcat(a[1..], b, c, sub);
    }
  }

  /** The two replacements in sequence escape each character once. */
  lemma {:induction false} ReplacementsEscape(v: string)
    ensures ReplaceAll(ReplaceAll(v, '\\', "\\\\"), '"', "\\\"") == Escape(v)
  {
    if v != "" {
      var head := if v[0] == '\\' then "\\\\" else [v[0]];
      ReplaceAllConcat(head, ReplaceAll(v[1..], '\\', "\\\\"), '"', "\\\"");
      ReplacementsEscape(v[1..]);
      if v[0] == '\\' {
        assert head[1..] == "\\" && head[1..][1..] == "";
        assert ReplaceAll(head, '"', "\\\"") == "\\\\";
      } else {
        assert head[1..] == "";
        assert ReplaceAll(head, '"', "\\\"") == if v[0] == '"' then "\\\"" else [v[0]];
      }
    }
  }

  /** Text without whitespace or quotes extends the current token. */
  lemma {:induction false} SplitPlain(p: string, rest: string, cur: string, started: bool)
    requires forall i :: 0 <= i < |p| ==> !IsSpace(p[i]) && p[i] != '"'
    ensures Split(p + rest, cur, false, started) == Split(rest, cur + p, false, started || p != "")
  {
    if p == "" {
      assert p + rest == rest && cur + p == cur;
    } else {
      assert (p + rest)[1..] == p[1..] + rest;
      SplitPlain(p[1..], rest, cur + [p[0]], true);
      assert cur + [p[0]] + p[1..] == cur + p;
    }
  }

  lemma {:induction false} SplitQuote(rest: string, cur: string, started: bool)
    ensures Split("\"" + rest, cur, false, started) == Split(rest, cur + "\"", true, true)
  {
    var q := "\"" + rest;
    assert q[1..] == rest && q[0] == '"';
    assert cur + [q[0]] == cur + "\"";
  }

  /** An escaped value inside quotes is consumed up to its closing quote. */
  lemma {:induction false} SplitQuoted(v: string, rest: string, cur: string)
    ensures Split(Escape(v) + "\"" + rest, cur, true, true) == Split(rest, cur + Escape(v) + "\"", false, true)
  {
    var q := Escape(v) + "\"" + rest;
    if v == "" {
      assert q[1..] == rest && cur + Escape(v) == cur;
    } else {
      var head := Escape(v)[..if v[0] == '\\' || v[0] == '"' then 2 else 1];
      assert Escape(v) == head + Escape(v[1..]);
      assert q[|head|..] == Escape(v[1..]) + "\"" + rest && q[..|head|] == head;
      SplitQuoted(v[1..], rest, cur + head);
      assert cur + head + Escape(v[1..]) + "\"" == cur + Escape(v) + "\"";
    }
  }

  lemma {:induction false} UnquotePlain(v: string)
    requires forall i :: 0 <= i < |v| ==> v[i] != '"'
    ensures Unquoted(v, false) == v
  {
    if v != "" {
      UnquotePlain(v[1..]);
    }
  }

  lemma {:induction false} UnquoteQuoted(v: string)
    ensures Unquoted(Escape(v) + "\"", true) == v
  {
    var q := Escape(v) + "\"";
    if v == "" {
      assert q == "\"" && q[1..] == "";
    } else {
      var head := Escape(v)[..if v[0] == '\\' || v[0] == '"' then 2 else 1];
      assert Escape(v) == head + Escape(v[1..]);
      assert q[|head|..] == Escape(v[1..]) + "\"";
      UnquoteQuoted(v[1..]);
      assert v == [v[0]] + v[1..];
    }
  }

  lemma {:induction false} QuotedReads(v: string, cur: string, started: bool, rest: string)
    ensures Unquoted("\"" + Escape(v) + "\"", false) == v
    ensures Split("\"" + Escape(v) + "\"" + rest, cur, false, started) == Split(rest, cur + ("\"" + Escape(v) + "\""), false, true)
  {
    var q := "\"" + Escape(v) + "\"";
    assert q[1..] == Escape(v) + "\"";
    UnquoteQuoted(v);
    assert q + rest == "\"" + (Escape(v) + "\"" + rest);
    SplitQuote(Escape(v) + "\"" + rest, cur, started);
    SplitQuoted(v, rest, cur + "\"");
    assert cur + "\"" + Escape(v) + "\"" == cur + q;
  }

  /** The value can be printed without quotes. */
  predicate IsBare(v: string) {
    v != "" && forall i :: 0 <= i < |v| ==> !NeedsQuote(v[i])
  }

  lemma {:induction false} QuoteValueForms(v: string, force: bool)
    ensures QuoteValue(v, force) == if force || !IsBare(v) then "\"" + Escape(v) + "\"" else v
  {
    ReplacementsEscape(v);
  }

  /** A printed value is read back, and the splitter keeps it in one token. */
  lemma {:induction false} QuoteValueReads(v: string, force: bool, cur: string, started: bool, rest: string)
    ensures Unquoted(QuoteValue(v, force), false) == v
    ensures Split(QuoteValue(v, force) + rest, cur, false, started) == Split(rest, cur + QuoteValue(v, force), false, true)
  {
    QuoteValueForms(v, force);
    if force || !IsBare(v) {
      QuotedReads(v, cur, started, rest);
    } else {
      UnquotePlain(v);
      SplitPlain(v, rest, cur, started);
    }
  }

  /** A term the printer can express: a known key, or a free word that is not negated. */
  predicate Printable(t: Term) {
    if t.key.Some? then IsKey(t.key.value) else !t.neg
  }

  lemma {:induction false} AlnumEndIs(s: string, i: nat, n: nat)
    requires i <= n < |s| && (forall j :: i <= j < n ==> IsAlnum(s[j])) && !IsAlnum(s[n])
    ensures AlnumEnd(s, i) == n
    decreases n - i
  {
    if i < n {
      AlnumEndIs(s, i + 1, n);
    }
  }

  predicate LowerAlnum(s: string) {
    s == "" || (('a' <= s[0] <= 'z' || '0' <= s[0] <= '9') && LowerAlnum(s[1..]))
  }

  predicate GoodNames(names: seq<string>) {
    names == [] || (names[0] != "" && LowerAlnum(names[0]) && GoodNames(names[1..]))
  }

  lemma {:induction false} ListedIsGood(s: string, names: seq<string>)
    requires GoodNames(names) && Listed(s, names)
    ensures s != "" && LowerAlnum(s)
  {
    if s != names[0] {
      ListedIsGood(s, names[1..]);
    }
  }

  lemma {:induction false} LowerAlnumFacts(s: string)
    requires LowerAlnum(s)
    ensures Lower(s) == s && forall i :: 0 <= i < |s| ==> IsAlnum(s[i]) && !IsSpace(s[i]) && s[i] != '"'
  {
    if s != "" {
      LowerAlnumFacts(s[1..]);
    }
  }

  lemma {:induction false} GoodNamesConcat(a: seq<string>, b: seq<string>)
    requires GoodNames(a) && GoodNames(b)
    ensures GoodNames(a + b)
  {
    if a == [] {
      assert a + b == b;
    } else {
      assert (a + b)[1..] == a[1..] + b;
      GoodNamesConcat(a[1..], b);
    }
  }

  lemma {:induction false} GoodName(name: string)
    requires name != "" && LowerAlnum(name)
    ensures GoodNames([name])
  {
    assert [name][1..] == [];
  }

  lemma {:induction false} GoodCons(name: string, names: seq<string>)
    requires name != "" && LowerAlnum(name) && GoodNames(names)
    ensures GoodNames([name] + names)
  {
    assert ([name] + names)[1..] == names;
  }

  lemma {:induction false} GoodFour(a: string, b: string, c: string, d: string)
    requires a != "" && LowerAlnum(a) && b != "" && LowerAlnum(b) && c != "" && LowerAlnum(c) && d != "" && LowerAlnum(d)
    ensures GoodNames([a, b, c, d]) && GoodNames([b, c, d])
  {
    GoodName(d);
    GoodCons(c, [d]);
    GoodCons(b, [c] + [d]);
    GoodCons(a, [b] + ([c] + [d]));
    assert [b, c, d] == [b] + ([c] + [d]) && [a, b, c, d] == [a] + [b, c, d];
  }

  lemma {:induction false} AddressKeysAreGood()
    ensures GoodNames(ADDRESS_KEYS)
  {
    GoodFour("port", "ip", "cc", "asn");
  }

  lemma {:induction false} LabelKeysAreGood()
    ensures GoodNames(LABEL_KEYS)
  {
    GoodFour("tag", "kind", "class", "scanner");
  }

  lemma {:induction false} ProtocolKeysAreGood()
    ensures GoodNames(PROTOCOL_KEYS)
  {
    GoodFour("proto", "ja3", "ja4", "sni");
  }

  lemma {:induction false} OtherKeysAreGood()
    ensures GoodNames(OTHER_KEYS)
  {
    GoodFour("user", "user", "since", "until");
  }

  lemma {:induction false} QueryKeysAreGood()
    ensures GoodNames(QUERY_KEYS)
  {
    AddressKeysAreGood();
    LabelKeysAreGood();
    ProtocolKeysAreGood();
    OtherKeysAreGood();
    GoodNamesConcat(PROTOCOL_KEYS, OTHER_KEYS);
    GoodNamesConcat(LABEL_KEYS, PROTOCOL_KEYS + OTHER_KEYS);
    GoodNamesConcat(ADDRESS_KEYS, LABEL_KEYS + (PROTOCOL_KEYS + OTHER_KEYS));
  }

  lemma {:induction false} KeysAreLowerAlnum(k: string)
    requires IsKey(k)
    ensures k != "" && Lower(k) == k && forall i :: 0 <= i < |k| ==> IsAlnum(k[i]) && !IsSpace(k[i]) && k[i] != '"'
  {
    QueryKeysAreGood();
    ListedIsGood(k, QUERY_KEYS);
    LowerAlnumFacts(k);
  }

  lemma {:induction false} PrefixOfName(neg: bool, k: string, v: string)
    requires k != "" && forall i :: 0 <= i < |k| ==> IsAlnum(k[i])
    ensures KeyPrefix(Sign(neg) + (k + (":" + v))) == Some(Prefix(neg, k, |Sign(neg)| + |k| + 1))
  {
    var s := Sign(neg) + (k + (":" + v));
    var start := |Sign(neg)|;
    assert forall j :: start <= j < start + |k| ==> s[j] == k[j - start];
    assert s[start] == k[0] && s[start + |k|] == ':';
    AlnumEndIs(s, start, start + |k|);
    assert s[start..start + |k|] == k;
  }

  lemma {:induction false} Regroup(a: string, b: string, c: string)
    ensures a + b + c == a + (b + c)
  {
  }

  lemma {:induction false} KeyedSplits(neg: bool, k: string, value: string, rest: string)
    requires forall i :: 0 <= i < |k| ==> !IsSpace(k[i]) && k[i] != '"'
    ensures Split(Sign(neg) + (k + (":" + QuoteValue(value, false))) + rest, "", false, false) ==
            Split(rest, Sign(neg) + (k + (":" + QuoteValue(value, false))), false, true)
  {
    var head, v := Sign(neg) + (k + ":"), QuoteValue(value, false);
    QuoteValueReads(value, false, head, true, rest);
    Regroup(k, ":", v);
    Regroup(Sign(neg), k + ":", v);
    Regroup(head, v, rest);
    SplitPlain(head, v + rest, "", false);
    assert "" + head == head;
  }

  lemma {:induction false} ValueBehindName(neg: bool, k: string, v: string)
    ensures (Sign(neg) + (k + (":" + v)))[|Sign(neg)| + |k| + 1..] == v
  {
    var s := Sign(neg) + (k + (":" + v));
    assert s[|Sign(neg)|..] == k + (":" + v);
    assert s[|Sign(neg)| + |k|..] == s[|Sign(neg)|..][|k|..] == ":" + v;
    assert s[|Sign(neg)| + |k| + 1..] == s[|Sign(neg)| + |k|..][1..];
  }

  /** A token with this prefix of a known key parses to the key and the unquoted rest. */
  lemma {:induction false} PrefixedParses(text: string, neg: bool, k: string, n: nat, value: string)
    requires KeyPrefix(text) == Some(Prefix(neg, k, n)) && n < |text| && Lower(k) == k && IsKey(k)
    requires Unquoted(text[n..], false) == value
    ensures TermOf(text) == Term(neg, Some(k), value) && TokenError(RawToken(text, false)).None?
  {
  }

  lemma {:induction false} KeyedParses(t: Term)
    requires t.key.Some? && IsKey(t.key.value)
    ensures TermOf(SerializeTerm(t)) == t && TokenError(RawToken(SerializeTerm(t), false)).None?
  {
    var k, v := t.key.value, QuoteValue(t.value, false);
    KeysAreLowerAlnum(k);
    PrefixOfName(t.neg, k, v);
    ValueBehindName(t.neg, k, v);
    QuoteValueReads(t.value, false, "", false, "");
    PrefixedParses(SerializeTerm(t), t.neg, k, |Sign(t.neg)| + |k| + 1, t.value);
  }

  lemma {:induction false} KeyedReads(t: Term, rest: string)
    requires t.key.Some? && IsKey(t.key.value)
    ensures TermOf(SerializeTerm(t)) == t && TokenError(RawToken(SerializeTerm(t), false)).None?
    ensures Split(SerializeTerm(t) + rest, "", false, false) == Split(rest, SerializeTerm(t), false, true)
  {
    KeysAreLowerAlnum(t.key.value);
    KeyedParses(t);
    KeyedSplits(t.neg, t.key.value, t.value, rest);
  }

  lemma {:induction false} QuotedHasNoPrefix(s: string)
    requires s != "" && s[0] == '"'
    ensures KeyPrefix(s).None?
  {
  }

  lemma {:induction false} WordParses(v: string)
    ensures !IsKeyed(QuoteValue(v, IsKeyed(v)))
  {
    QuoteValueForms(v, IsKeyed(v));
    if IsKeyed(v) || !IsBare(v) {
      QuotedHasNoPrefix(QuoteValue(v, IsKeyed(v)));
    }
  }

  lemma {:induction false} WordReads(v: string, rest: string)
    ensures TermOf(SerializeTerm(Term(false, None, v))) == Term(false, None, v)
    ensures TokenError(RawToken(SerializeTerm(Term(false, None, v)), false)).None?
    ensures Split(SerializeTerm(Term(false, None, v)) + rest, "", false, false) ==
            Split(rest, SerializeTerm(Term(false, None, v)), false, true)
  {
    WordParses(v);
    QuoteValueReads(v, IsKeyed(v), "", false, rest);
    assert "" + QuoteValue(v, IsKeyed(v)) == QuoteValue(v, IsKeyed(v));
  }

  /** Printing a printable term gives one token that parses to it without error. */
  lemma {:induction false} TermReads(t: Term, rest: string)
    requires Printable(t)
    ensures TermOf(SerializeTerm(t)) == t && TokenError(RawToken(SerializeTerm(t), false)).None?
    ensures Split(SerializeTerm(t) + rest, "", false, false) == Split(rest, SerializeTerm(t), false, true)
  {
    if t.key.Some? {
      KeyedReads(t, rest);
    } else {
      WordReads(t.value, rest);
    }
  }

  function Tokens(ts: seq<Term>): (r: seq<RawToken>)
    ensures |r| == |ts| && forall i :: 0 <= i < |ts| ==> r[i] == RawToken(SerializeTerm(ts[i]), false)
  {
    if ts == [] then [] else [RawToken(SerializeTerm(ts[0]), false)] + Tokens(ts[1..])
  }

  /** Printing then splitting gives the printed terms as tokens. */
  lemma {:induction false} QuerySplits(ts: seq<Term>)
    requires forall i :: 0 <= i < |ts| ==> Printable(ts[i])
    ensures Split(SerializeQuery(ts), "", false, false) == Tokens(ts)
  {
    if ts != [] {
      var s := SerializeTerm(ts[0]);
      if |ts| == 1 {
        TermReads(ts[0], "");
        assert s + "" == s;
        assert Tokens(ts) == [RawToken(s, false)];
      } else {
        var tail := SerializeQuery(ts[1..]);
        QuerySplits(ts[1..]);
        SplitAtSpace(ts[0], tail);
        assert SerializeQuery(ts) == s + (" " + tail);
      }
    }
  }

  lemma {:induction false} SplitAtSpace(t: Term, tail: string)
    requires Printable(t)
    ensures Split(SerializeTerm(t) + (" " + tail), "", false, false) ==
            [RawToken(SerializeTerm(t), false)] + Split(tail, "", false, false)
  {
    TermReads(t, " " + tail);
    assert (" " + tail)[1..] == tail;
  }

  lemma {:induction false} NoErrors(toks: seq<RawToken>)
    requires forall i :: 0 <= i < |toks| ==> TokenError(toks[i]).None?
    ensures FirstError(toks).None?
  {
    if toks != [] {
      NoErrors(toks[1..]);
    }
  }

  /** Printed printable terms parse back exactly, without error. */
  lemma {:induction false} PrintThenParse(ts: seq<Term>)
    requires forall i :: 0 <= i < |ts| ==> Printable(ts[i])
    ensures Parse(SerializeQuery(ts)) == ParseResult(ts, None)
  {
    QuerySplits(ts);
    var toks := Split(SerializeQuery(ts), "", false, false);
    forall i | 0 <= i < |toks|
      ensures TermOf(toks[i].text) == ts[i] && TokenError(toks[i]).None?
    {
      TermReads(ts[i], "");
    }
    NoErrors(toks);
    assert TermsOf(toks) == ts;
  }

  /** Exactly the printable term lists survive the round trip. */
  lemma {:induction false} RoundTripIff(ts: seq<Term>)
    ensures Parse(SerializeQuery(ts)) == ParseResult(ts, None) <==> forall i :: 0 <= i < |ts| ==> Printable(ts[i])
  {
    if forall i :: 0 <= i < |ts| ==> Printable(ts[i]) {
      PrintThenParse(ts);
    } else {
      var i :| 0 <= i < |ts| && !Printable(ts[i]);
      var got := Parse(SerializeQuery(ts)).terms;
      assert i < |got| ==> Printable(got[i]);
    }
  }

  lemma {:induction false} ParsedIsPrintable(q: string)
    ensures forall i :: 0 <= i < |Parse(q).terms| ==> Printable(Parse(q).terms[i])
  {
  }

  /** Normalising a query is idempotent and never leaves an error. */
  lemma {:induction false} NormalFormIsStable(q: string)
    ensures Parse(SerializeQuery(Parse(q).terms)) == ParseResult(Parse(q).terms, None)
    ensures SerializeQuery(Parse(SerializeQuery(Parse(q).terms)).terms) == SerializeQuery(Parse(q).terms)
  {
    ParsedIsPrintable(q);
    PrintThenParse(Parse(q).terms);
  }

  // ---- Editing. `fold` stands for String.prototype.toLowerCase. ----

  predicate SameTerm(fold: string -> string, a: Term, b: Term) {
    a.key == b.key && a.neg == b.neg && fold(a.value) == fold(b.value)
  }

  predicate Contains(fold: string -> string, ts: seq<Term>, t: Term) {
    exists i :: 0 <= i < |ts| && SameTerm(fold, ts[i], t)
  }

  predicate HasTerm(fold: string -> string, q: string, t: Term) {
    Contains(fold, Parse(q).terms, t)
  }

  function AddTerm(fold: string -> string, q: string, t: Term): string {
    var terms := Parse(q).terms;
    if Contains(fold, terms, t) then SerializeQuery(terms) else SerializeQuery(terms + [t])
  }

  function Without(fold: string -> string, ts: seq<Term>, t: Term): (r: seq<Term>)
    ensures !Contains(fold, r, t)
    ensures forall u :: u in r <==> u in ts && !SameTerm(fold, u, t)
  {
    if ts == [] then []
    else if SameTerm(fold, ts[0], t) then Without(fold, ts[1..], t)
    else [ts[0]] + Without(fold, ts[1..], t)
  }

  function RemoveTerm(fold: string -> string, q: string, t: Term): string {
    SerializeQuery(Without(fold, Parse(q).terms, t))
  }

  function ToggleTerm(fold: string -> string, q: string, t: Term): string {
    if HasTerm(fold, q, t) then RemoveTerm(fold, q, t) else AddTerm(fold, q, t)
  }

  /** A query never contains a term that cannot be printed. */
  lemma {:induction false} UnprintableAbsent(fold: string -> string, q: string, t: Term)
    requires !Printable(t)
    ensures !HasTerm(fold, q, t)
  {
    ParsedIsPrintable(q);
  }

  /** A query has a term when one of its own has the same sign and key and, up to case, the same value. */
  lemma {:induction false} HasTermIff(fold: string -> string, q: string, t: Term)
    ensures HasTerm(fold, q, t) <==>
            exists u :: u in Parse(q).terms && u.neg == t.neg && u.key == t.key && fold(u.value) == fold(t.value)
  {
    var terms := Parse(q).terms;
    if i :| 0 <= i < |terms| && SameTerm(fold, terms[i], t) {
      assert terms[i] in terms;
    }
    if u :| u in terms && u.neg == t.neg && u.key == t.key && fold(u.value) == fold(t.value) {
      var i :| 0 <= i < |terms| && terms[i] == u;
      assert SameTerm(fold, terms[i], t);
    }
  }

  /** The last of the added terms is lost when it is a negated free word: the sign is not printed. */
  lemma {:induction false} AddedText(fold: string -> string, q: string, t: Term)
    requires t.key.Some? ==> IsKey(t.key.value)
    ensures Parse(AddTerm(fold, q, t)).terms ==
            if HasTerm(fold, q, t) then Parse(q).terms
            else Parse(q).terms + [if t.key.None? then t.(neg := false) else t]
  {
    var terms := Parse(q).terms;
    ParsedIsPrintable(q);
    if HasTerm(fold, q, t) {
      PrintThenParse(terms);
    } else {
      var u := if t.key.None? then t.(neg := false) else t;
      SameText(terms, t, u);
      PrintThenParse(terms + [u]);
    }
  }

  lemma {:induction false} SameText(ts: seq<Term>, t: Term, u: Term)
    requires SerializeTerm(t) == SerializeTerm(u)
    ensures SerializeQuery(ts + [t]) == SerializeQuery(ts + [u])
  {
    if ts != [] {
      assert (ts + [t])[1..] == ts[1..] + [t] && (ts + [u])[1..] == ts[1..] + [u];
      SameText(ts[1..], t, u);
    }
  }

  /** `addTerm` establishes `hasTerm` exactly for printable terms. */
  lemma {:induction false} AddEstablishes(fold: string -> string, q: string, t: Term)
    requires t.key.Some? ==> IsKey(t.key.value)
    ensures HasTerm(fold, AddTerm(fold, q, t), t) <==> Printable(t)
  {
    AddedText(fold, q, t);
    if Printable(t) {
      if !HasTerm(fold, q, t) {
        var ts := Parse(q).terms + [t];
        assert ts[|ts| - 1] == t && SameTerm(fold, ts[|ts| - 1], t);
      }
    } else {
      UnprintableAbsent(fold, AddTerm(fold, q, t), t);
    }
  }

  /** `addTerm` keeps every term already there. */
  lemma {:induction false} AddKeeps(fold: string -> string, q: string, t: Term, u: Term)
    requires (t.key.Some? ==> IsKey(t.key.value)) && HasTerm(fold, q, u)
    ensures HasTerm(fold, AddTerm(fold, q, t), u)
  {
    AddedText(fold, q, t);
    var i :| 0 <= i < |Parse(q).terms| && SameTerm(fold, Parse(q).terms[i], u);
    assert SameTerm(fold, Parse(AddTerm(fold, q, t)).terms[i], u);
  }

  /** `removeTerm` refutes `hasTerm` and touches no other term. */
  lemma {:induction false} RemoveRefutes(fold: string -> string, q: string, t: Term, u: Term)
    ensures !HasTerm(fold, RemoveTerm(fold, q, t), t)
    ensures u in Parse(RemoveTerm(fold, q, t)).terms <==>
            u in Parse(q).terms && !(u.neg == t.neg && u.key == t.key && fold(u.value) == fold(t.value))
  {
    var kept := Without(fold, Parse(q).terms, t);
    ParsedIsPrintable(q);
    forall i | 0 <= i < |kept|
      ensures Printable(kept[i])
    {
      assert kept[i] in kept && kept[i] in Parse(q).terms;
    }
    PrintThenParse(kept);
  }

  /** `toggleTerm` flips `hasTerm` exactly for printable terms. */
  lemma {:induction false} ToggleFlips(fold: string -> string, q: string, t: Term)
    requires t.key.Some? ==> IsKey(t.key.value)
    ensures (HasTerm(fold, ToggleTerm(fold, q, t), t) <==> !HasTerm(fold, q, t)) <==> Printable(t)
  {
    AddEstablishes(fold, q, t);
    RemoveRefutes(fold, q, t, t);
    if !Printable(t) {
      UnprintableAbsent(fold, q, t);
    }
  }

  /** Every term of `q` is still in `out`. */
  ghost predicate Extends(fold: string -> string, q: string, out: string) {
    forall u {:trigger HasTerm(fold, out, u)} {:trigger HasTerm(fold, q, u)} :: HasTerm(fold, q, u) ==> HasTerm(fold, out, u)
  }

  lemma {:induction false} AddExtends(fold: string -> string, q: string, t: Term)
    requires t.key.Some? ==> IsKey(t.key.value)
    ensures Extends(fold, q, AddTerm(fold, q, t))
  {
    forall u | HasTerm(fold, q, u)
      ensures HasTerm(fold, AddTerm(fold, q, t), u)
    {
      AddKeeps(fold, q, t, u);
    }
  }

  lemma {:induction false} ExtendsTransitive(fold: string -> string, a: string, b: string, c: string)
    requires Extends(fold, a, b) && Extends(fold, b, c)
    ensures Extends(fold, a, c)
  {
    forall u | HasTerm(fold, a, u)
      ensures HasTerm(fold, c, u)
    {
      assert HasTerm(fold, b, u);
    }
  }

  predicate Applied(fold: string -> string, out: string, ts: seq<Term>) {
    forall i :: 0 <= i < |ts| && Printable(ts[i]) ==> HasTerm(fold, out, ts[i])
  }

  lemma {:induction false} AppliedOneMore(fold: string -> string, q: string, out: string, ts: seq<Term>, n: nat)
    requires n < |ts| && (ts[n].key.Some? ==> IsKey(ts[n].key.value)) && Applied(fold, out, ts[..n]) && Extends(fold, q, out)
    ensures Applied(fold, AddTerm(fold, out, ts[n]), ts[..n + 1]) && Extends(fold, q, AddTerm(fold, out, ts[n]))
  {
    var next := AddTerm(fold, out, ts[n]);
    AddExtends(fold, out, ts[n]);
    ExtendsTransitive(fold, q, out, next);
    AddEstablishes(fold, out, ts[n]);
    forall i | 0 <= i < n + 1 && Printable(ts[i])
      ensures HasTerm(fold, next, ts[..n + 1][i])
    {
      if i < n {
        assert HasTerm(fold, out, ts[..n][i]);
      }
    }
  }

  /** `applyTerms`: every printable term ends up in the query, whatever is added after it, and
      nothing that was there is lost. */
  method ApplyTerms(fold: string -> string, q: string, ts: seq<Term>) returns (out: string)
    requires forall i :: 0 <= i < |ts| ==> (ts[i].key.Some? ==> IsKey(ts[i].key.value))
    ensures Applied(fold, out, ts) && Extends(fold, q, out)
  {
    out := q;
    for n := 0 to |ts|
      invariant Applied(fold, out, ts[..n]) && Extends(fold, q, out)
    {
      AppliedOneMore(fold, q, out, ts, n);
      out := AddTerm(fold, out, ts[n]);
    }
    assert ts[..|ts|] == ts;
  }
}
