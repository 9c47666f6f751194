/** The server's tokenizer read forwards: every text built from words, quoted parts and white space yields the
    words, in order; too many words and an open quote are refused. */
module SearchWords {
  import opened HistoryQuery

  /** A piece of a word: bare characters, or text between quotes. Inside quotes nothing is special. */
  datatype Part = Bare(text: string) | Quoted(text: string)

  predicate PartOk(lib: Library, p: Part) {
    && (forall i :: 0 <= i < |p.text| ==> p.text[i] != '"')
    && (p.Bare? ==> p.text != "" && forall i :: 0 <= i < |p.text| ==> !lib.isSpace(p.text[i]))
  }

  function PartText(p: Part): string {
    if p.Bare? then p.text else "\"" + (p.text + "\"")
  }

  predicate WordOk(lib: Library, w: seq<Part>) {
    w != [] && forall i :: 0 <= i < |w| ==> PartOk(lib, w[i])
  }

  /** The word as typed, and without its quotes. */
  function WordText(w: seq<Part>): string {
    if w == [] then "" else PartText(w[0]) + WordText(w[1..])
  }

  function WordValue(w: seq<Part>): string {
    if w == [] then "" else w[0].text + WordValue(w[1..])
  }

  lemma {:induction false} BareReads(lib: Library, text: string, rest: string, cur: string, has: bool)
    requires forall i :: 0 <= i < |text| ==> text[i] != '"' && !lib.isSpace(text[i])
    ensures Words(lib, text + rest, cur, false, has) == Words(lib, rest, cur + text, false, has || text != "")
    decreases |text|
  {
    if text == "" {
      assert text + rest == rest && cur + text == cur;
    } else {
      assert (text + rest)[1..] == text[1..] + rest;
      BareReads(lib, text[1..], rest, cur + [text[0]], true);
      assert cur + [text[0]] + text[1..] == cur + text;
    }
  }

  lemma {:induction false} InsideIsQuoteFree(text: string)
    requires forall i :: 0 <= i < |text| ==> text[i] != '"'
    ensures QuoteFree(text)
  {
  }

  lemma {:induction false} QuotedReads(lib: Library, text: string, rest: string, cur: string, has: bool)
    requires QuoteFree(text)
    ensures Words(lib, "\"" + (text + "\"") + rest, cur, false, has) == Words(lib, rest, cur + text, false, true)
  {
    var q, tail := "\"" + (text + "\"") + rest, "\"" + rest;
    assert q[1..] == text + tail;
    WordsInside(lib, text, tail, cur);
    assert tail[1..] == rest;
  }

  lemma {:induction false} PartReads(lib: Library, p: Part, rest: string, cur: string, has: bool)
    requires PartOk(lib, p)
    ensures Words(lib, PartText(p) + rest, cur, false, has) == Words(lib, rest, cur + p.text, false, true)
  {
    match p
    case Bare(text) => BareReads(lib, text, rest, cur, has);
    case Quoted(text) =>
      InsideIsQuoteFree(text);
      QuotedReads(lib, text, rest, cur, has);
  }

  lemma {:induction false} Regroup(a: string, b: string, c: string)
    ensures a + b + c == a + (b + c)
  {
  }

  lemma {:induction false} WordReads(lib: Library, w: seq<Part>, rest: string, cur: string, has: bool)
    requires forall i :: 0 <= i < |w| ==> PartOk(lib, w[i])
    ensures Words(lib, WordText(w) + rest, cur, false, has) == Words(lib, rest, cur + WordValue(w), false, has || w != [])
    decreases |w|
  {
    if w == [] {
      assert WordText(w) + rest == rest && cur + WordValue(w) == cur;
    } else {
      Regroup(PartText(w[0]), WordText(w[1..]), rest);
      PartReads(lib, w[0], WordText(w[1..]) + rest, cur, has);
      WordReads(lib, w[1..], rest, cur + w[0].text, true);
      Regroup(cur, w[0].text, WordValue(w[1..]));
    }
  }

  // ---- Queries ----

  predicate IsGap(lib: Library, s: string) {
    forall i :: 0 <= i < |s| ==> lib.isSpace(s[i]) && s[i] != '"'
  }

  /** Words with white space before each and behind the last; only the outer gaps may be empty. */
  datatype Query = Query(gaps: seq<string>, words: seq<seq<Part>>, last: string)

  predicate QueryOk(lib: Library, q: Query) {
    && |q.gaps| == |q.words| && IsGap(lib, q.last)
    && (forall i :: 0 <= i < |q.words| ==> WordOk(lib, q.words[i]) && IsGap(lib, q.gaps[i]))
    && forall i :: 0 < i < |q.gaps| ==> q.gaps[i] != ""
  }

  function QueryText(q: Query): string
    requires |q.gaps| == |q.words|
    decreases |q.words|
  {
    if q.words == [] then q.last
    else q.gaps[0] + (WordText(q.words[0]) + QueryText(Query(q.gaps[1..], q.words[1..], q.last)))
  }

  function Values(words: seq<seq<Part>>): (r: seq<string>)
    ensures |r| == |words| && forall i :: 0 <= i < |words| ==> r[i] == WordValue(words[i])
  {
    seq(|words|, i requires 0 <= i < |words| => WordValue(words[i]))
  }

  lemma {:induction false} ValuesCons(w: seq<Part>, words: seq<seq<Part>>)
    ensures Values([w] + words) == [WordValue(w)] + Values(words)
  {
  }

  lemma {:induction false} GapReads(lib: Library, gap: string, rest: string, cur: string, has: bool)
    requires IsGap(lib, gap) && gap != ""
    ensures Words(lib, gap + rest, cur, false, has) == (if has then [cur] else []) + Words(lib, rest, "", false, false)
    decreases |gap|
  {
    assert (gap + rest)[1..] == gap[1..] + rest;
    if |gap| == 1 {
      assert gap[1..] + rest == rest;
    } else {
      GapReads(lib, gap[1..], rest, "", false);
    }
  }

  lemma {:induction false} RestOk(lib: Library, q: Query)
    requires QueryOk(lib, q) && q.words != []
    ensures var rest := Query(q.gaps[1..], q.words[1..], q.last);
            QueryOk(lib, rest) && (rest.words != [] ==> rest.gaps[0] != "")
    ensures WordOk(lib, q.words[0])
  {
    var rest := Query(q.gaps[1..], q.words[1..], q.last);
    forall i | 0 <= i < |rest.words|
      ensures WordOk(lib, rest.words[i]) && IsGap(lib, rest.gaps[i]) && rest.gaps[i] != ""
    {
      assert rest.words[i] == q.words[i + 1] && rest.gaps[i] == q.gaps[i + 1];
    }
  }

  lemma {:induction false} RestReads(lib: Library, q: Query, cur: string)
    requires QueryOk(lib, q) && (q.words != [] ==> q.gaps[0] != "")
    ensures Words(lib, QueryText(q), cur, false, true) == [cur] + Values(q.words)
    decreases |q.words|, 1
  {
    if q.words == [] {
      if q.last != "" {
        GapReads(lib, q.last, "", cur, true);
        assert q.last + "" == q.last;
      }
    } else {
      var rest := Query(q.gaps[1..], q.words[1..], q.last);
      GapReads(lib, q.gaps[0], WordText(q.words[0]) + QueryText(rest), cur, true);
      FirstReads(lib, q);
    }
  }

  lemma {:induction false} FirstReads(lib: Library, q: Query)
    requires QueryOk(lib, q) && q.words != []
    ensures var rest := Query(q.gaps[1..], q.words[1..], q.last);
            Words(lib, WordText(q.words[0]) + QueryText(rest), "", false, false) == Values(q.words)
    decreases |q.words|, 0
  {
    var rest := Query(q.gaps[1..], q.words[1..], q.last);
    var w := q.words[0];
    RestOk(lib, q);
    WordReads(lib, w, QueryText(rest), "", false);
    assert "" + WordValue(w) == WordValue(w);
    RestReads(lib, rest, WordValue(w));
    ValuesCons(w, rest.words);
    assert q.words == [w] + rest.words;
  }

  lemma {:induction false} QueryWords(lib: Library, q: Query)
    requires QueryOk(lib, q)
    ensures Words(lib, QueryText(q), "", false, false) == Values(q.words)
  {
    if q.words == [] {
      if q.last != "" {
        GapReads(lib, q.last, "", "", false);
        assert q.last + "" == q.last;
      }
    } else {
      var rest := Query(q.gaps[1..], q.words[1..], q.last);
      if q.gaps[0] == "" {
        assert QueryText(q) == WordText(q.words[0]) + QueryText(rest);
      } else {
        GapReads(lib, q.gaps[0], WordText(q.words[0]) + QueryText(rest), "", false);
      }
      FirstReads(lib, q);
    }
  }

  // ---- Quotes come in pairs ----

  lemma {:induction false} PartEven(lib: Library, p: Part)
    requires PartOk(lib, p)
    ensures !OddQuotes(PartText(p))
  {
    InsideIsQuoteFree(p.text);
    NoQuotes(p.text);
    if p.Quoted? {
      QuotesConcat("\"", p.text + "\"");
      QuotesConcat(p.text, "\"");
    }
  }

  lemma {:induction false} WordEven(lib: Library, w: seq<Part>)
    requires forall i :: 0 <= i < |w| ==> PartOk(lib, w[i])
    ensures !OddQuotes(WordText(w))
  {
    if w != [] {
      PartEven(lib, w[0]);
      WordEven(lib, w[1..]);
      QuotesConcat(PartText(w[0]), WordText(w[1..]));
    }
  }

  lemma {:induction false} GapEven(lib: Library, gap: string)
    requires IsGap(lib, gap)
    ensures !OddQuotes(gap)
  {
    InsideIsQuoteFree(gap);
    NoQuotes(gap);
  }

  lemma {:induction false} QueryEven(lib: Library, q: Query)
    requires QueryOk(lib, q)
    ensures !OddQuotes(QueryText(q))
    decreases |q.words|
  {
    if q.words == [] {
      GapEven(lib, q.last);
    } else {
      var rest := Query(q.gaps[1..], q.words[1..], q.last);
      RestOk(lib, q);
      QueryEven(lib, rest);
      GapEven(lib, q.gaps[0]);
      WordEven(lib, q.words[0]);
      QuotesConcat(WordText(q.words[0]), QueryText(rest));
      QuotesConcat(q.gaps[0], WordText(q.words[0]) + QueryText(rest));
    }
  }

  /** Up to twenty words are returned, in order and without their quotes; more are refused. */
  lemma {:induction false} QueryTokens(lib: Library, q: Query)
    requires QueryOk(lib, q)
    ensures |q.words| <= 20 ==> Tokens(lib, QueryText(q)) == Ok(Values(q.words))
    ensures |q.words| > 20 ==> Tokens(lib, QueryText(q)) == Err(TooManyTerms)
  {
    QueryWords(lib, q);
    QueryEven(lib, q);
  }

  /** A query with one quote too many is refused, whatever stands behind it. */
  lemma {:induction false} OpenQuote(lib: Library, q: Query, text: string)
    requires QueryOk(lib, q) && QuoteFree(text)
    ensures Tokens(lib, QueryText(q) + ("\"" + text)) == Err(UnterminatedQuote)
  {
    QueryEven(lib, q);
    NoQuotes(text);
    QuotesConcat("\"", text);
    QuotesConcat(QueryText(q), "\"" + text);
  }
}
