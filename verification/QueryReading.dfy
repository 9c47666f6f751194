/** The search grammar read forwards: every text built from words, quoted parts and white space is parsed into the
    terms its words spell, in any case and with any spacing. */
module QueryReading {
  import opened Basics
  import opened QueryLanguage

  // ---- Keys ----

  const KEYS := {
    "port", "ip", "cc", "asn", "tag", "kind", "class", "scanner", "proto", "ja3", "ja4", "sni", "user", "since", "until"}

  /** `name` is `key`, letter by letter, in upper or lower case. */
  predicate Spells(name: string, key: string) {
    |name| == |key| && forall i :: 0 <= i < |key| ==> SpellsChar(name[i], key[i])
  }

  predicate SpellsChar(c: char, k: char) {
    c == k || ('a' <= k <= 'z' && c as int == k as int - 32)
  }

  lemma {:induction false} ListedIff(k: string, names: seq<string>)
    ensures Listed(k, names) <==> k in names
  {
    if names != [] {
      ListedIff(k, names[1..]);
    }
  }

  lemma {:induction false} KeysAre(k: string)
    ensures IsKey(k) <==> k in KEYS
  {
    ListedIff(k, QUERY_KEYS);
    assert k in QUERY_KEYS <==> k in ADDRESS_KEYS || k in LABEL_KEYS || k in PROTOCOL_KEYS || k in OTHER_KEYS;
  }

  lemma {:induction false} SpelledChar(c: char, k: char)
    requires IsAlnum(k) && LowerChar(k) == k
    ensures SpellsChar(c, k) <==> LowerChar(c) == k
    ensures SpellsChar(c, k) ==> IsAlnum(c)
  {
  }

  /** A name spells a key exactly when its lower-case form is the key. */
  lemma {:induction false} SpellsIff(name: string, key: string)
    requires IsKey(key)
    ensures Spells(name, key) <==> Lower(name) == key
    ensures Spells(name, key) ==> name != "" && forall i :: 0 <= i < |name| ==> IsAlnum(name[i])
  {
    KeysAreLowerAlnum(key);
    if |name| == |key| {
      forall i | 0 <= i < |key|
        ensures SpellsChar(name[i], key[i]) <==> Lower(name)[i] == key[i]
        ensures SpellsChar(name[i], key[i]) ==> IsAlnum(name[i])
      {
        assert Lower(key)[i] == LowerChar(key[i]);
        SpelledChar(name[i], key[i]);
      }
    }
  }

  /** A word with a key: sign, name, colon and the rest. */
  ghost predicate KeyHead(text: string, neg: bool, name: string, key: string, rest: string) {
    text == Sign(neg) + (name + (":" + rest)) && key in KEYS && Spells(name, key)
  }

  lemma {:induction false} KeyHeadReads(text: string, neg: bool, name: string, key: string, rest: string)
    requires KeyHead(text, neg, name, key, rest)
    ensures IsKeyed(text) && TermOf(text) == Term(neg, Some(key), Unquoted(rest, false))
    ensures KeyPrefix(text).value.length == |text| <==> rest == ""
  {
    KeysAre(key);
    SpellsIff(name, key);
    PrefixOfName(neg, name, rest);
    ValueBehindName(neg, name, rest);
  }

  lemma {:induction false} PrefixText(text: string)
    requires KeyPrefix(text).Some?
    ensures var m := KeyPrefix(text).value; text == Sign(m.neg) + (m.name + (":" + text[m.length..]))
  {
    var m := KeyPrefix(text).value;
    var start := |Sign(m.neg)|;
    assert text[..start] == Sign(m.neg) && text[start..m.length - 1] == m.name && text[m.length - 1] == ':';
    assert text == text[..start] + (text[start..m.length - 1] + ([text[m.length - 1]] + text[m.length..]));
  }

  /** Every keyed word has this form. */
  lemma {:induction false} KeyedHasHead(text: string) returns (neg: bool, name: string, key: string, rest: string)
    requires IsKeyed(text)
    ensures KeyHead(text, neg, name, key, rest)
  {
    var m := KeyPrefix(text).value;
    neg, name, key, rest := m.neg, m.name, Lower(m.name), text[m.length..];
    KeysAre(key);
    SpellsIff(name, key);
    PrefixText(text);
  }

  // ---- Words ----

  /** A character between quotes: itself, or behind a backslash. */
  datatype Inner = Itself(c: char) | Escaped(c: char)

  /** A piece of a word: bare characters, or a part in quotes. */
  datatype Part = Bare(text: string) | Quoted(body: seq<Inner>)

  predicate InnerOk(x: Inner) {
    x.Itself? ==> x.c != '"' && x.c != '\\'
  }

  predicate PartOk(p: Part) {
    match p
    case Bare(text) => text != "" && forall i :: 0 <= i < |text| ==> !IsSpace(text[i]) && text[i] != '"'
    case Quoted(body) => forall i :: 0 <= i < |body| ==> InnerOk(body[i])
  }

  function InnerText(body: seq<Inner>): string {
    if body == [] then "" else CharText(body[0]) + InnerText(body[1..])
  }

  function CharText(x: Inner): string {
    if x.Itself? then [x.c] else ['\\', x.c]
  }

  function InnerValue(body: seq<Inner>): string {
    if body == [] then "" else [body[0].c] + InnerValue(body[1..])
  }

  function PartText(p: Part): string {
    match p
    case Bare(text) => text
    case Quoted(body) => "\"" + (InnerText(body) + "\"")
  }

  function PartValue(p: Part): string {
    match p
    case Bare(text) => text
    case Quoted(body) => InnerValue(body)
  }

  /** Bare parts are as long as they can be. */
  predicate WordOk(w: seq<Part>) {
    && w != [] && (forall i :: 0 <= i < |w| ==> PartOk(w[i]))
    && forall i :: 0 <= i < |w| - 1 ==> w[i].Quoted? || w[i + 1].Quoted?
  }

  /** The word as typed. */
  function WordText(w: seq<Part>): string {
    if w == [] then "" else PartText(w[0]) + WordText(w[1..])
  }

  /** The word without quotes and escapes. */
  function WordValue(w: seq<Part>): string {
    if w == [] then "" else PartValue(w[0]) + WordValue(w[1..])
  }

  lemma {:induction false} SplitChar(x: Inner, rest: string, cur: string)
    requires InnerOk(x) && rest != ""
    ensures QueryLanguage.Split(CharText(x) + rest, cur, true, true) == QueryLanguage.Split(rest, cur + CharText(x), true, true)
  {
    var q, n := CharText(x) + rest, |CharText(x)|;
    assert q[n..] == rest && q[..n] == CharText(x);
  }

  lemma {:induction false} SplitInner(body: seq<Inner>, rest: string, cur: string)
    requires forall i :: 0 <= i < |body| ==> InnerOk(body[i])
    ensures QueryLanguage.Split(InnerText(body) + ("\"" + rest), cur, true, true) ==
            QueryLanguage.Split(rest, cur + InnerText(body) + "\"", false, true)
    decreases |body|
  {
    var q := InnerText(body) + ("\"" + rest);
    if body == [] {
      assert q == "\"" + rest && q[1..] == rest && cur + InnerText(body) == cur;
    } else {
      var tail := InnerText(body[1..]) + ("\"" + rest);
      assert q == CharText(body[0]) + tail;
      SplitChar(body[0], tail, cur);
      SplitInner(body[1..], rest, cur + CharText(body[0]));
      assert cur + CharText(body[0]) + InnerText(body[1..]) == cur + InnerText(body);
    }
  }

  lemma {:induction false} SplitPart(p: Part, rest: string, cur: string, started: bool)
    requires PartOk(p)
    ensures QueryLanguage.Split(PartText(p) + rest, cur, false, started) == QueryLanguage.Split(rest, cur + PartText(p), false, true)
  {
    match p
    case Bare(text) => SplitPlain(text, rest, cur, started);
    case Quoted(body) =>
      var q := PartText(p) + rest;
      assert q[1..] == InnerText(body) + ("\"" + rest);
      SplitInner(body, rest, cur + "\"");
      assert cur + "\"" + InnerText(body) + "\"" == cur + PartText(p);
  }

  /** A word is one token, whatever follows. */
  lemma {:induction false} SplitWord(w: seq<Part>, rest: string, cur: string, started: bool)
    requires forall i :: 0 <= i < |w| ==> PartOk(w[i])
    ensures QueryLanguage.Split(WordText(w) + rest, cur, false, started) ==
            QueryLanguage.Split(rest, cur + WordText(w), false, started || w != [])
    decreases |w|
  {
    if w == [] {
      assert WordText(w) + rest == rest && cur + WordText(w) == cur;
    } else {
      var tail := WordText(w[1..]) + rest;
      assert WordText(w) + rest == PartText(w[0]) + tail;
      SplitPart(w[0], tail, cur, started);
      SplitWord(w[1..], rest, cur + PartText(w[0]), true);
      assert cur + PartText(w[0]) + WordText(w[1..]) == cur + WordText(w);
    }
  }

  lemma {:induction false} UnquoteChar(x: Inner, rest: string)
    requires InnerOk(x) && rest != ""
    ensures Unquoted(CharText(x) + rest, true) == [x.c] + Unquoted(rest, true)
  {
    var q, n := CharText(x) + rest, |CharText(x)|;
    assert q[n..] == rest;
  }

  lemma {:induction false} UnquoteInner(body: seq<Inner>, rest: string)
    requires forall i :: 0 <= i < |body| ==> InnerOk(body[i])
    ensures Unquoted(InnerText(body) + ("\"" + rest), true) == InnerValue(body) + Unquoted(rest, false)
    decreases |body|
  {
    var q := InnerText(body) + ("\"" + rest);
    if body == [] {
      assert q == "\"" + rest && q[1..] == rest;
    } else {
      var tail := InnerText(body[1..]) + ("\"" + rest);
      assert q == CharText(body[0]) + tail;
      UnquoteChar(body[0], tail);
      UnquoteInner(body[1..], rest);
      assert InnerValue(body) + Unquoted(rest, false) == [body[0].c] + (InnerValue(body[1..]) + Unquoted(rest, false));
    }
  }

  lemma {:induction false} UnquoteBare(text: string, rest: string)
    requires forall i :: 0 <= i < |text| ==> text[i] != '"'
    ensures Unquoted(text + rest, false) == text + Unquoted(rest, false)
  {
    if text == "" {
      assert text + rest == rest;
    } else {
      assert (text + rest)[1..] == text[1..] + rest;
      UnquoteBare(text[1..], rest);
    }
  }

  lemma {:induction false} UnquotePart(p: Part, rest: string)
    requires PartOk(p)
    ensures Unquoted(PartText(p) + rest, false) == PartValue(p) + Unquoted(rest, false)
  {
    match p
    case Bare(text) => UnquoteBare(text, rest);
    case Quoted(body) =>
      var q := PartText(p) + rest;
      assert q[0] == '"' && q[1..] == InnerText(body) + ("\"" + rest);
      UnquoteInner(body, rest);
  }

  /** Unquoting a word gives its value. */
  lemma {:induction false} UnquoteWord(w: seq<Part>)
    requires forall i :: 0 <= i < |w| ==> PartOk(w[i])
    ensures Unquoted(WordText(w), false) == WordValue(w)
  {
    if w != [] {
      UnquoteWord(w[1..]);
      UnquotePart(w[0], WordText(w[1..]));
    }
  }

  // ---- Terms ----

  /** The word begins with a key and a colon, outside quotes. */
  ghost predicate KeyWord(w: seq<Part>, neg: bool, name: string, key: string, rest: string) {
    w != [] && w[0].Bare? && KeyHead(w[0].text, neg, name, key, rest)
  }

  /** What the word means: a keyed term, or free text. */
  ghost predicate Means(w: seq<Part>, t: Term) {
    || (exists neg, name, key, rest :: KeyWord(w, neg, name, key, rest) &&
          t == Term(neg, Some(key), rest + WordValue(w[1..])))
    || (!HasKey(w) && t == Term(false, None, WordValue(w)))
  }

  ghost predicate HasKey(w: seq<Part>) {
    exists neg, name, key, rest :: KeyWord(w, neg, name, key, rest)
  }

  lemma {:induction false} HeadExtends(text: string, neg: bool, name: string, key: string, rest: string, tail: string)
    requires KeyHead(text, neg, name, key, rest)
    ensures KeyHead(text + tail, neg, name, key, rest + tail)
  {
    assert text + tail == Sign(neg) + (name + (":" + (rest + tail)));
  }

  lemma {:induction false} RestIsBare(text: string, neg: bool, name: string, key: string, rest: string)
    requires KeyHead(text, neg, name, key, rest) && forall i :: 0 <= i < |text| ==> text[i] != '"'
    ensures forall i :: 0 <= i < |rest| ==> rest[i] != '"'
  {
    forall i | 0 <= i < |rest|
      ensures rest[i] != '"'
    {
      assert text[|Sign(neg)| + |name| + 1 + i] == rest[i];
    }
  }

  lemma {:induction false} KeyWordText(w: seq<Part>, neg: bool, name: string, key: string, rest: string)
    requires WordOk(w) && KeyWord(w, neg, name, key, rest)
    ensures KeyHead(WordText(w), neg, name, key, rest + WordText(w[1..]))
    ensures Unquoted(rest + WordText(w[1..]), false) == rest + WordValue(w[1..])
  {
    assert PartOk(w[0]);
    HeadExtends(w[0].text, neg, name, key, rest, WordText(w[1..]));
    RestIsBare(w[0].text, neg, name, key, rest);
    UnquoteBare(rest, WordText(w[1..]));
    UnquoteWord(w[1..]);
  }

  /** Sign, name and colon. */
  function Head(neg: bool, name: string): string {
    Sign(neg) + (name + ":")
  }

  lemma {:induction false} HeadIsBare(neg: bool, name: string)
    requires forall i :: 0 <= i < |name| ==> IsAlnum(name[i])
    ensures Head(neg, name) != "" && forall i :: 0 <= i < |Head(neg, name)| ==> Head(neg, name)[i] != '"'
  {
    var head, n := Head(neg, name), |Sign(neg)|;
    forall i | 0 <= i < |head|
      ensures head[i] != '"'
    {
      assert n <= i < n + |name| ==> head[i] == name[i - n];
    }
  }

  lemma {:induction false} SpelledIsAlnum(name: string, key: string)
    requires key in KEYS && Spells(name, key)
    ensures forall i :: 0 <= i < |name| ==> IsAlnum(name[i])
  {
    KeysAre(key);
    SpellsIff(name, key);
  }

  lemma {:induction false} HeadThenRest(neg: bool, name: string, rest: string)
    ensures Sign(neg) + (name + (":" + rest)) == Head(neg, name) + rest
  {
  }

  /** Behind a first bare part the word ends or a quote stands. */
  lemma {:induction false} BehindFirst(w: seq<Part>)
    requires WordOk(w)
    ensures w[0].Quoted? ==> WordText(w) != "" && WordText(w)[0] == '"'
    ensures w[0].Bare? ==> w[0].text <= WordText(w)
    ensures w[0].Bare? && |w[0].text| < |WordText(w)| ==> WordText(w)[|w[0].text|] == '"'
  {
    if w[0].Bare? && |w| > 1 {
      assert w[1].Quoted? && WordText(w[1..]) == PartText(w[1]) + WordText(w[2..]) by {
        assert w[0].Quoted? || w[0 + 1].Quoted?;
        assert w[1..][1..] == w[2..];
      }
      assert WordText(w[1..])[0] == '"';
    }
  }

  /** A start without quotes lies in the first part, which is bare. */
  lemma {:induction false} StartInFirst(w: seq<Part>, head: string, rest: string)
    requires WordOk(w) && WordText(w) == head + rest && head != "" && forall i :: 0 <= i < |head| ==> head[i] != '"'
    ensures w[0].Bare? && |w[0].text| >= |head| && w[0].text == head + w[0].text[|head|..]
  {
    BehindFirst(w);
    var text := WordText(w);
    assert forall i :: 0 <= i < |head| ==> text[i] == head[i];
    var first := w[0].text;
    assert first[..|head|] == text[..|head|] == head;
  }

  /** A key at the start of the text lies there. */
  lemma {:induction false} HeadInFirst(w: seq<Part>, neg: bool, name: string, key: string, rest: string)
    requires WordOk(w) && KeyHead(WordText(w), neg, name, key, rest)
    ensures HasKey(w)
  {
    SpelledIsAlnum(name, key);
    HeadIsBare(neg, name);
    HeadThenRest(neg, name, rest);
    StartInFirst(w, Head(neg, name), rest);
    var more := w[0].text[|Head(neg, name)|..];
    HeadThenRest(neg, name, more);
    assert KeyWord(w, neg, name, key, more);
  }

  /** Every word is parsed into the term it means. */
  lemma {:induction false} WordIsRead(w: seq<Part>)
    requires WordOk(w)
    ensures Means(w, TermOf(WordText(w)))
  {
    var text := WordText(w);
    if HasKey(w) {
      var neg, name, key, rest :| KeyWord(w, neg, name, key, rest);
      KeyWordText(w, neg, name, key, rest);
      KeyHeadReads(text, neg, name, key, rest + WordText(w[1..]));
    } else {
      if IsKeyed(text) {
        var neg, name, key, rest := KeyedHasHead(text);
        HeadInFirst(w, neg, name, key, rest);
      }
      UnquoteWord(w);
    }
  }

  /** A word names a key and gives no value, not even an empty one in quotes. */
  ghost predicate LacksValue(w: seq<Part>) {
    |w| == 1 && exists neg, name, key :: KeyWord(w, neg, name, key, "")
  }

  lemma {:induction false} LacksValueText(w: seq<Part>, neg: bool, name: string, key: string, rest: string)
    requires WordOk(w) && KeyWord(w, neg, name, key, rest)
    ensures LacksValue(w) <==> rest + WordText(w[1..]) == ""
  {
    if |w| > 1 {
      BehindFirst(w);
      assert PartOk(w[1]) && WordText(w[1..]) == PartText(w[1]) + WordText(w[1..][1..]);
    } else {
      assert w[1..] == [];
      if LacksValue(w) {
        var neg', name', key' :| KeyWord(w, neg', name', key', "");
        KeyHeadReads(w[0].text, neg, name, key, rest);
        KeyHeadReads(w[0].text, neg', name', key', "");
      }
    }
  }

  /** A finished word raises a problem exactly when it lacks its value. */
  lemma {:induction false} WordProblem(w: seq<Part>)
    requires WordOk(w)
    ensures TokenError(RawToken(WordText(w), false)).Some? <==> LacksValue(w)
  {
    var text := WordText(w);
    if HasKey(w) {
      var neg, name, key, rest :| KeyWord(w, neg, name, key, rest);
      KeyWordText(w, neg, name, key, rest);
      KeyHeadReads(text, neg, name, key, rest + WordText(w[1..]));
      LacksValueText(w, neg, name, key, rest);
    } else if IsKeyed(text) {
      var neg, name, key, rest := KeyedHasHead(text);
      HeadInFirst(w, neg, name, key, rest);
    }
  }

  // ---- Queries ----

  predicate IsGap(s: string) {
    forall i :: 0 <= i < |s| ==> IsSpace(s[i])
  }

  /** Words with white space before each and behind the last; only the outer gaps may be empty. */
  datatype Query = Query(gaps: seq<string>, words: seq<seq<Part>>, last: string)

  predicate QueryOk(q: Query) {
    && |q.gaps| == |q.words| && IsGap(q.last)
    && (forall i :: 0 <= i < |q.words| ==> WordOk(q.words[i]) && IsGap(q.gaps[i]))
    && forall i :: 0 < i < |q.gaps| ==> q.gaps[i] != ""
  }

  function QueryText(q: Query): string
    requires |q.gaps| == |q.words|
    decreases |q.words|
  {
    if q.words == [] then q.last
    else q.gaps[0] + (WordText(q.words[0]) + QueryText(Query(q.gaps[1..], q.words[1..], q.last)))
  }

  lemma {:induction false} SplitGap(gap: string, rest: string, cur: string, started: bool)
    requires IsGap(gap) && gap != ""
    ensures QueryLanguage.Split(gap + rest, cur, false, started) == Flush(cur, started) + QueryLanguage.Split(rest, "", false, false)
    decreases |gap|
  {
    assert IsSpace(gap[0]) && gap[0] != '"';
    assert (gap + rest)[1..] == gap[1..] + rest;
    if |gap| == 1 {
      assert gap[1..] + rest == rest;
    } else {
      SplitGap(gap[1..], rest, "", false);
    }
  }

  function Tokens(words: seq<seq<Part>>): (r: seq<RawToken>)
    ensures |r| == |words| && forall i :: 0 <= i < |words| ==> r[i] == RawToken(WordText(words[i]), false)
  {
    seq(|words|, i requires 0 <= i < |words| => RawToken(WordText(words[i]), false))
  }

  lemma {:induction false} TokensCons(w: seq<Part>, words: seq<seq<Part>>)
    ensures Tokens([w] + words) == [RawToken(WordText(w), false)] + Tokens(words)
  {
  }

  lemma {:induction false} RestOk(q: Query)
    requires QueryOk(q) && q.words != []
    ensures var rest := Query(q.gaps[1..], q.words[1..], q.last); QueryOk(rest) && (rest.words != [] ==> rest.gaps[0] != "")
    ensures WordOk(q.words[0])
  {
    var rest := Query(q.gaps[1..], q.words[1..], q.last);
    forall i | 0 <= i < |rest.words|
      ensures WordOk(rest.words[i]) && IsGap(rest.gaps[i]) && rest.gaps[i] != ""
    {
      assert rest.words[i] == q.words[i + 1] && rest.gaps[i] == q.gaps[i + 1];
    }
  }

  /** Between words, or at the end of the text, a started word is finished. */
  lemma {:induction false} SplitRest(q: Query, cur: string)
    requires QueryOk(q) && (q.words != [] ==> q.gaps[0] != "")
    ensures QueryLanguage.Split(QueryText(q), cur, false, true) == [RawToken(cur, false)] + Tokens(q.words)
    decreases |q.words|, 1
  {
    if q.words == [] {
      if q.last != "" {
        SplitGap(q.last, "", cur, true);
        assert q.last + "" == q.last;
      }
    } else {
      var rest := Query(q.gaps[1..], q.words[1..], q.last);
      SplitGap(q.gaps[0], WordText(q.words[0]) + QueryText(rest), cur, true);
      SplitFirst(q);
    }
  }

  lemma {:induction false} SplitFirst(q: Query)
    requires QueryOk(q) && q.words != []
    ensures var rest := Query(q.gaps[1..], q.words[1..], q.last);
            QueryLanguage.Split(WordText(q.words[0]) + QueryText(rest), "", false, false) == Tokens(q.words)
    decreases |q.words|, 0
  {
    var rest := Query(q.gaps[1..], q.words[1..], q.last);
    var w := q.words[0];
    RestOk(q);
    SplitWord(w, QueryText(rest), "", false);
    assert "" + WordText(w) == WordText(w);
    SplitRest(rest, WordText(w));
    TokensCons(w, rest.words);
    assert q.words == [w] + rest.words;
  }

  /** The text is split into its words. */
  lemma {:induction false} QueryTokens(q: Query)
    requires QueryOk(q)
    ensures QueryLanguage.Split(QueryText(q), "", false, false) == Tokens(q.words)
  {
    if q.words == [] {
      if q.last != "" {
        SplitGap(q.last, "", "", false);
        assert q.last + "" == q.last;
      }
    } else {
      var rest := Query(q.gaps[1..], q.words[1..], q.last);
      if q.gaps[0] == "" {
        assert QueryText(q) == WordText(q.words[0]) + QueryText(rest);
      } else {
        SplitGap(q.gaps[0], WordText(q.words[0]) + QueryText(rest), "", false);
      }
      SplitFirst(q);
    }
  }

  lemma {:induction false} FirstErrorIff(toks: seq<RawToken>)
    ensures FirstError(toks).Some? <==> exists i :: 0 <= i < |toks| && TokenError(toks[i]).Some?
  {
    if toks != [] {
      FirstErrorIff(toks[1..]);
      if i :| 0 <= i < |toks| && TokenError(toks[i]).Some? {
        assert i == 0 || toks[1..][i - 1] == toks[i];
      }
    }
  }

  lemma {:induction false} TermsRead(words: seq<seq<Part>>)
    requires forall i :: 0 <= i < |words| ==> WordOk(words[i])
    ensures var ts := TermsOf(Tokens(words)); |ts| == |words| && forall i :: 0 <= i < |words| ==> Means(words[i], ts[i])
  {
    forall i | 0 <= i < |words|
      ensures Means(words[i], TermsOf(Tokens(words))[i])
    {
      WordIsRead(words[i]);
    }
  }

  lemma {:induction false} ProblemsFound(words: seq<seq<Part>>)
    requires forall i :: 0 <= i < |words| ==> WordOk(words[i])
    ensures FirstError(Tokens(words)).Some? <==> exists i :: 0 <= i < |words| && LacksValue(words[i])
  {
    var toks := Tokens(words);
    FirstErrorIff(toks);
    forall i | 0 <= i < |words|
      ensures TokenError(toks[i]).Some? <==> LacksValue(words[i])
    {
      WordProblem(words[i]);
    }
    if i :| 0 <= i < |words| && LacksValue(words[i]) {
      assert TokenError(toks[i]).Some?;
    }
  }

  /** Every text of the grammar is parsed into the terms its words mean, in order, and a problem is found exactly when
      some key lacks its value. */
  lemma {:induction false} QueryIsRead(q: Query)
    requires QueryOk(q)
    ensures var r := Parse(QueryText(q));
            && |r.terms| == |q.words| && (forall i :: 0 <= i < |q.words| ==> Means(q.words[i], r.terms[i]))
            && (r.error.Some? <==> exists i :: 0 <= i < |q.words| && LacksValue(q.words[i]))
  {
    QueryTokens(q);
    TermsRead(q.words);
    ProblemsFound(q.words);
  }

  // ---- An open quote ----

  lemma {:induction false} SplitOpen(body: seq<Inner>, cur: string)
    requires forall i :: 0 <= i < |body| ==> InnerOk(body[i])
    ensures QueryLanguage.Split(InnerText(body), cur, true, true) == [RawToken(cur + InnerText(body), true)]
    decreases |body|
  {
    if body == [] {
      assert cur + "" == cur;
    } else if |body| == 1 {
      var q := CharText(body[0]);
      assert body[1..] == [] && InnerText(body) == q + "" == q;
      assert InnerOk(body[0]) && q[|q|..] == "" && q[..|q|] == q;
    } else {
      assert InnerText(body[1..]) == CharText(body[1]) + InnerText(body[1..][1..]);
      SplitChar(body[0], InnerText(body[1..]), cur);
      SplitOpen(body[1..], cur + CharText(body[0]));
      assert cur + CharText(body[0]) + InnerText(body[1..]) == cur + InnerText(body);
    }
  }

  /** A last word, after white space, whose quote is never closed. */
  function OpenText(w: seq<Part>, body: seq<Inner>): string {
    WordText(w) + ("\"" + InnerText(body))
  }

  lemma {:induction false} OpenToken(w: seq<Part>, body: seq<Inner>)
    requires (forall i :: 0 <= i < |w| ==> PartOk(w[i])) && forall i :: 0 <= i < |body| ==> InnerOk(body[i])
    ensures QueryLanguage.Split(OpenText(w, body), "", false, false) == [RawToken(OpenText(w, body), true)]
  {
    var text := InnerText(body);
    SplitWord(w, "\"" + text, "", false);
    assert "" + WordText(w) == WordText(w);
    SplitQuote(text, WordText(w), w != []);
    SplitOpen(body, WordText(w) + "\"");
    Regroup(WordText(w), "\"", text);
  }

  /** A query of one word with an open quote is reported, and only that. */
  lemma {:induction false} OpenQuoteReported(gap: string, w: seq<Part>, body: seq<Inner>)
    requires IsGap(gap)
    requires (forall i :: 0 <= i < |w| ==> PartOk(w[i])) && forall i :: 0 <= i < |body| ==> InnerOk(body[i])
    ensures var r := Parse(gap + OpenText(w, body)); |r.terms| == 1 && r.error == Some("Unterminated quote")
  {
    OpenToken(w, body);
    if gap == "" {
      assert gap + OpenText(w, body) == OpenText(w, body);
    } else {
      SplitGap(gap, OpenText(w, body), "", false);
    }
  }

  // ---- What is printed ----

  /** White space: tab to carriage return, space, and the Unicode spaces of ECMAScript. */
  lemma {:induction false} SpacesAre(c: char)
    ensures IsSpace(c) <==>
            c as int in {9, 10, 11, 12, 13, 32, 160, 5760, 8192, 8193, 8194, 8195, 8196, 8197, 8198, 8199, 8200, 8201, 8202,
                         8232, 8233, 8239, 8287, 12288, 65279}
  {
  }

  /** A value is printed as it is exactly when it is not empty and holds no white space, quote or backslash. */
  lemma {:induction false} PrintedBareIff(v: string, force: bool)
    ensures QuoteValue(v, force) == v <==>
            !force && v != "" && forall i :: 0 <= i < |v| ==> !IsSpace(v[i]) && v[i] != '"' && v[i] != '\\'
  {
    QuoteValueForms(v, force);
    EscapeGrows(v);
  }

  lemma {:induction false} EscapeGrows(v: string)
    ensures |QueryLanguage.Escape(v)| >= |v|
  {
    if v != "" {
      EscapeGrows(v[1..]);
    }
  }

  /** Terms are printed one behind the other, a single space between them. */
  lemma {:induction false} PrintedSnoc(ts: seq<Term>, t: Term)
    ensures SerializeQuery(ts + [t]) == if ts == [] then SerializeTerm(t) else SerializeQuery(ts) + (" " + SerializeTerm(t))
  {
    if ts == [] {
      assert ts + [t] == [t];
    } else {
      var all := ts + [t];
      assert all[0] == ts[0] && all[1..] == ts[1..] + [t];
      PrintedSnoc(ts[1..], t);
      if |ts| > 1 {
        Regroup(SerializeTerm(ts[0]) + " ", SerializeQuery(ts[1..]), " " + SerializeTerm(t));
      } else {
        Regroup(SerializeTerm(ts[0]), " ", SerializeTerm(t));
      }
    }
  }
}
