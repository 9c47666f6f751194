/** LIKE patterns with escaped user input, and the comma-separated tag column. */
module Like {
  import opened Basics

  // ---- Escaping ----

  /** `likeEsc`: a single pass over the value. */
  function Escape(v: string): string {
    if v == "" then "" else EscapeChar(v[0]) + Escape(v[1..])
  }

  function EscapeChar(c: char): string {
    if c == '\\' || c == '%' || c == '_' then ['\\', c] else [c]
  }

  /** Equal up to ASCII case, as SQLite's LIKE compares. */
  predicate EqFold(a: string, b: string) {
    |a| == |b| && forall i :: 0 <= i < |a| ==> LowerChar(a[i]) == LowerChar(b[i])
  }

  /** `s LIKE pat ESCAPE '\'`. */
  predicate Match(pat: string, s: string)
    decreases |pat| + |s|
  {
    if pat == "" then s == ""
    else if pat[0] == '%' then Match(pat[1..], s) || (s != "" && Match(pat, s[1..]))
    else if pat[0] == '_' then s != "" && Match(pat[1..], s[1..])
    else if pat[0] == '\\' then |pat| > 1 && s != "" && LowerChar(pat[1]) == LowerChar(s[0]) && Match(pat[2..], s[1..])
    else s != "" && LowerChar(pat[0]) == LowerChar(s[0]) && Match(pat[1..], s[1..])
  }

  lemma {:induction false} EscapedChar(c: char, pat: string, s: string)
    ensures Match(EscapeChar(c) + pat, s) <==> s != "" && LowerChar(c) == LowerChar(s[0]) && Match(pat, s[1..])
  {
    var p := EscapeChar(c) + pat;
    assert p[|EscapeChar(c)|..] == pat;
  }

  lemma {:induction false} PrefixCons(v: string, s: string)
    requires v != "" && |v| <= |s|
    ensures EqFold(v, s[..|v|]) <==> LowerChar(v[0]) == LowerChar(s[0]) && EqFold(v[1..], s[1..][..|v| - 1])
  {
    assert s[1..][..|v| - 1] == s[..|v|][1..];
    EqFoldCons(v, s[..|v|]);
  }

  /** An escaped value matches itself literally, in front of any further pattern. */
  lemma {:induction false} EscapedIsLiteral(v: string, pat: string, s: string)
    ensures Match(Escape(v) + pat, s) <==> |v| <= |s| && EqFold(v, s[..|v|]) && Match(pat, s[|v|..])
  {
    if v == "" {
      assert Escape(v) + pat == pat && s[0..] == s;
    } else {
      assert Escape(v) + pat == EscapeChar(v[0]) + (Escape(v[1..]) + pat);
      EscapedChar(v[0], Escape(v[1..]) + pat, s);
      if s != "" {
        EscapedIsLiteral(v[1..], pat, s[1..]);
        if |v| <= |s| {
          assert s[1..][|v| - 1..] == s[|v|..];
          PrefixCons(v, s);
        }
      }
    }
  }

  lemma {:induction false} EqFoldCons(a: string, b: string)
    requires a != "" && b != ""
    ensures EqFold(a, b) <==> LowerChar(a[0]) == LowerChar(b[0]) && EqFold(a[1..], b[1..])
  {
    if LowerChar(a[0]) == LowerChar(b[0]) && EqFold(a[1..], b[1..]) {
      forall i | 0 <= i < |a|
        ensures LowerChar(a[i]) == LowerChar(b[i])
      {
        if i > 0 {
          assert LowerChar(a[1..][i - 1]) == LowerChar(b[1..][i - 1]);
        }
      }
    }
  }

  lemma {:induction false} PercentMatchesAll(s: string)
    ensures Match("%", s)
  {
    assert "%"[1..] == "";
    if s != "" {
      PercentMatchesAll(s[1..]);
    }
  }

  /** The prefix pattern matches exactly the strings that start with the value. */
  lemma {:induction false} PrefixPatternIsExact(v: string, s: string)
    ensures Match(Escape(v) + "%", s) <==> |v| <= |s| && EqFold(v, s[..|v|])
  {
    EscapedIsLiteral(v, "%", s);
    if |v| <= |s| {
      PercentMatchesAll(s[|v|..]);
    }
  }

  /** `v` occurs in `s` at `i`, up to ASCII case. */
  predicate OccursAt(v: string, s: string, i: nat) {
    i + |v| <= |s| && EqFold(v, s[i..i + |v|])
  }

  lemma {:induction false} OccursInTail(v: string, s: string, i: nat)
    requires s != ""
    ensures OccursAt(v, s[1..], i) <==> OccursAt(v, s, i + 1)
  {
    if i + 1 + |v| <= |s| {
      assert s[1..][i..i + |v|] == s[i + 1..i + 1 + |v|];
    }
  }

  /** The pattern `%v%` matches exactly the strings that contain the value. */
  lemma {:induction false} InfixPatternIsExact(v: string, s: string)
    ensures Match("%" + (Escape(v) + "%"), s) <==> exists i :: OccursAt(v, s, i)
    decreases |s|
  {
    var p := "%" + (Escape(v) + "%");
    assert p[1..] == Escape(v) + "%";
    PrefixPatternIsExact(v, s);
    assert OccursAt(v, s, 0) <==> |v| <= |s| && EqFold(v, s[..|v|]);
    if s != "" {
      InfixPatternIsExact(v, s[1..]);
      forall i: nat
        ensures OccursAt(v, s[1..], i) <==> OccursAt(v, s, i + 1)
      {
        OccursInTail(v, s, i);
      }
      if i: nat :| OccursAt(v, s, i) && i > 0 {
        assert OccursAt(v, s[1..], i - 1);
      }
    } else if i: nat :| OccursAt(v, s, i) {
      assert i == 0;
    }
  }

  // ---- Tags ----

  function Fields(s: string): (r: seq<string>)
    ensures r != []
    ensures forall i :: 0 <= i < |r| ==> ',' !in r[i]
  {
    Split(s, ',')
  }

  function SplitTags(s: string): seq<string> {
    if s == "" then [] else Fields(s)
  }

  function JoinTags(tags: seq<string>): string {
    if tags == [] then ""
    else if |tags| == 1 then tags[0]
    else tags[0] + "," + JoinTags(tags[1..])
  }

  lemma {:induction false} FieldsOfOne(t: string)
    requires ',' !in t
    ensures Fields(t) == [t]
  {
    SplitOne(t, ',');
  }

  lemma {:induction false} FieldsOfPair(t: string, s: string)
    requires ',' !in t
    ensures Fields(t + "," + s) == [t] + Fields(s)
  {
    SplitPair(t, s, ',');
    assert t + "," + s == t + ("," + s);
  }

  lemma {:induction false} FieldsOfJoin(tags: seq<string>)
    requires tags != [] && forall i :: 0 <= i < |tags| ==> ',' !in tags[i]
    ensures Fields(JoinTags(tags)) == tags
  {
    if |tags| == 1 {
      FieldsOfOne(tags[0]);
    } else {
      FieldsOfJoin(tags[1..]);
      FieldsOfPair(tags[0], JoinTags(tags[1..]));
    }
  }

  /** `SplitTags` undoes `JoinTags` exactly on comma-free tags, except the one-element list of an empty tag. */
  lemma {:induction false} SplitUndoesJoinIff(tags: seq<string>)
    ensures SplitTags(JoinTags(tags)) == tags <==> (forall i :: 0 <= i < |tags| ==> ',' !in tags[i]) && tags != [""]
  {
    if (forall i :: 0 <= i < |tags| ==> ',' !in tags[i]) && tags != [""] && tags != [] {
      FieldsOfJoin(tags);
      assert |tags| > 1 ==> |JoinTags(tags)| == |tags[0]| + 1 + |JoinTags(tags[1..])|;
    }
  }

  /** The column wrapped in commas. */
  function Wrapped(column: string): string {
    "," + column + ","
  }

  /** A column is its first field alone, or that field, a comma and the other fields. */
  lemma {:induction false} FirstField(column: string) returns (f: string, rest: string)
    ensures ',' !in f
    ensures ',' !in column ==> column == f && Fields(column) == [f]
    ensures ',' in column ==> column == f + "," + rest && Fields(column) == [f] + Fields(rest)
  {
    if column == "" {
      return "", "";
    } else if column[0] == ',' {
      assert column == "" + "," + column[1..];
      FieldsOfPair("", column[1..]);
      return "", column[1..];
    }
    f, rest := FirstField(column[1..]);
    f := [column[0]] + f;
    if ',' in column {
      assert column == [column[0]] + column[1..] == f + "," + rest;
      FieldsOfPair(f, rest);
    } else {
      FieldsOfOne(f);
    }
  }

  lemma {:induction false} OccurrenceChars(p: string, w: string, i: nat, j: nat)
    requires OccursAt(p, w, i) && j < |p|
    ensures LowerChar(p[j]) == LowerChar(w[i + j])
  {
    assert w[i..i + |p|][j] == w[i + j];
  }

  lemma {:induction false} FieldChars(f: string, rest: string)
    requires ',' !in f
    ensures var w := "," + f + "," + rest;
            forall j :: 1 <= j <= |f| ==> w[j] != ',' && w[j] == f[j - 1]
  {
    forall j | 1 <= j <= |f|
      ensures ("," + f + "," + rest)[j] == f[j - 1] && f[j - 1] != ','
    {
      assert f[j - 1] in f;
    }
  }

  /** A comma-free tag over a field boundary must fill the field. */
  lemma {:induction false} OccursAtFront(t: string, f: string, rest: string)
    requires ',' !in t && ',' !in f && OccursAt(Wrapped(t), "," + f + "," + rest, 0)
    ensures EqFold(t, f)
  {
    var w, p := "," + f + "," + rest, Wrapped(t);
    forall j | 1 <= j <= |t|
      ensures w[j] != ',' && LowerChar(t[j - 1]) == LowerChar(w[j])
    {
      OccurrenceChars(p, w, 0, j);
      assert p[j] == t[j - 1] && t[j - 1] in t;
    }
    OccurrenceChars(p, w, 0, |t| + 1);
    FieldChars(f, rest);
    assert p[|t| + 1] == ',' && w[|t| + 1] == ',' && w[|f| + 1] == ',';
    assert |t| == |f|;
    forall j | 0 <= j < |t|
      ensures LowerChar(t[j]) == LowerChar(f[j])
    {
      assert w[j + 1] == f[j];
    }
  }

  /** Where a comma-wrapped tag can occur in `,f,rest`: only over the whole first field, or behind it. */
  lemma {:induction false} OccursInField(t: string, f: string, rest: string, i: nat)
    requires ',' !in t && ',' !in f && OccursAt(Wrapped(t), "," + f + "," + rest, i)
    ensures (i == 0 && EqFold(t, f)) || (i >= 1 + |f| && OccursAt(Wrapped(t), "," + rest, i - 1 - |f|))
  {
    var w, p := "," + f + "," + rest, Wrapped(t);
    if i == 0 {
      OccursAtFront(t, f, rest);
    } else {
      OccurrenceChars(p, w, i, 0);
      FieldChars(f, rest);
      assert w[i] == ',' && i >= 1 + |f|;
      var k := i - 1 - |f|;
      assert ("," + rest) == w[1 + |f|..];
      assert ("," + rest)[k..k + |p|] == w[i..i + |p|];
    }
  }

  lemma {:induction false} OccursOverField(t: string, f: string, rest: string)
    requires EqFold(t, f)
    ensures OccursAt(Wrapped(t), "," + f + "," + rest, 0)
  {
    var w, p := "," + f + "," + rest, Wrapped(t);
    assert w[0..|p|] == "," + f + ",";
  }

  lemma {:induction false} OccursBehindField(t: string, f: string, rest: string, i: nat)
    requires OccursAt(Wrapped(t), "," + rest, i)
    ensures OccursAt(Wrapped(t), "," + f + "," + rest, i + 1 + |f|)
  {
    var w, p := "," + f + "," + rest, Wrapped(t);
    assert ("," + rest) == w[1 + |f|..];
    assert w[i + 1 + |f|..i + 1 + |f| + |p|] == ("," + rest)[i..i + |p|];
  }

  predicate HasField(column: string, t: string) {
    exists j :: 0 <= j < |Fields(column)| && EqFold(t, Fields(column)[j])
  }

  /** A comma-wrapped comma-free tag occurs in the wrapped column exactly when it is one of its fields. */
  lemma {:induction false} WrappedOccursIff(column: string, t: string)
    requires ',' !in t
    ensures (exists i :: OccursAt(Wrapped(t), Wrapped(column), i)) <==> HasField(column, t)
    decreases |column|
  {
    var f, rest := FirstField(column);
    if ',' !in column {
      assert Wrapped(column) == "," + f + "," + "";
      if i: nat :| OccursAt(Wrapped(t), Wrapped(column), i) {
        OccursInField(t, f, "", i);
        assert EqFold(t, Fields(column)[0]);
      }
      if EqFold(t, f) {
        OccursOverField(t, f, "");
      }
    } else {
      assert Wrapped(column) == "," + f + "," + (rest + ",") && Wrapped(rest) == "," + (rest + ",");
      WrappedOccursIff(rest, t);
      HasFieldCons(column, f, rest, t);
      if i: nat :| OccursAt(Wrapped(t), Wrapped(column), i) {
        OccursInField(t, f, rest + ",", i);
      }
      if EqFold(t, f) {
        OccursOverField(t, f, rest + ",");
      } else if i: nat :| OccursAt(Wrapped(t), Wrapped(rest), i) {
        OccursBehindField(t, f, rest + ",", i);
      }
    }
  }

  lemma {:induction false} HasFieldCons(column: string, f: string, rest: string, t: string)
    requires Fields(column) == [f] + Fields(rest)
    ensures HasField(column, t) <==> EqFold(t, f) || HasField(rest, t)
  {
    var fs := Fields(column);
    if j :| 0 <= j < |fs| && EqFold(t, fs[j]) {
      assert j == 0 || Fields(rest)[j - 1] == fs[j];
    }
    if EqFold(t, f) {
      assert fs[0] == f;
    }
    if j :| 0 <= j < |Fields(rest)| && EqFold(t, Fields(rest)[j]) {
      assert fs[j + 1] == Fields(rest)[j];
    }
  }

  /** The tag filter: `(',' || tags || ',') LIKE '%,tag,%'`. */
  predicate TagFilter(tag: string, column: string) {
    Match("%," + Escape(tag) + ",%", Wrapped(column))
  }

  predicate HasTag(column: string, tag: string) {
    exists j :: 0 <= j < |SplitTags(column)| && EqFold(tag, SplitTags(column)[j])
  }

  lemma {:induction false} EscapeConcat(a: string, b: string)
    ensures Escape(a + b) == Escape(a) + Escape(b)
  {
    if a == "" {
      assert a + b == b;
    } else {
      assert (a + b)[1..] == a[1..] + b;
      EscapeConcat(a[1..], b);
    }
  }

  lemma {:induction false} TagFilterIsOccurrence(tag: string, column: string)
    ensures TagFilter(tag, column) <==> exists i :: OccursAt(Wrapped(tag), Wrapped(column), i)
  {
    EscapeConcat("," + tag, ",");
    EscapeConcat(",", tag);
    assert ","[1..] == "" && Escape(",") == ",";
    assert "%," + Escape(tag) + ",%" == "%" + (Escape(Wrapped(tag)) + "%");
    InfixPatternIsExact(Wrapped(tag), Wrapped(column));
  }

  /** The filter agrees with `SplitTags` on every column exactly for non-empty tags without a comma. */
  lemma {:induction false} TagFilterExactIff(tag: string)
    ensures (forall column :: TagFilter(tag, column) <==> HasTag(column, tag)) <==> tag != "" && ',' !in tag
  {
    if tag != "" && ',' !in tag {
      forall column
        ensures TagFilter(tag, column) <==> HasTag(column, tag)
      {
        TagFilterIsOccurrence(tag, column);
        WrappedOccursIff(column, tag);
        if column == "" {
          assert Fields(column) == [""] && !EqFold(tag, Fields(column)[0]);
        } else {
          assert SplitTags(column) == Fields(column);
        }
      }
    } else {
      TagFilterIsOccurrence(tag, tag);
      assert Wrapped(tag)[0..|Wrapped(tag)|] == Wrapped(tag);
      assert OccursAt(Wrapped(tag), Wrapped(tag), 0);
      if tag != "" {
        var k :| 0 <= k < |tag| && tag[k] == ',';
        forall j | 0 <= j < |SplitTags(tag)|
          ensures !EqFold(tag, SplitTags(tag)[j])
        {
          var f := SplitTags(tag)[j];
          assert forall i :: 0 <= i < |f| ==> f[i] in f && LowerChar(f[i]) != ',';
          assert LowerChar(tag[k]) == ',';
        }
      }
    }
  }
}
