/** The lexical pass of the SQL translator (pkg/query/translator.go): a scan that renames or
    marks the calls it knows and copies everything else. */
module Lexical {
  import opened Scanner
  import opened Text

  // ------------------------------------------------------------- names

  predicate IdentStart(c: char) { c == '_' || 'a' <= c <= 'z' || 'A' <= c <= 'Z' }

  predicate IdentPart(c: char) { IdentStart(c) || '0' <= c <= '9' || c == '$' }

  predicate Blank(c: char) { c == ' ' || c == '\t' || c == '\n' || c == '\r' }

  predicate IsName(w: string) {
    |w| > 0 && IdentStart(w[0]) && forall i :: 0 <= i < |w| ==> IdentPart(w[i])
  }

  /** Upper-cased Snowflake name to the DuckDB name or the marker that takes its place. */
  type FunctionMap = map<string, string>

  /** Every replacement is a name that is itself not replaced, and never the name it replaces. */
  ghost predicate Safe(fm: FunctionMap) {
    forall k :: k in fm ==> IsName(fm[k]) && Upper(fm[k]) !in fm && |fm[k]| != |k|
  }

  predicate Known(fm: FunctionMap, name: string) { Upper(name) in fm }

  function Replacement(fm: FunctionMap, name: string): string
    requires Known(fm, name)
  {
    fm[Upper(name)]
  }

  lemma ReplacementFacts(fm: FunctionMap, name: string)
    requires Safe(fm) && Known(fm, name)
    ensures var w := Replacement(fm, name); IsName(w) && !Known(fm, w) && w != name
  {
    assert |Upper(name)| == |name|;
  }

  /** The registered functions. */
  function Registered(): FunctionMap {
    map[
      "IFF" := "IF", "NVL" := "COALESCE", "IFNULL" := "COALESCE", "LISTAGG" := "STRING_AGG",
      "OBJECT_CONSTRUCT" := "json_object", "FLATTEN" := "UNNEST",
      "CURRENT_TIMESTAMP" := "__CURRENT_TIMESTAMP__", "CURRENT_DATE" := "__CURRENT_DATE__",
      "NVL2" := "__NVL2__", "TO_VARIANT" := "__TO_VARIANT__", "PARSE_JSON" := "__PARSE_JSON__",
      "DATEADD" := "__DATEADD__", "DATEDIFF" := "__DATEDIFF__"]
  }

  /** A name of length n whose upper-cased first character is c cannot be a registered one. */
  predicate Foreign(n: nat, c: char) {
    (n, c) !in {(3, 'I'), (3, 'N'), (6, 'I'), (7, 'L'), (16, 'O'), (7, 'F'), (17, 'C'), (12, 'C'),
                (4, 'N'), (10, 'T'), (10, 'P'), (7, 'D'), (8, 'D')}
  }

  predicate GoodEntry(k: string, v: string) {
    |k| > 0 && IsName(v) && |v| != |k| && !Foreign(|k|, k[0]) && Foreign(|v|, Up(v[0]))
  }

  lemma Entries0()
    ensures GoodEntry("IFF", "IF") && GoodEntry("NVL", "COALESCE") && GoodEntry("IFNULL", "COALESCE")
  {
  }

  lemma Entries1()
    ensures GoodEntry("LISTAGG", "STRING_AGG") && GoodEntry("OBJECT_CONSTRUCT", "json_object") && GoodEntry("FLATTEN", "UNNEST")
  {
  }

  lemma Entries2()
    ensures GoodEntry("CURRENT_TIMESTAMP", "__CURRENT_TIMESTAMP__") && GoodEntry("CURRENT_DATE", "__CURRENT_DATE__")
  {
  }

  lemma Entries3()
    ensures GoodEntry("NVL2", "__NVL2__") && GoodEntry("TO_VARIANT", "__TO_VARIANT__") && GoodEntry("PARSE_JSON", "__PARSE_JSON__")
  {
  }

  lemma Entries4()
    ensures GoodEntry("DATEADD", "__DATEADD__") && GoodEntry("DATEDIFF", "__DATEDIFF__")
  {
  }

  lemma RegisteredSafe()
    ensures Safe(Registered())
  {
    var fm := Registered();
    Entries0(); Entries1(); Entries2(); Entries3(); Entries4();
    forall k | k in fm
      ensures GoodEntry(k, fm[k])
    {
    }
    forall k | k in fm
      ensures Upper(fm[k]) !in fm
    {
      var u := Upper(fm[k]);
      assert |u| == |fm[k]| && u[0] == Up(fm[k][0]);
      assert u in fm ==> GoodEntry(u, fm[u]);
    }
  }

  // ------------------------------------------------------------- specification of the scan

  function IdentEnd(s: string, i: nat): (e: nat)
    requires i <= |s|
    ensures i <= e <= |s| && (forall k :: i <= k < e ==> IdentPart(s[k])) && (e < |s| ==> !IdentPart(s[e]))
    decreases |s| - i
  {
    if i < |s| && IdentPart(s[i]) then IdentEnd(s, i + 1) else i
  }

  /** An opening parenthesis is the next thing after blanks. */
  predicate CallFollows(s: string, i: nat)
    requires i <= |s|
    decreases |s| - i
  {
    i < |s| && (s[i] == '(' || (Blank(s[i]) && CallFollows(s, i + 1)))
  }

  /** The text ends in a dot, blanks aside. */
  predicate DotBefore(p: string) {
    p != "" && (p[|p| - 1] == '.' || (Blank(p[|p| - 1]) && DotBefore(p[..|p| - 1])))
  }

  datatype Kind = Region | Name | Other

  datatype Token = Token(kind: Kind, text: string)

  function KindAt(s: string, i: nat): Kind
    requires i < |s|
  {
    if RegionStarts(s, i) then Region else if IdentStart(s[i]) then Name else Other
  }

  function TokenEnd(s: string, i: nat): (e: nat)
    requires i < |s|
    ensures i < e <= |s|
  {
    match KindAt(s, i)
    case Region => SkipNonCode(s, i)
    case Name => IdentEnd(s, i + 1)
    case Other => i + 1
  }

  /** The scan replaces the name at i. */
  predicate Rewrites(fm: FunctionMap, s: string, i: nat)
    requires i < |s|
  {
    && KindAt(s, i) == Name
    && Known(fm, s[i..TokenEnd(s, i)])
    && CallFollows(s, TokenEnd(s, i))
    && !DotBefore(s[..i])
  }

  function Emit(fm: FunctionMap, s: string, i: nat): string
    requires i < |s|
  {
    var name := s[i..TokenEnd(s, i)];
    if Rewrites(fm, s, i) then Replacement(fm, name) else name
  }

  function Translate(fm: FunctionMap, s: string, i: nat): string
    requires i <= |s|
    decreases |s| - i
  {
    if i == |s| then "" else Emit(fm, s, i) + Translate(fm, s, TokenEnd(s, i))
  }

  /** The tokens of a text: non-code regions, names and single characters. */
  function Tokens(s: string, i: nat): seq<Token>
    requires i <= |s|
    decreases |s| - i
  {
    if i == |s| then [] else [Token(KindAt(s, i), s[i..TokenEnd(s, i)])] + Tokens(s, TokenEnd(s, i))
  }

  /** The tokens of a text with exactly the rewritten names exchanged. */
  function Renamed(fm: FunctionMap, s: string, i: nat): seq<Token>
    requires i <= |s|
    decreases |s| - i
  {
    if i == |s| then [] else [Token(KindAt(s, i), Emit(fm, s, i))] + Renamed(fm, s, TokenEnd(s, i))
  }

  datatype Rewrite = Rewrite(name: string, description: string)

  function Describe(replacement: string): string {
    match replacement
    case "__NVL2__" => "IF(a IS NOT NULL, b, c)"
    case "__TO_VARIANT__" => "CAST(... AS JSON)"
    case "__PARSE_JSON__" => "CAST(... AS JSON)"
    case "__DATEADD__" => "date + INTERVAL n part"
    case "__DATEDIFF__" => "DATE_DIFF('part', ...)"
    case _ => replacement
  }

  function RewritesFrom(fm: FunctionMap, s: string, i: nat, seen: set<string>): seq<Rewrite>
    requires i <= |s|
    decreases |s| - i
  {
    if i == |s| then []
    else
      var name := s[i..TokenEnd(s, i)];
      if Rewrites(fm, s, i) && Upper(name) !in seen then
        [Rewrite(Upper(name), Describe(Replacement(fm, name)))]
        + RewritesFrom(fm, s, TokenEnd(s, i), seen + {Upper(name)})
      else RewritesFrom(fm, s, TokenEnd(s, i), seen)
  }

  // ------------------------------------------------------------- the program's loops

  method CallFollowsAt(sql: string, from: nat) returns (r: bool)
    requires from <= |sql|
    ensures r == CallFollows(sql, from)
  {
    var i := from;
    while i < |sql|
      invariant from <= i <= |sql|
      invariant CallFollows(sql, from) == CallFollows(sql, i)
    {
      if sql[i] == '(' {
        return true;
      }
      if !Blank(sql[i]) {
        return false;
      }
      i := i + 1;
    }
    return false;
  }

  method IsQualified(sql: string, start: nat) returns (r: bool)
    requires start <= |sql|
    ensures r == DotBefore(sql[..start])
  {
    var i := start;
    while i > 0
      invariant 0 <= i <= start
      invariant DotBefore(sql[..start]) == DotBefore(sql[..i])
    {
      assert sql[..i][..i - 1] == sql[..i - 1];
      if sql[i - 1] == '.' {
        return true;
      }
      if !Blank(sql[i - 1]) {
        return false;
      }
      i := i - 1;
    }
    return false;
  }

  method ReadName(sql: string, i: nat) returns (end: nat)
    requires i < |sql| && IdentStart(sql[i])
    ensures end == IdentEnd(sql, i + 1)
  {
    end := i + 1;
    while end < |sql| && IdentPart(sql[end])
      invariant i < end <= |sql|
      invariant IdentEnd(sql, i + 1) == IdentEnd(sql, end)
    {
      end := end + 1;
    }
  }

  lemma TranslateStep(fm: FunctionMap, s: string, i: nat, done: string)
    requires i < |s|
    ensures done + Translate(fm, s, i) == (done + Emit(fm, s, i)) + Translate(fm, s, TokenEnd(s, i))
  {
    ConcatAssociates(done, Emit(fm, s, i), Translate(fm, s, TokenEnd(s, i)));
  }

  class Translator {
    const functionMap: FunctionMap

    constructor ()
      ensures functionMap == Registered()
    {
      functionMap := Registered();
    }

    method TranslateFunctionsLexically(sql: string) returns (out: string)
      ensures out == Translate(functionMap, sql, 0)
    {
      out := "";
      var i := 0;
      while i < |sql|
        invariant 0 <= i <= |sql|
        invariant out + Translate(functionMap, sql, i) == Translate(functionMap, sql, 0)
      {
        var end, piece := TokenAt(sql, i);
        TranslateStep(functionMap, sql, i, out);
        out := out + piece;
        i := end;
      }
      assert out + Translate(functionMap, sql, i) == out;
    }

    /** One turn of the scan: the token at i and the text written for it. */
    method TokenAt(sql: string, i: nat) returns (end: nat, piece: string)
      requires i < |sql|
      ensures end == TokenEnd(sql, i) && piece == Emit(functionMap, sql, i)
    {
      var skipped;
      end, skipped := SkipNonCodeAt(sql, i);
      if skipped {
        return end, sql[i..end];
      }
      if !IdentStart(sql[i]) {
        return i + 1, sql[i..i + 1];
      }
      end := ReadName(sql, i);
      var name := sql[i..end];
      var called := CallFollowsAt(sql, end);
      var qualified := IsQualified(sql, i);
      if Known(functionMap, name) && called && !qualified {
        return end, Replacement(functionMap, name);
      }
      return end, name;
    }

    method FunctionRewrites(sql: string) returns (rewrites: seq<Rewrite>)
      ensures rewrites == RewritesFrom(functionMap, sql, 0, {})
    {
      hide CallFollows, DotBefore, Upper, Describe, SkipNonCode, RegionStarts, IdentEnd, Known;
      rewrites := [];
      var seen: set<string> := {};
      var i := 0;
      while i < |sql|
        invariant 0 <= i <= |sql|
        invariant rewrites + RewritesFrom(functionMap, sql, i, seen) == RewritesFrom(functionMap, sql, 0, {})
      {
        var end, skipped := SkipNonCodeAt(sql, i);
        if skipped {
          i := end;
          continue;
        }
        if !IdentStart(sql[i]) {
          i := i + 1;
          continue;
        }
        end := ReadName(sql, i);
        var name := sql[i..end];
        var called := CallFollowsAt(sql, end);
        var qualified := IsQualified(sql, i);
        if Known(functionMap, name) && called && !qualified {
          var upper := Upper(name);
          if upper !in seen {
            ghost var rest := RewritesFrom(functionMap, sql, end, seen + {upper});
            var found := Rewrite(upper, Describe(Replacement(functionMap, name)));
            assert rewrites + ([found] + rest) == (rewrites + [found]) + rest;
            seen := seen + {upper};
            rewrites := rewrites + [found];
          }
        }
        i := end;
      }
      assert rewrites + RewritesFrom(functionMap, sql, i, seen) == rewrites;
    }
  }

  // ------------------------------------------------------------- the pass commutes with tokenization

  /** Where the untranslated rest begins, the translated rest begins with the same character,
      unless both begin a name. */
  lemma FirstSame(fm: FunctionMap, s: string, i: nat)
    requires Safe(fm) && i <= |s|
    ensures Translate(fm, s, i) == "" <==> i == |s|
    ensures i < |s| ==> Translate(fm, s, i)[0] == s[i] || (IdentStart(s[i]) && IdentStart(Translate(fm, s, i)[0]))
  {
    if i < |s| && Rewrites(fm, s, i) {
      ReplacementFacts(fm, s[i..TokenEnd(s, i)]);
    }
  }

  lemma EmitIsName(fm: FunctionMap, s: string, i: nat)
    requires Safe(fm) && i < |s| && KindAt(s, i) == Name
    ensures IsName(Emit(fm, s, i))
  {
    if Rewrites(fm, s, i) {
      ReplacementFacts(fm, s[i..TokenEnd(s, i)]);
    }
  }

  lemma {:induction false} NameRuns(t: string, k: nat, m: nat)
    requires k <= m <= |t| && (forall j :: k <= j < m ==> IdentPart(t[j])) && (m < |t| ==> !IdentPart(t[m]))
    ensures IdentEnd(t, k) == m
    decreases m - k
  {
    if k < m {
      NameRuns(t, k + 1, m);
    }
  }

  lemma NameTokenSame(t: string, k: nat, w: string)
    requires IsName(w) && k + |w| <= |t| && t[k..k + |w|] == w
    requires k + |w| < |t| ==> !IdentPart(t[k + |w|])
    ensures KindAt(t, k) == Name && TokenEnd(t, k) == k + |w|
  {
    forall j | k <= j < k + |w|
      ensures IdentPart(t[j])
    {
      assert t[j] == w[j - k];
    }
    assert t[k] == w[0];
    NameRuns(t, k + 1, k + |w|);
  }

  lemma RegionTokenSame(s: string, i: nat, t: string, k: nat)
    requires i < |s| && RegionStarts(s, i)
    requires var e := SkipNonCode(s, i); var m := k + e - i;
             && Same(s, i, t, k, e - i)
             && (m < |t| <==> e < |s|)
             && (m < |t| ==> t[m] == s[e] || IdentStart(t[m]))
    ensures k < |t| && RegionStarts(t, k) && SkipNonCode(t, k) == k + SkipNonCode(s, i) - i
  {
    if IsQuote(s[i]) { QuotedCloses(s, i + 1, s[i]); }
    RegionSame(s, i, t, k);
  }

  /** What the scan emits for the token at i is one token of the output, of the same kind. */
  lemma TokenSame(fm: FunctionMap, s: string, i: nat, done: string)
    requires Safe(fm) && i < |s|
    ensures var t := done + Translate(fm, s, i);
            var k := |done|;
            && k < |t| && KindAt(t, k) == KindAt(s, i)
            && TokenEnd(t, k) == k + |Emit(fm, s, i)|
            && t[k..TokenEnd(t, k)] == Emit(fm, s, i)
  {
    var e := TokenEnd(s, i);
    var rest := Translate(fm, s, e);
    var t := done + Translate(fm, s, i);
    var k := |done|;
    var y := Emit(fm, s, i);
    var m := k + |y|;
    assert t == (done + y) + rest by { TranslateStep(fm, s, i, done); }
    assert t[k..m] == y;
    FirstSame(fm, s, e);
    assert m < |t| ==> t[m] == rest[0];
    match KindAt(s, i)
    case Region =>
      RegionTokenSame(s, i, t, k);
    case Name =>
      EmitIsName(fm, s, i);
      NameTokenSame(t, k, y);
    case Other =>
      assert y == [s[i]] && t[k] == y[0];
  }

  /** Tokenizing the output gives the tokens of the input with only the rewritten names
      exchanged: literals, comments and dollar bodies come through byte for byte. */
  lemma {:induction false} TranslateCommutes(fm: FunctionMap, s: string, i: nat, done: string)
    requires Safe(fm) && i <= |s|
    ensures Tokens(done + Translate(fm, s, i), |done|) == Renamed(fm, s, i)
    decreases |s| - i
  {
    if i < |s| {
      var t := done + Translate(fm, s, i);
      TokenSame(fm, s, i, done);
      var next := done + Emit(fm, s, i);
      assert t == next + Translate(fm, s, TokenEnd(s, i));
      TranslateCommutes(fm, s, TokenEnd(s, i), next);
    } else {
      assert done + Translate(fm, s, i) == done;
    }
  }

  // ------------------------------------------------------------- the pass is idempotent

  predicate AllBlank(x: string) { forall k :: 0 <= k < |x| ==> Blank(x[k]) }

  lemma {:induction false} DotBeforeLocal(p: string, x: string)
    ensures DotBefore(p + x) == if AllBlank(x) then DotBefore(p) else DotBefore(x)
    decreases |x|
  {
    var t := p + x;
    if x == "" {
      assert t == p;
    } else {
      var y := x[..|x| - 1];
      assert t[..|t| - 1] == p + y;
      assert x == y + [x[|x| - 1]];
      DotBeforeLocal(p, y);
      if Blank(x[|x| - 1]) {
        assert AllBlank(x) == AllBlank(y);
      }
    }
  }

  lemma {:induction false} CallSame(fm: FunctionMap, s: string, i: nat, done: string)
    requires Safe(fm) && i <= |s|
    ensures CallFollows(done + Translate(fm, s, i), |done|) == CallFollows(s, i)
    decreases |s| - i
  {
    var t := done + Translate(fm, s, i);
    FirstSame(fm, s, i);
    if i < |s| {
      assert t[|done|] == Translate(fm, s, i)[0];
      if Blank(s[i]) {
        assert Emit(fm, s, i) == [s[i]];
        assert t == (done + [s[i]]) + Translate(fm, s, i + 1);
        CallSame(fm, s, i + 1, done + [s[i]]);
      }
    }
  }

  lemma NameNotBlank(w: string)
    requires IsName(w)
    ensures !AllBlank(w) && !DotBefore(w)
  {
    assert IdentPart(w[|w| - 1]);
    assert IdentPart(w[0]);
  }

  /** Looking back from the next token sees the same dot in the output as in the input. */
  lemma BackSame(fm: FunctionMap, s: string, i: nat, done: string)
    requires Safe(fm) && i < |s| && DotBefore(done) == DotBefore(s[..i])
    ensures DotBefore(done + Emit(fm, s, i)) == DotBefore(s[..TokenEnd(s, i)])
  {
    hide TokenEnd, IsName, Rewrites, DotBefore, AllBlank;
    var e := TokenEnd(s, i);
    assert s[..e] == s[..i] + s[i..e];
    DotBeforeLocal(done, Emit(fm, s, i));
    DotBeforeLocal(s[..i], s[i..e]);
    if Rewrites(fm, s, i) { BackName(fm, s, i); }
  }

  lemma BackName(fm: FunctionMap, s: string, i: nat)
    requires Safe(fm) && i < |s| && Rewrites(fm, s, i)
    ensures var x, y := Emit(fm, s, i), s[i..TokenEnd(s, i)];
            !AllBlank(x) && !DotBefore(x) && !AllBlank(y) && !DotBefore(y)
  {
    EmitIsName(fm, s, i);
    assert IsName(s[i..TokenEnd(s, i)]);
    NameNotBlank(Emit(fm, s, i));
    NameNotBlank(s[i..TokenEnd(s, i)]);
  }

  /** No name of the output is rewritten again. */
  lemma NotAgain(fm: FunctionMap, s: string, i: nat, done: string)
    requires Safe(fm) && i < |s| && DotBefore(done) == DotBefore(s[..i])
    ensures var t := done + Translate(fm, s, i); |done| < |t| && !Rewrites(fm, t, |done|)
  {
    hide DotBefore, IsName, Safe, CallFollows, TokenEnd;
    var t := done + Translate(fm, s, i);
    var e := TokenEnd(s, i);
    TokenSame(fm, s, i, done);
    assert t[..|done|] == done;
    if KindAt(s, i) == Name {
      assert t == (done + Emit(fm, s, i)) + Translate(fm, s, e);
      CallSame(fm, s, e, done + Emit(fm, s, i));
      if Rewrites(fm, s, i) {
        ReplacementFacts(fm, s[i..e]);
      }
    }
  }

  lemma {:induction false} TranslateTwice(fm: FunctionMap, s: string, i: nat, done: string)
    requires Safe(fm) && i <= |s| && DotBefore(done) == DotBefore(s[..i])
    ensures Translate(fm, done + Translate(fm, s, i), |done|) == Translate(fm, s, i)
    decreases |s| - i
  {
    if i < |s| {
      var e := TokenEnd(s, i);
      var t := done + Translate(fm, s, i);
      var y := Emit(fm, s, i);
      BackSame(fm, s, i, done);
      assert t == (done + y) + Translate(fm, s, e) by { TranslateStep(fm, s, i, done); }
      TranslateTwice(fm, s, e, done + y);
      assert Emit(fm, t, |done|) == y && TokenEnd(t, |done|) == |done + y| by {
        NotAgain(fm, s, i, done);
        TokenSame(fm, s, i, done);
      }
    } else {
      assert done + Translate(fm, s, i) == done;
    }
  }

  /** Translating a translated statement changes nothing. */
  lemma Idempotent(fm: FunctionMap, s: string)
    requires Safe(fm)
    ensures Translate(fm, Translate(fm, s, 0), 0) == Translate(fm, s, 0)
  {
    assert "" + Translate(fm, s, 0) == Translate(fm, s, 0);
    assert s[..0] == "";
    TranslateTwice(fm, s, 0, "");
  }

  // ------------------------------------------------------------- the reported rewrites

  /** A name is reported exactly when some call of it is rewritten, and only once. */
  predicate SomeRewrite(fm: FunctionMap, s: string, i: nat, upper: string)
    requires i <= |s|
    decreases |s| - i
  {
    i < |s| && ((Rewrites(fm, s, i) && Upper(s[i..TokenEnd(s, i)]) == upper) || SomeRewrite(fm, s, TokenEnd(s, i), upper))
  }

  predicate Reported(rs: seq<Rewrite>, upper: string) {
    rs != [] && (rs[0].name == upper || Reported(rs[1..], upper))
  }

  /** No name is reported twice, and every report describes the replacement in the map. */
  predicate Report(fm: FunctionMap, rs: seq<Rewrite>) {
    rs == [] || (
      && !Reported(rs[1..], rs[0].name)
      && rs[0].name in fm && rs[0].description == Describe(fm[rs[0].name])
      && Report(fm, rs[1..]))
  }

  /** The report names exactly the functions the pass rewrites. */
  lemma {:induction false} ReportExact(fm: FunctionMap, s: string, i: nat, seen: set<string>, upper: string)
    requires i <= |s|
    ensures Reported(RewritesFrom(fm, s, i, seen), upper) <==> SomeRewrite(fm, s, i, upper) && upper !in seen
    decreases |s| - i
  {
    hide Rewrites, TokenEnd, Upper;
    if i < |s| {
      var e := TokenEnd(s, i);
      var up := Upper(s[i..e]);
      if Rewrites(fm, s, i) && up !in seen {
        ReportExact(fm, s, e, seen + {up}, upper);
        var rs, rest := RewritesFrom(fm, s, i, seen), RewritesFrom(fm, s, e, seen + {up});
        assert rs[1..] == rest && rs[0].name == up;
      } else {
        ReportExact(fm, s, e, seen, upper);
      }
    }
  }

  lemma {:induction false} ReportOnce(fm: FunctionMap, s: string, i: nat, seen: set<string>)
    requires i <= |s|
    ensures Report(fm, RewritesFrom(fm, s, i, seen))
    decreases |s| - i
  {
    hide TokenEnd, Upper;
    if i < |s| {
      var e := TokenEnd(s, i);
      var up := Upper(s[i..e]);
      if Rewrites(fm, s, i) && up !in seen {
        ReportOnce(fm, s, e, seen + {up});
        ReportExact(fm, s, e, seen + {up}, up);
        var rs, rest := RewritesFrom(fm, s, i, seen), RewritesFrom(fm, s, e, seen + {up});
        assert rs[1..] == rest && rs[0].name == up;
      } else {
        ReportOnce(fm, s, e, seen);
      }
    }
  }

  lemma {:induction false} NothingRewritten(fm: FunctionMap, s: string, i: nat)
    requires Safe(fm) && i <= |s| && Tokens(s, i) == Renamed(fm, s, i)
    ensures forall u :: !SomeRewrite(fm, s, i, u)
    decreases |s| - i
  {
    if i < |s| {
      var e := TokenEnd(s, i);
      assert Tokens(s, i)[0] == Renamed(fm, s, i)[0];
      assert Tokens(s, i)[1..] == Renamed(fm, s, i)[1..];
      if Rewrites(fm, s, i) {
        ReplacementFacts(fm, s[i..e]);
      }
      NothingRewritten(fm, s, e);
    }
  }

  lemma {:induction false} UnchangedWithout(fm: FunctionMap, s: string, i: nat)
    requires i <= |s| && forall u :: !SomeRewrite(fm, s, i, u)
    ensures Translate(fm, s, i) == s[i..]
    decreases |s| - i
  {
    if i < |s| {
      var e := TokenEnd(s, i);
      forall u ensures !SomeRewrite(fm, s, e, u) { assert !SomeRewrite(fm, s, i, u); }
      assert !SomeRewrite(fm, s, i, Upper(s[i..e]));
      UnchangedWithout(fm, s, e);
      assert s[i..] == s[i..e] + s[e..];
    }
  }

  /** The report is empty exactly when the pass changes nothing. */
  lemma ReportEmptyIffUnchanged(fm: FunctionMap, s: string)
    requires Safe(fm)
    ensures RewritesFrom(fm, s, 0, {}) == [] <==> Translate(fm, s, 0) == s
  {
    hide Translate, Tokens, Rewrites, RewritesFrom, SomeRewrite;
    var rs := RewritesFrom(fm, s, 0, {});
    if rs == [] {
      forall u ensures !SomeRewrite(fm, s, 0, u) { ReportExact(fm, s, 0, {}, u); }
      UnchangedWithout(fm, s, 0);
    }
    if Translate(fm, s, 0) == s {
      TranslateCommutes(fm, s, 0, "");
      assert "" + Translate(fm, s, 0) == s;
      NothingRewritten(fm, s, 0);
      if rs != [] { ReportExact(fm, s, 0, {}, rs[0].name); }
    }
  }
}
