/** Reading a WITH clause: its names and where the statement after it begins
    (pkg/query/contextual_naming.go, pkg/query/classifier.go). */
module Ctes {
  import opened Scanner
  import opened Text
  import opened Lexical

  // ------------------------------------------------------------- scanning

  /** Past spaces and comments. */
  function GapEnd(s: string, i: nat): (j: nat)
    requires i <= |s|
    ensures i <= j <= |s|
    decreases |s| - i
  {
    if i == |s| then i
    else if Blank(s[i]) then GapEnd(s, i + 1)
    else if PairAt(s, i, '-', '-') then GapEnd(s, LineEnd(s, i + 2))
    else if PairAt(s, i, '/', '*') then GapEnd(s, CommentEnd(s, i + 2, 1))
    else i
  }

  /** Past the identifier at i, if there is one. */
  function NameEnd(s: string, i: nat): (j: nat)
    requires i <= |s|
    ensures i <= j <= |s|
  {
    if i < |s| && IdentStart(s[i]) then IdentEnd(s, i + 1) else i
  }

  /** Where the parenthesis closes that takes the depth back to zero, or -1. */
  function CloseAt(s: string, i: nat, depth: int): (r: int)
    requires i <= |s|
    ensures r == -1 || (i <= r < |s| && s[r] == ')')
    decreases |s| - i
  {
    if i == |s| then -1
    else if RegionStarts(s, i) then CloseAt(s, SkipNonCode(s, i), depth)
    else if s[i] == '(' then CloseAt(s, i + 1, depth + 1)
    else if s[i] == ')' then if depth == 1 then i else CloseAt(s, i + 1, depth - 1)
    else CloseAt(s, i + 1, depth)
  }

  /** The first place where the keyword stands as a word, or -1. */
  function KeywordAt(s: string, i: nat, kw: string): (r: int)
    requires i <= |s|
    ensures r == -1 || (i <= r < |s| && IdentStart(s[r]) && r + |kw| <= |s|)
    decreases |s| - i
  {
    if i == |s| then -1
    else if RegionStarts(s, i) then KeywordAt(s, SkipNonCode(s, i), kw)
    else if IdentStart(s[i]) then
      if Upper(s[i..IdentEnd(s, i + 1)]) == Upper(kw) then
        assert |Upper(kw)| == |kw|;
        i
      else KeywordAt(s, IdentEnd(s, i + 1), kw)
    else KeywordAt(s, i + 1, kw)
  }

  // ------------------------------------------------------------- the clause

  /** The names found, and where the statement after the clause begins, or -1. */
  datatype Clause = Clause(names: set<string>, start: int)

  function ReadCtes(s: string, i: nat, names: set<string>): (c: Clause)
    requires i <= |s|
    ensures c.start == -1 || i <= c.start <= |s|
    decreases |s| - i
  {
    var a := GapEnd(s, i);
    var b := NameEnd(s, a);
    if a == b then Clause(names, -1)
    else
      var all := names + {Upper(s[a..b])};
      var c := GapEnd(s, b);
      var d := NameEnd(s, c);
      if Upper(s[c..d]) != "AS" then Clause(all, -1)
      else
        var j := GapEnd(s, d);
        if j == |s| || s[j] != '(' then Clause(all, -1)
        else AfterBody(s, CloseAt(s, j, 0), i, all)
  }

  /** After the body's closing parenthesis: a comma and another name, or the statement. */
  function AfterBody(s: string, close: int, i: nat, names: set<string>): (c: Clause)
    requires i <= |s| && (close == -1 || (i <= close < |s| && s[close] == ')'))
    ensures c.start == -1 || i <= c.start <= |s|
    decreases |s| - i, 0
  {
    if close == -1 then Clause(names, -1)
    else
      var next := GapEnd(s, close + 1);
      if next == |s| || s[next] != ',' then Clause(names, next) else ReadCtes(s, next + 1, names)
  }

  function CteAliases(s: string): Clause {
    var w := KeywordAt(s, 0, "WITH");
    if w < 0 then Clause({}, -1)
    else
      var a := GapEnd(s, w + 4);
      var b := NameEnd(s, a);
      ReadCtes(s, if Upper(s[a..b]) == "RECURSIVE" then b else w + 4, {})
  }

  predicate StartsWith(s: string, i: nat, x: string) { i + |x| <= |s| && s[i..i + |x|] == x }

  /** A WITH clause before a SELECT. */
  predicate StartsWithCteQuery(s: string) {
    StartsWith(s, 0, "WITH") && CteAliases(s).start >= 0 && StartsWith(s, CteAliases(s).start, "SELECT")
  }

  // ------------------------------------------------------------- the program's loops

  method SkipSpaceAndComments(s: string, from: nat) returns (j: nat)
    requires from <= |s|
    ensures j == GapEnd(s, from)
  {
    j := from;
    while j < |s|
      invariant from <= j <= |s| && GapEnd(s, from) == GapEnd(s, j)
    {
      if Blank(s[j]) {
        j := j + 1;
      } else if PairAt(s, j, '-', '-') {
        j := IndexPastNewline(s, j + 2);
      } else if PairAt(s, j, '/', '*') {
        var skipped;
        j, skipped := SkipNonCodeAt(s, j);
      } else {
        return j;
      }
    }
  }

  method ReadIdentifierAt(s: string, i: nat) returns (name: string, end: nat)
    requires i <= |s|
    ensures end == NameEnd(s, i) && name == s[i..end]
  {
    if i >= |s| || !IdentStart(s[i]) { return "", i; }
    end := i + 1;
    while end < |s| && IdentPart(s[end])
      invariant i < end <= |s| && IdentEnd(s, i + 1) == IdentEnd(s, end)
    {
      end := end + 1;
    }
    name := s[i..end];
  }

  method MatchingParen(s: string, open: nat) returns (r: int)
    requires open < |s| && s[open] == '('
    ensures r == CloseAt(s, open, 0)
  {
    var depth: int := 0;
    var i := open;
    while i < |s|
      invariant open <= i <= |s| && CloseAt(s, open, 0) == CloseAt(s, i, depth)
    {
      var end, skipped := SkipNonCodeAt(s, i);
      if skipped {
        i := end;
        continue;
      }
      if s[i] == '(' {
        depth := depth + 1;
      } else if s[i] == ')' {
        depth := depth - 1;
        if depth == 0 { return i; }
      }
      i := i + 1;
    }
    return -1;
  }

  method FindKeyword(s: string, kw: string, from: nat) returns (r: int)
    requires from <= |s|
    ensures r == KeywordAt(s, from, kw)
  {
    var i := from;
    while i < |s|
      invariant from <= i <= |s| && KeywordAt(s, from, kw) == KeywordAt(s, i, kw)
    {
      var end, skipped := SkipNonCodeAt(s, i);
      if skipped {
        i := end;
        continue;
      }
      if IdentStart(s[i]) {
        var name;
        name, end := ReadIdentifierAt(s, i);
        if Upper(name) == Upper(kw) { return i; }
        i := end;
        continue;
      }
      i := i + 1;
    }
    return -1;
  }

  /** One turn of the reader whose name, AS and opening parenthesis are there. */
  lemma Turn(s: string, i: nat, names: set<string>, a: nat, b: nat, c: nat, d: nat, j: nat)
    requires i <= |s| && a == GapEnd(s, i) && b == NameEnd(s, a) && b > a && c == GapEnd(s, b) && d == NameEnd(s, c)
    requires Upper(s[c..d]) == "AS" && j == GapEnd(s, d) && j < |s| && s[j] == '('
    ensures ReadCtes(s, i, names) == AfterBody(s, CloseAt(s, j, 0), i, names + {Upper(s[a..b])})
  {
    hide GapEnd, NameEnd, CloseAt, AfterBody, Upper;
  }

  /** A turn that ends early. */
  lemma NoTurn(s: string, i: nat, names: set<string>, a: nat, b: nat)
    requires i <= |s| && a == GapEnd(s, i) && b == NameEnd(s, a)
    ensures b == a ==> ReadCtes(s, i, names) == Clause(names, -1)
    ensures b > a ==> var c := GapEnd(s, b); var d := NameEnd(s, c); var j := GapEnd(s, d);
                      Upper(s[c..d]) != "AS" || j == |s| || s[j] != '(' ==> ReadCtes(s, i, names) == Clause(names + {Upper(s[a..b])}, -1)
  {
    hide GapEnd, NameEnd, CloseAt, AfterBody, Upper;
  }

  lemma BodyRead(s: string, close: int, i: nat, names: set<string>)
    requires i <= |s| && (close == -1 || (i <= close < |s| && s[close] == ')'))
    ensures close == -1 ==> AfterBody(s, close, i, names) == Clause(names, -1)
    ensures close >= 0 ==> var n := GapEnd(s, close + 1);
                           AfterBody(s, close, i, names) == if n < |s| && s[n] == ',' then ReadCtes(s, n + 1, names) else Clause(names, n)
  {
    hide GapEnd, ReadCtes;
  }

  lemma ClauseAt(s: string, w: int)
    requires w == KeywordAt(s, 0, "WITH")
    ensures w < 0 ==> CteAliases(s) == Clause({}, -1)
    ensures w >= 0 ==> var a := GapEnd(s, w + 4); var b := NameEnd(s, a);
                       CteAliases(s) == ReadCtes(s, if Upper(s[a..b]) == "RECURSIVE" then b else w + 4, {})
  {
    hide GapEnd, NameEnd, KeywordAt, Upper, ReadCtes;
  }

  method FindCteAliases(s: string) returns (names: set<string>, start: int)
    ensures Clause(names, start) == CteAliases(s)
  {
    hide GapEnd, NameEnd, CloseAt, KeywordAt, Upper, ReadCtes, CteAliases, AfterBody, IdentStart, RegionStarts;
    names := {};
    var w := FindKeyword(s, "WITH", 0);
    ClauseAt(s, w);
    if w < 0 { return {}, -1; }
    var i := w + 4;
    var gap := SkipSpaceAndComments(s, i);
    var name, end := ReadIdentifierAt(s, gap);
    if Upper(name) == "RECURSIVE" { i := end; }
    ghost var clause := CteAliases(s);
    while true
      invariant i <= |s| && clause == ReadCtes(s, i, names)
      decreases |s| - i
    {
      gap := SkipSpaceAndComments(s, i);
      name, end := ReadIdentifierAt(s, gap);
      NoTurn(s, i, names, gap, end);
      if name == "" { return names, -1; }
      ghost var a, b, was := gap, end, names;
      names := names + {Upper(name)};
      gap := SkipSpaceAndComments(s, end);
      name, end := ReadIdentifierAt(s, gap);
      if Upper(name) != "AS" { return names, -1; }
      var j := SkipSpaceAndComments(s, end);
      if j >= |s| || s[j] != '(' { return names, -1; }
      Turn(s, i, was, a, b, gap, end, j);
      var close := MatchingParen(s, j);
      BodyRead(s, close, i, names);
      if close < 0 { return names, -1; }
      var next := SkipSpaceAndComments(s, close + 1);
      if next >= |s| || s[next] != ',' { return names, next; }
      i := next + 1;
    }
  }

  // ------------------------------------------------------------- printed clauses

  /** Spaces and complete comments: skipping them before a name stops right at the name. */
  predicate Gap(g: string) { GapEnd(g + "A", 0) == |g| }

  /** In parentheses, the text's own closing parenthesis is the one that is found. */
  predicate Balanced(x: string) { CloseAt("(" + x + ")", 0, 0) == |x| + 1 }

  /** One common table expression with the gaps between its tokens. */
  datatype Cte = Cte(before: string, name: string, middle: string, as_: string, open: string, body: string, after: string)

  predicate Fits(c: Cte) {
    && Gap(c.before) && IsName(c.name) && Gap(c.middle) && c.middle != "" && Upper(c.as_) == "AS"
    && Gap(c.open) && Balanced(c.body) && Gap(c.after)
  }

  function PrintCte(c: Cte): string {
    c.before + (c.name + (c.middle + (c.as_ + (c.open + (("(" + c.body + ")") + c.after)))))
  }

  function PrintCtes(cs: seq<Cte>): string
    requires cs != []
  {
    if |cs| == 1 then PrintCte(cs[0]) else PrintCte(cs[0]) + ("," + PrintCtes(cs[1..]))
  }

  function Names(cs: seq<Cte>): set<string> {
    if cs == [] then {} else {Upper(cs[0].name)} + Names(cs[1..])
  }

  /** WITH, in any case, and possibly RECURSIVE after a gap. */
  datatype Head = Head(with_: string, gap: string, recursive: string)

  predicate HeadFits(h: Head) {
    Upper(h.with_) == "WITH" && (h.recursive != "" ==> Upper(h.recursive) == "RECURSIVE" && Gap(h.gap) && h.gap != "")
  }

  function PrintHead(h: Head): string { h.with_ + (if h.recursive == "" then "" else h.gap + h.recursive) }

  /** The statement after the clause starts with neither a gap nor a comma. */
  predicate MainFits(m: string) { m == "" || (GapEnd(m, 0) == 0 && m[0] != ',') }

  // ------------------------------------------------------------- reading what is printed

  /** The characters of g, then a character that starts no gap. */
  predicate Stops(s: string, i: nat) { i <= |s| && (i < |s| ==> GapEnd(s, i) == i) }

  lemma GapHere(s: string, i: nat, g: string)
    requires Holds(s, i, g) && Gap(g) && Stops(s, i + |g|)
    ensures GapEnd(s, i) == i + |g|
  {
    GapFrom(s, i, g, g + "A", 0);
  }

  lemma {:induction false} GapFrom(s: string, i: nat, g: string, ga: string, k: nat)
    requires ga == g + "A" && k <= |g| && GapEnd(ga, k) == |g| && Holds(s, i, g) && Stops(s, i + |g|)
    ensures GapEnd(s, i + k) == i + |g|
    decreases |g| - k
  {
    hide GapEnd, LineEnd, CommentEnd, PairAt, Holds;
    if k < |g| {
      HoldsAt(s, i, g, k);
      HoldsFits(s, i, g);
      GapStep(ga, k);
      GapStep(s, i + k);
      if Blank(ga[k]) {
        GapFrom(s, i, g, ga, k + 1);
      } else {
        var e := if PairAt(ga, k, '-', '-') then LineEnd(ga, k + 2) else CommentEnd(ga, k + 2, 1);
        GapGrows(ga, e);
        CommentHere(s, i, g, ga, k, e);
        GapFrom(s, i, g, ga, e);
      }
    }
  }

  lemma HoldsFits(s: string, i: nat, x: string)
    requires Holds(s, i, x)
    ensures i + |x| <= |s|
  {
  }

  /** What comes first in a gap. */
  lemma GapStep(s: string, i: nat)
    requires i < |s|
    ensures Blank(s[i]) ==> GapEnd(s, i) == GapEnd(s, i + 1)
    ensures !Blank(s[i]) && PairAt(s, i, '-', '-') ==> i + 2 <= |s| && GapEnd(s, i) == GapEnd(s, LineEnd(s, i + 2))
    ensures !Blank(s[i]) && !PairAt(s, i, '-', '-') && PairAt(s, i, '/', '*') ==>
              i + 2 <= |s| && GapEnd(s, i) == GapEnd(s, CommentEnd(s, i + 2, 1))
    ensures !Blank(s[i]) && !PairAt(s, i, '-', '-') && !PairAt(s, i, '/', '*') ==> GapEnd(s, i) == i
  {
    hide LineEnd, CommentEnd;
  }

  lemma GapGrows(s: string, i: nat)
    requires i <= |s|
    ensures GapEnd(s, i) >= i
  {
  }

  /** A comment inside the gap is the same comment in the text. */
  lemma CommentHere(s: string, i: nat, g: string, ga: string, k: nat, e: nat)
    requires ga == g + "A" && k < |g| && Holds(s, i, g) && e <= |g|
    requires PairAt(ga, k, '-', '-') || PairAt(ga, k, '/', '*')
    requires e == if PairAt(ga, k, '-', '-') then LineEnd(ga, k + 2) else CommentEnd(ga, k + 2, 1)
    ensures PairAt(s, i + k, '-', '-') == PairAt(ga, k, '-', '-') && PairAt(s, i + k, '/', '*') == PairAt(ga, k, '/', '*')
    ensures e > k && (PairAt(ga, k, '-', '-') ==> LineEnd(s, i + k + 2) == i + e)
    ensures !PairAt(ga, k, '-', '-') ==> CommentEnd(s, i + k + 2, 1) == i + e
    ensures s[i + k] == ga[k] && !Blank(s[i + k])
  {
    PairHere(s, i, g, ga, k);
    CopySame(s, i, g, ga, k + 2, e);
    hide Holds, Same, Blank;
    if PairAt(ga, k, '-', '-') {
      LineSame(ga, k + 2, s, i + k + 2);
    } else {
      CommentSame(ga, k + 2, s, i + k + 2, 1);
    }
  }

  lemma PairHere(s: string, i: nat, g: string, ga: string, k: nat)
    requires ga == g + "A" && k + 1 < |g| && Holds(s, i, g) && (ga[k] == '-' || ga[k] == '/')
    ensures i + k + 1 < |s| && s[i + k] == ga[k] && !Blank(s[i + k])
    ensures forall a, b :: PairAt(s, i + k, a, b) == PairAt(ga, k, a, b)
  {
    HoldsAt(s, i, g, k);
    HoldsAt(s, i, g, k + 1);
  }

  lemma CopySame(s: string, i: nat, g: string, ga: string, a: nat, b: nat)
    requires ga == g + "A" && a <= b <= |g| && Holds(s, i, g)
    ensures Same(ga, a, s, i + a, b - a)
  {
    SliceOfSlice(s, i, i + |g|, i + a, i + b);
    assert ga[a..b] == g[a..b];
  }

  /** No identifier goes on into a gap. */
  lemma GapFirst(g: string)
    requires Gap(g) && g != ""
    ensures !IdentPart(g[0])
  {
    assert (g + "A")[0] == g[0];
  }

  lemma NameHere(s: string, i: nat, n: string)
    requires Holds(s, i, n) && IsName(n) && (i + |n| < |s| ==> !IdentPart(s[i + |n|]))
    ensures i < |s| && IdentStart(s[i]) && NameEnd(s, i) == i + |n| && s[i..i + |n|] == n && Stops(s, i)
  {
    HoldsAt(s, i, n, 0);
    NameRun(s, i, n, 1);
    assert !Blank(s[i]) && s[i] != '-' && s[i] != '/';
    hide IdentEnd;
    assert GapEnd(s, i) == i;
  }

  lemma {:induction false} NameRun(s: string, i: nat, n: string, k: nat)
    requires Holds(s, i, n) && IsName(n) && 1 <= k <= |n| && (i + |n| < |s| ==> !IdentPart(s[i + |n|]))
    ensures IdentEnd(s, i + k) == i + |n|
    decreases |n| - k
  {
    if k < |n| {
      HoldsAt(s, i, n, k);
      NameRun(s, i, n, k + 1);
    }
  }

  /** The body's parenthesis closes where it does on its own. */
  lemma BodyHere(s: string, i: nat, x: string)
    requires Holds(s, i, "(" + x + ")") && Balanced(x)
    ensures i < |s| && s[i] == '(' && CloseAt(s, i, 0) == i + |x| + 1
  {
    var p := "(" + x + ")";
    HoldsAt(s, i, p, 0);
    CloseFrom(s, i, p, 0, 0);
  }

  lemma {:induction false} CloseFrom(s: string, i: nat, p: string, k: nat, depth: int)
    requires p != "" && Holds(s, i, p) && k <= |p| && CloseAt(p, k, depth) == |p| - 1
    ensures CloseAt(s, i + k, depth) == i + |p| - 1
    decreases |p| - k
  {
    if k < |p| {
      HoldsAt(s, i, p, k);
      CloseInside(s, i, p);
      hide RegionStarts, SkipNonCode, Holds;
      if RegionStarts(p, k) {
        var e := SkipNonCode(p, k);
        CloseLater(p, e, depth);
        RegionHere(s, i, p, k, e);
        CloseFrom(s, i, p, e, depth);
      } else {
        NoRegionHere(s, i, p, k, depth);
        if p[k] != ')' || depth != 1 {
          var d := if p[k] == '(' then depth + 1 else if p[k] == ')' then depth - 1 else depth;
          CloseFrom(s, i, p, k + 1, d);
        }
      }
    }
  }

  lemma CloseInside(s: string, i: nat, p: string)
    requires Holds(s, i, p)
    ensures i + |p| <= |s|
  {
  }

  lemma CloseLater(p: string, k: nat, depth: int)
    requires p != "" && k <= |p| && CloseAt(p, k, depth) == |p| - 1
    ensures k < |p|
  {
  }

  lemma RegionHere(s: string, i: nat, p: string, k: nat, e: nat)
    requires Holds(s, i, p) && k < |p| && RegionStarts(p, k) && e == SkipNonCode(p, k) < |p|
    ensures i + k < |s| && RegionStarts(s, i + k) && SkipNonCode(s, i + k) == i + e
  {
    SliceOfSlice(s, i, i + |p|, i + k, i + e);
    HoldsAt(s, i, p, e);
    assert Same(p, k, s, i + k, e - k);
    hide SkipNonCode, RegionStarts, Same;
    RegionEnds(p, k);
    RegionSame(p, k, s, i + k);
  }

  lemma RegionEnds(p: string, k: nat)
    requires k < |p| && RegionStarts(p, k) && SkipNonCode(p, k) < |p|
    ensures IsQuote(p[k]) ==> p[SkipNonCode(p, k)] != p[k]
  {
    if IsQuote(p[k]) { QuotedCloses(p, k + 1, p[k]); }
  }

  /** Where no region starts in the parenthesised text, none starts in the whole. */
  lemma NoRegionHere(s: string, i: nat, p: string, k: nat, depth: int)
    requires Holds(s, i, p) && k < |p| && !RegionStarts(p, k) && CloseAt(p, k, depth) == |p| - 1
    ensures i + k < |s| && s[i + k] == p[k] && !RegionStarts(s, i + k)
  {
    HoldsAt(s, i, p, k);
    if k + 1 < |p| {
      HoldsAt(s, i, p, k + 1);
    } else {
      assert p[k] == ')';
    }
  }

  // ------------------------------------------------------------- one expression

  /** What stands where in a printed expression: gap, name, gap, AS, gap, body, gap. */
  lemma CteLayout(s: string, i: nat, c: Cte)
    requires Holds(s, i, PrintCte(c))
    ensures var a := i + |c.before|; var b := a + |c.name|; var d := b + |c.middle|; var e := d + |c.as_|;
            && Holds(s, i, c.before) && Holds(s, a, c.name) && Holds(s, b, c.middle) && Holds(s, d, c.as_)
            && Holds(s, e, c.open) && Holds(s, e + |c.open|, "(" + c.body + ")")
            && Holds(s, e + |c.open| + |c.body| + 2, c.after)
            && |PrintCte(c)| == e + |c.open| + |c.body| + 2 + |c.after| - i
  {
    hide Holds;
    var p := "(" + c.body + ")";
    var x := c.as_ + (c.open + (p + c.after));
    ThreeParts(s, i, c.before, c.name, c.middle, x);
    ThreeParts(s, i + |c.before| + |c.name| + |c.middle|, c.as_, c.open, p, c.after);
  }

  lemma ThreeParts(s: string, i: nat, x: string, y: string, z: string, rest: string)
    requires Holds(s, i, x + (y + (z + rest)))
    ensures Holds(s, i, x) && Holds(s, i + |x|, y) && Holds(s, i + |x| + |y|, z) && Holds(s, i + |x| + |y| + |z|, rest)
  {
    hide Holds;
    HoldsSplit(s, i, x, y + (z + rest));
    HoldsSplit(s, i + |x|, y, z + rest);
    HoldsSplit(s, i + |x| + |y|, z, rest);
  }

  lemma AsIsName(x: string)
    requires Upper(x) == "AS"
    ensures IsName(x) && |x| == 2
  {
    assert Upper(x)[0] == 'A' && Upper(x)[1] == 'S';
  }

  /** Reading one printed expression gets to its closing parenthesis. */
  lemma CteRead(s: string, i: nat, c: Cte, names: set<string>)
    requires Holds(s, i, PrintCte(c)) && Fits(c) && Stops(s, i + |PrintCte(c)|)
    ensures var e := i + |PrintCte(c)|;
            ReadCtes(s, i, names) == if e < |s| && s[e] == ',' then ReadCtes(s, e + 1, names + {Upper(c.name)})
                                     else Clause(names + {Upper(c.name)}, e)
  {
    hide *;
    CteLayout(s, i, c);
    var a := i + |c.before|;
    var b := a + |c.name|;
    var d := b + |c.middle|;
    var e := d + |c.as_|;
    var j := e + |c.open|;
    var k := j + |c.body| + 2;
    CteName(s, i, c, a, b, d);
    CteAs(s, c, b, d, e, j);
    assert i + |PrintCte(c)| == k + |c.after| && j - |c.open| == e;
    CteBody(s, c, j, k);
    CteAssemble(s, i, c, names, a, b, d, e, j, k);
  }

  lemma CteName(s: string, i: nat, c: Cte, a: nat, b: nat, d: nat)
    requires Fits(c) && Holds(s, i, c.before) && a == i + |c.before| && Holds(s, a, c.name) && b == a + |c.name|
    requires Holds(s, b, c.middle) && d == b + |c.middle|
    ensures b <= |s| && GapEnd(s, i) == a && NameEnd(s, a) == b && a < b && s[a..b] == c.name
  {
    hide Balanced, GapEnd, CloseAt, Upper;
    HoldsAt(s, b, c.middle, 0);
    GapFirst(c.middle);
    hide Gap;
    NameHere(s, a, c.name);
    hide IsName, IdentEnd;
    GapHere(s, i, c.before);
  }

  lemma CteAs(s: string, c: Cte, b: nat, d: nat, e: nat, j: nat)
    requires Fits(c) && Holds(s, b, c.middle) && d == b + |c.middle| && Holds(s, d, c.as_) && e == d + |c.as_|
    requires Holds(s, e, c.open) && j == e + |c.open| && Holds(s, j, "(" + c.body + ")")
    ensures e <= |s| && GapEnd(s, b) == d && NameEnd(s, d) == e && Upper(s[d..e]) == "AS"
  {
    AsIsName(c.as_);
    var p := "(" + c.body + ")";
    HoldsAt(s, j, p, 0);
    if c.open != "" {
      HoldsAt(s, e, c.open, 0);
      GapFirst(c.open);
    }
    hide Balanced, GapEnd, CloseAt, Upper, Gap;
    NameHere(s, d, c.as_);
    hide IsName, IdentEnd;
    GapHere(s, b, c.middle);
  }

  lemma CteBody(s: string, c: Cte, j: nat, k: nat)
    requires Fits(c) && j >= |c.open| && Holds(s, j - |c.open|, c.open) && Holds(s, j, "(" + c.body + ")") && k == j + |c.body| + 2
    requires Holds(s, k, c.after) && Stops(s, k + |c.after|)
    ensures k <= |s| && GapEnd(s, j - |c.open|) == j < |s| && s[j] == '(' && CloseAt(s, j, 0) == k - 1 && GapEnd(s, k) == k + |c.after|
  {
    BodyHere(s, j, c.body);
    assert Stops(s, j);
    hide Balanced, GapEnd, CloseAt, Gap;
    GapHere(s, j - |c.open|, c.open);
    GapHere(s, k, c.after);
  }

  lemma CteAssemble(s: string, i: nat, c: Cte, names: set<string>, a: nat, b: nat, d: nat, e: nat, j: nat, k: nat)
    requires i <= a < b <= d <= e <= j < k <= |s| && k >= i + 1
    requires GapEnd(s, i) == a && NameEnd(s, a) == b && s[a..b] == c.name
    requires GapEnd(s, b) == d && NameEnd(s, d) == e && Upper(s[d..e]) == "AS"
    requires GapEnd(s, e) == j && s[j] == '(' && CloseAt(s, j, 0) == k - 1 && GapEnd(s, k) == k + |c.after|
    ensures var n := k + |c.after|;
            ReadCtes(s, i, names) == if n < |s| && s[n] == ',' then ReadCtes(s, n + 1, names + {Upper(c.name)})
                                     else Clause(names + {Upper(c.name)}, n)
  {
    hide GapEnd, NameEnd, CloseAt, Upper;
  }

  // ------------------------------------------------------------- the whole clause

  lemma CommaStops(s: string, i: nat)
    requires i < |s| && s[i] == ','
    ensures Stops(s, i)
  {
  }

  /** A printed list of expressions, up to the statement after it. */
  lemma {:induction false} CtesRead(s: string, i: nat, cs: seq<Cte>, e: nat, names: set<string>)
    requires cs != [] && (forall k :: 0 <= k < |cs| ==> Fits(cs[k])) && Holds(s, i, PrintCtes(cs)) && e == i + |PrintCtes(cs)|
    requires Stops(s, e) && (e < |s| ==> s[e] != ',')
    ensures ReadCtes(s, i, names) == Clause(names + Names(cs), e)
    decreases |cs|
  {
    hide Fits, PrintCte, ReadCtes, GapEnd, Stops;
    if |cs| == 1 {
      CteRead(s, i, cs[0], names);
      assert cs[1..] == [];
    } else {
      var p := PrintCte(cs[0]);
      HoldsSplit(s, i, p, "," + PrintCtes(cs[1..]));
      HoldsSplit(s, i + |p|, ",", PrintCtes(cs[1..]));
      HoldsAt(s, i + |p|, ",", 0);
      CommaStops(s, i + |p|);
      CteRead(s, i, cs[0], names);
      CtesRead(s, i + |p| + 1, cs[1..], e, names + {Upper(cs[0].name)});
    }
  }

  /** The whole statement. */
  function PrintStatement(h: Head, cs: seq<Cte>, main: string): string
    requires cs != []
  {
    PrintHead(h) + (PrintCtes(cs) + main)
  }

  predicate ClauseFits(h: Head, cs: seq<Cte>, main: string) {
    HeadFits(h) && cs != [] && (forall k :: 0 <= k < |cs| ==> Fits(cs[k])) && cs[0].before != "" && MainFits(main)
  }

  /** And without RECURSIVE the first name is not that word. */
  predicate StatementFits(h: Head, cs: seq<Cte>, main: string) {
    ClauseFits(h, cs, main) && (h.recursive == "" ==> Upper(cs[0].name) != "RECURSIVE")
  }

  lemma WordIsName(x: string, kw: string)
    requires Upper(x) == kw && IsName(kw)
    ensures IsName(x) && |x| == |kw|
  {
    assert forall i :: 0 <= i < |x| ==> Upper(x)[i] == Up(x[i]);
  }

  lemma KeywordsAreNames()
    ensures IsName("WITH") && IsName("RECURSIVE")
  {
  }

  /** WITH at the start of the text is found there. */
  lemma WithFound(s: string, w: string)
    requires Holds(s, 0, w) && Upper(w) == "WITH" && (4 < |s| ==> !IdentPart(s[4]))
    ensures KeywordAt(s, 0, "WITH") == 0
  {
    KeywordsAreNames();
    WordIsName(w, "WITH");
    NameHere(s, 0, w);
    NoRegionAtName(s, 0);
    assert Upper("WITH") == "WITH";
    hide IsName, IdentEnd, Upper, RegionStarts;
    assert s[0..4] == w;
  }

  lemma NoRegionAtName(s: string, i: nat)
    requires i < |s| && IdentStart(s[i])
    ensures !RegionStarts(s, i)
  {
  }

  lemma CtesFirst(s: string, i: nat, cs: seq<Cte>)
    requires cs != [] && Fits(cs[0]) && cs[0].before != "" && Holds(s, i, PrintCtes(cs))
    ensures i < |s| && !IdentPart(s[i]) && Holds(s, i, PrintCte(cs[0]))
  {
    var c := cs[0];
    GapFirst(c.before);
    hide Gap, Balanced, PrintCte;
    if |cs| > 1 { HoldsSplit(s, i, PrintCte(c), "," + PrintCtes(cs[1..])); }
    CteStarts(s, i, c);
  }

  lemma CteStarts(s: string, i: nat, c: Cte)
    requires c.before != "" && Holds(s, i, PrintCte(c))
    ensures i < |s| && s[i] == c.before[0]
  {
    HoldsSplit(s, i, c.before, c.name + (c.middle + (c.as_ + (c.open + (("(" + c.body + ")") + c.after)))));
    HoldsAt(s, i, c.before, 0);
  }

  lemma MainStops(s: string, e: nat, main: string)
    requires e <= |s| && s[e..] == main && MainFits(main)
    ensures Stops(s, e) && (e < |s| ==> s[e] != ',')
  {
    if main != "" {
      assert main[0] == s[e] && (|main| > 1 ==> main[1] == s[e + 1]);
      MainFirst(main);
    }
  }

  lemma MainFirst(main: string)
    requires main != "" && GapEnd(main, 0) == 0
    ensures !Blank(main[0]) && !PairAt(main, 0, '-', '-') && !PairAt(main, 0, '/', '*')
  {
  }

  /** For any number of expressions, any gaps and comments between tokens and any balanced
      bodies, the reader finds exactly the names, and the place where the statement begins. */
  lemma AliasesExact(h: Head, cs: seq<Cte>, main: string)
    requires StatementFits(h, cs, main)
    ensures var s := PrintStatement(h, cs, main); CteAliases(s) == Clause(Names(cs), |s| - |main|)
  {
    var s := PrintStatement(h, cs, main);
    var i, e := |PrintHead(h)|, |s| - |main|;
    hide Fits, PrintCtes, GapEnd, IsName, ReadCtes, KeywordAt, Upper, Holds;
    StatementParts(s, h, cs, main);
    MainStops(s, e, main);
    CtesFirst(s, i, cs);
    HeadRead(s, h, cs[0], i);
    CtesRead(s, i, cs, e, {});
    assert {} + Names(cs) == Names(cs);
  }

  lemma StatementParts(s: string, h: Head, cs: seq<Cte>, main: string)
    requires cs != [] && s == PrintStatement(h, cs, main)
    ensures var i := |PrintHead(h)|;
            && Holds(s, 0, PrintHead(h)) && Holds(s, i, PrintCtes(cs)) && i + |PrintCtes(cs)| == |s| - |main|
            && s[|s| - |main|..] == main
  {
    hide PrintHead, PrintCtes;
    var a, b := PrintHead(h), PrintCtes(cs);
    assert s == a + (b + main);
    assert s[0..|s|] == s;
    HoldsSplit(s, 0, a, b + main);
    HoldsSplit(s, |a|, b, main);
    assert s[|a| + |b|..] == main;
  }

  /** After the head, the list is read from where the first expression is printed. */
  lemma HeadRead(s: string, h: Head, c: Cte, i: nat)
    requires HeadFits(h) && Fits(c) && c.before != "" && (h.recursive == "" ==> Upper(c.name) != "RECURSIVE")
    requires Holds(s, 0, PrintHead(h)) && i == |PrintHead(h)| < |s| && !IdentPart(s[i]) && Holds(s, i, PrintCte(c))
    ensures CteAliases(s) == ReadCtes(s, i, {})
  {
    hide ReadCtes, GapEnd, NameEnd, IsName, KeywordAt, Fits, Gap, PrintCte, Holds, Upper, CteAliases;
    assert |Upper(h.with_)| == |h.with_|;
    ClauseAt(s, KeywordAt(s, 0, "WITH"));
    if h.recursive == "" {
      assert PrintHead(h) == h.with_;
      WithFound(s, h.with_);
      FirstName(s, i, c);
    } else {
      HoldsSplit(s, 0, h.with_, h.gap + h.recursive);
      HoldsSplit(s, 4, h.gap, h.recursive);
      HoldsAt(s, 4, h.gap, 0);
      GapFirst(h.gap);
      WithFound(s, h.with_);
      RecursiveRead(s, h, 4 + |h.gap|, i);
    }
  }

  lemma FirstName(s: string, i: nat, c: Cte)
    requires Fits(c) && Holds(s, i, PrintCte(c)) && i <= |s|
    ensures var a := GapEnd(s, i); s[a..NameEnd(s, a)] == c.name
  {
    hide PrintCte, GapEnd, NameEnd, Fits;
    CteLayout(s, i, c);
    CteName(s, i, c, i + |c.before|, i + |c.before| + |c.name|, i + |c.before| + |c.name| + |c.middle|);
  }

  lemma RecursiveRead(s: string, h: Head, a: nat, b: nat)
    requires HeadFits(h) && h.recursive != "" && a == 4 + |h.gap| && b == a + |h.recursive| < |s| && !IdentPart(s[b])
    requires Holds(s, 4, h.gap) && Holds(s, a, h.recursive)
    ensures GapEnd(s, 4) == a && NameEnd(s, a) == b && Upper(s[a..b]) == "RECURSIVE"
  {
    KeywordsAreNames();
    WordIsName(h.recursive, "RECURSIVE");
    hide GapEnd, Gap, IsName, Upper;
    NameHere(s, a, h.recursive);
    GapHere(s, 4, h.gap);
  }
}
