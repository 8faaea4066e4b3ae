/** The two passes of the translator together, on calls that the second one does not finish
    (pkg/query/translator.go): too few arguments or a comma in a literal, a space before the
    parenthesis, and a parenthesis in a literal. */
module TranslatorRuns {
  import opened Text
  import opened Scanner
  import opened Lexical
  import opened Markers
  import opened MarkerTrees

  // ------------------------------------------------------------- the first pass

  predicate AllBlank(gap: string) { forall i :: 0 <= i < |gap| ==> Blank(gap[i]) }

  lemma {:induction false} CallAfter(s: string, j: nat, e: nat)
    requires j <= e < |s| && s[e] == '(' && forall k :: j <= k < e ==> Blank(s[k])
    ensures CallFollows(s, j)
    decreases e - j
  {
    if j < e { CallAfter(s, j + 1, e); }
  }

  lemma {:induction false} IdentTo(s: string, i: nat, j: nat)
    requires i <= j <= |s| && (forall k :: i <= k < j ==> IdentPart(s[k])) && (j < |s| ==> !IdentPart(s[j]))
    ensures IdentEnd(s, i) == j
    decreases j - i
  {
    if i < j { IdentTo(s, i + 1, j); }
  }

  /** A registered name that is called is replaced, whatever blanks stand before the parenthesis. */
  lemma NameReplaced(fm: FunctionMap, s: string, i: nat, j: nat, e: nat)
    requires i < j <= e < |s| && IsName(s[i..j]) && Upper(s[i..j]) in fm && !DotBefore(s[..i])
    requires s[e] == '(' && forall k :: j <= k < e ==> Blank(s[k])
    ensures Translate(fm, s, i) == fm[Upper(s[i..j])] + Translate(fm, s, j)
  {
    NameEnds(s, i, j, e);
    CallAfter(s, j, e);
    hide CallFollows, DotBefore, Upper, IsName, Translate, TokenEnd, KindAt;
    AtName(fm, s, i, s[i..j], j);
  }

  lemma NameEnds(s: string, i: nat, j: nat, e: nat)
    requires i < j <= e < |s| && IsName(s[i..j]) && s[e] == '(' && forall k :: j <= k < e ==> Blank(s[k])
    ensures KindAt(s, i) == Name && TokenEnd(s, i) == j
  {
    forall k | i <= k < j
      ensures IdentPart(s[k])
    {
      assert s[i..j][k - i] == s[k];
    }
    assert IdentStart(s[i]) by { assert s[i..j][0] == s[i]; }
    assert Blank(s[j]) || s[j] == '(';
    IdentTo(s, i + 1, j);
  }

  lemma AtName(fm: FunctionMap, s: string, i: nat, name: string, e: nat)
    requires i < |s| && KindAt(s, i) == Name && TokenEnd(s, i) == e && s[i..e] == name && Known(fm, name)
    requires CallFollows(s, e) && !DotBefore(s[..i])
    ensures Translate(fm, s, i) == Replacement(fm, name) + Translate(fm, s, e)
  {
    hide CallFollows, DotBefore, Upper, TokenEnd, KindAt;
  }

  /** Blanks and parentheses are copied. */
  lemma {:induction false} GapCopied(fm: FunctionMap, s: string, i: nat, e: nat)
    requires i <= e <= |s| && forall k :: i <= k < e ==> Blank(s[k]) || s[k] == '('
    ensures Translate(fm, s, i) == s[i..e] + Translate(fm, s, e)
    decreases e - i
  {
    hide Translate, Blank;
    var rest := Translate(fm, s, e);
    if i == e {
      assert s[i..e] == "" && "" + rest == rest;
    } else {
      BlankCopied(fm, s, i);
      GapCopied(fm, s, i + 1, e);
      assert s[i..e] == [s[i]] + s[i + 1..e];
      ConcatAssociates([s[i]], s[i + 1..e], rest);
    }
  }

  lemma BlankCopied(fm: FunctionMap, s: string, i: nat)
    requires i < |s| && (Blank(s[i]) || s[i] == '(')
    ensures Translate(fm, s, i) == [s[i]] + Translate(fm, s, i + 1)
  {
    assert TokenEnd(s, i) == i + 1 && !Rewrites(fm, s, i);
    hide TokenEnd, Rewrites;
    assert s[i..i + 1] == [s[i]];
  }

  /** A call as written: a name that is marked with m, blanks, and a parenthesis. */
  predicate Names(name: string, m: Marker) { IsName(name) && Known(Registered(), name) && Replacement(Registered(), name) == Word(m) }

  /** The first pass marks it whatever the blanks are, and leaves them. */
  lemma CallMarked(m: Marker, name: string, gap: string, rest: string)
    requires Names(name, m) && AllBlank(gap)
    ensures var s := name + gap + "(" + rest; var i := |name| + |gap| + 1;
            Translate(Registered(), s, 0) == Word(m) + (gap + "(" + Translate(Registered(), s, i))
  {
    hide Translate, Registered, Word, Known, Replacement, Blank, AllBlank, DotBefore, Upper, IsName, Names;
    NamedSo(m, name);
    NameNotEmpty(name);
    var s := name + gap + "(" + rest;
    var e := |name| + |gap|;
    CallHead(name, gap, rest);
    NameReplaced(Registered(), s, 0, |name|, e);
    GapCopied(Registered(), s, |name|, e + 1);
  }

  lemma NamedSo(m: Marker, name: string)
    requires Names(name, m)
    ensures IsName(name) && Upper(name) in Registered() && Registered()[Upper(name)] == Word(m)
  {
    hide Registered, Word, Upper, IsName;
  }

  lemma NameNotEmpty(name: string)
    requires IsName(name)
    ensures name != ""
  {
  }

  lemma CallHead(name: string, gap: string, rest: string)
    requires AllBlank(gap)
    ensures var s := name + gap + "(" + rest; var e := |name| + |gap|;
            && e < |s| && s[0..|name|] == name && s[|name|..e + 1] == gap + "(" && s[e] == '(' && !DotBefore(s[..0])
            && forall k :: |name| <= k < e ==> Blank(s[k])
  {
    var s := name + gap + "(" + rest;
    assert s[..0] == "";
    forall k | |name| <= k < |name| + |gap|
      ensures Blank(s[k])
    {
      assert s[k] == gap[k - |name|];
    }
  }

  // ------------------------------------------------------------- a space before the parenthesis

  lemma {:induction false} StrMiscounted(w: string, r: Frags)
    ensures Miscounted(Str(w, r)) == Miscounted(r)
  {
    if w != "" { StrMiscounted(w[1..], r); }
  }

  /** A marked call with blanks before its parenthesis. */
  function Spaced(m: Marker, gap: string, args: string): string { Word(m) + gap + ("(" + args + ")") }

  /** It is a nest in which the marker word is just text. */
  lemma SpacedNest(m: Marker, gap: string, b: Frags)
    requires AllBlank(gap) && gap != "" && Fits(b, 0)
    ensures var fs := Str(Word(m) + gap, Group(b, Nil));
            && Fits(fs, 0) && Print(fs) == Spaced(m, gap, Print(b))
            && Print(Full(fs)) == Spaced(m, gap, Print(Full(b))) && Miscounted(fs) == Miscounted(b)
  {
    var w := Word(m) + gap;
    WordPlain(m);
    hide Word, Str, Full;
    assert Plain(w) && w[|w| - 1] == gap[|gap| - 1];
    StrFits(w, Group(b, Nil), 0);
    StrFacts(w, Group(b, Nil), Marked(m));
    StrFacts(w, Group(Full(b), Nil), Marked(m));
    StrMiscounted(w, Group(b, Nil));
    GroupPrints(b);
    GroupPrints(Full(b));
  }

  lemma GroupPrints(b: Frags)
    ensures Print(Group(b, Nil)) == "(" + Print(b) + ")" && Full(Group(b, Nil)) == Group(Full(b), Nil)
  {
  }

  /** For any nest between the parentheses: the second pass leaves the marker word, and finishes
      everything inside. */
  lemma SpacedKept(m: Marker, gap: string, b: Frags)
    requires AllBlank(gap) && gap != "" && Fits(b, 0)
    ensures ExpandAll(PASSES, Spaced(m, gap, Print(b)))
         == if Miscounted(b) then Forever else Stops(Spaced(m, gap, Print(Full(b))))
  {
    hide Fits, Full, Miscounted, ExpandAll, Spaced, Print;
    SpacedNest(m, gap, b);
    ForeverIffMiscounted(Str(Word(m) + gap, Group(b, Nil)));
  }

  /** From the call as written to what the database gets: it is finished exactly when no blank
      stands before its parenthesis. Else the marker word is left, and everything between the
      parentheses is finished. */
  lemma MarkerLeftIffSpaced(m: Marker, name: string, gap: string, rest: string, a: Args)
    requires Names(name, m) && AllBlank(gap) && FitArgs(a) && ArgsFit(m, a) && Counted(m, a) && !MiscountedArg(a)
    requires Translate(Registered(), name + gap + "(" + rest, |name| + |gap| + 1) == PrintArgs(a) + ")"
    ensures ExpandAll(PASSES, Translate(Registered(), name + gap + "(" + rest, 0))
         == if gap == "" then Stops(Print(Full(Call(m, a, Nil)))) else Stops(Spaced(m, gap, Print(Full(JoinArgs(a)))))
    ensures NoCalls(Full(Call(m, a, Nil)))
  {
    hide Translate, Full, ExpandAll, JoinArgs, Names, Registered;
    CallMarked(m, name, gap, rest);
    CallNest(m, a);
    ForeverIffMiscounted(Call(m, a, Nil));
    MarkedText(m, gap, PrintArgs(a));
    if gap != "" {
      JoinFacts(a, Marked(m));
      JoinMiscounted(a);
      SpacedKept(m, gap, JoinArgs(a));
    }
  }

  lemma CallPrints(m: Marker, a: Args)
    ensures Print(Call(m, a, Nil)) == Word(m) + ("(" + PrintArgs(a) + ")")
  {
    hide Word, PrintArgs;
    assert Word(m) + "(" + PrintArgs(a) + ")" + "" == Word(m) + ("(" + PrintArgs(a) + ")");
  }

  lemma CallNest(m: Marker, a: Args)
    requires FitArgs(a) && ArgsFit(m, a) && Counted(m, a) && !MiscountedArg(a)
    ensures Fits(Call(m, a, Nil), 0) && !Miscounted(Call(m, a, Nil)) && Print(Call(m, a, Nil)) == Spaced(m, "", PrintArgs(a))
  {
    hide Word, PrintArgs, Print;
    CallPrints(m, a);
    assert Word(m) + "" == Word(m);
  }

  lemma MarkedText(m: Marker, gap: string, args: string)
    ensures Word(m) + (gap + "(" + (args + ")")) == Spaced(m, gap, args)
  {
    hide Word;
    assert Word(m) + (gap + "(" + (args + ")")) == Word(m) + gap + ("(" + args + ")");
  }

  lemma {:induction false} JoinMiscounted(a: Args)
    ensures Miscounted(JoinArgs(a)) == MiscountedArg(a)
  {
    if a.More? {
      AppendMiscounted(a.arg, Char(',', JoinArgs(a.others)));
      JoinMiscounted(a.others);
    }
  }

  lemma {:induction false} AppendMiscounted(x: Frags, y: Frags)
    ensures Miscounted(Append(x, y)) == (Miscounted(x) || Miscounted(y))
  {
    match x
    case Nil =>
    case Char(c, r) => AppendMiscounted(r, y);
    case Group(b, r) => AppendMiscounted(r, y);
    case Call(k, a, r) => AppendMiscounted(r, y);
  }

  // ------------------------------------------------------------- calls whose arguments are text

  /** Pieces of text between commas. */
  function Joined(ws: seq<string>): string
    requires ws != []
  {
    if |ws| == 1 then ws[0] else ws[0] + "," + Joined(ws[1..])
  }

  function Flat(ws: seq<string>): Args
    requires ws != []
  {
    if |ws| == 1 then One(Str(ws[0], Nil)) else More(Str(ws[0], Nil), Flat(ws[1..]))
  }

  /** No comma, no parenthesis. */
  predicate Piece(w: string) { w != "" && Plain(w) && ',' !in w && w[|w| - 1] != '_' }

  predicate AllPieces(ws: seq<string>) { ws != [] && forall k :: 0 <= k < |ws| ==> Piece(ws[k]) }

  lemma PieceFacts(w: string)
    requires Piece(w)
    ensures var x := Str(w, Nil); Fits(x, 0) && NoComma(x) && Print(x) == w && !Miscounted(x) && NoCalls(x) && x != Nil
  {
    StrFits(w, Nil, 0);
    StrNoComma(w, Nil);
    StrFacts(w, Nil, Marked(Nvl2));
    StrMiscounted(w, Nil);
    StrNoCalls(w);
    assert w + "" == w;
  }

  lemma {:induction false} StrNoCalls(w: string)
    ensures NoCalls(Str(w, Nil))
  {
    if w != "" { StrNoCalls(w[1..]); }
  }

  lemma {:induction false} FlatFacts(ws: seq<string>)
    requires AllPieces(ws)
    ensures FitArgs(Flat(ws)) && PrintArgs(Flat(ws)) == Joined(ws) && |ArgSeq(Flat(ws))| == |ws| && !MiscountedArg(Flat(ws))
    ensures NoCalls(Flat(ws).arg)
    decreases |ws|
  {
    PieceFacts(ws[0]);
    hide Str;
    if |ws| > 1 { FlatFacts(ws[1..]); }
  }

  /** A call of pieces of text runs for ever exactly when there are not three of them. A comma
      ends a piece even inside a literal. */
  lemma FlatForever(m: Marker, ws: seq<string>)
    requires NeedsThree(m) && AllPieces(ws)
    ensures ExpandAll(PASSES, Word(m) + ("(" + Joined(ws) + ")")) == Forever <==> |ws| != 3
  {
    FlatFacts(ws);
    var fs := Call(m, Flat(ws), Nil);
    FlatNest(m, ws);
    hide ExpandAll, Fits, Miscounted, Joined, Word, Print;
    ForeverIffMiscounted(fs);
  }

  lemma FlatNest(m: Marker, ws: seq<string>)
    requires NeedsThree(m) && AllPieces(ws)
    ensures var fs := Call(m, Flat(ws), Nil);
            Fits(fs, 0) && (Miscounted(fs) <==> |ws| != 3) && Print(fs) == Word(m) + ("(" + Joined(ws) + ")")
  {
    FlatFacts(ws);
    hide Flat, Joined, Word, AllPieces, FitArgs, Print, PrintArgs;
    CallPrints(m, Flat(ws));
    OneCall(m, Flat(ws));
  }

  lemma OneCall(m: Marker, a: Args)
    requires NeedsThree(m) && FitArgs(a) && NoCalls(a.arg) && !MiscountedArg(a)
    ensures Fits(Call(m, a, Nil), 0) && (Miscounted(Call(m, a, Nil)) <==> |ArgSeq(a)| != 3)
  {
    hide FitArgs, NoCalls, ArgSeq, MiscountedArg;
  }

  // ------------------------------------------------------------- a parenthesis that does not close

  /** A text in which the first call of every marker is not closed, quotes not being looked at,
      is not changed. */
  lemma {:induction false} NothingMarked(ms: seq<Marker>, s: string)
    requires forall m: Marker :: !HasCall(m, s)
    ensures ExpandAll(ms, s) == Stops(s)
  {
    if ms != [] { NothingMarked(ms[1..], s); }
  }

  function Opened(m: Marker, x: string): string { Word(m) + "(" + x }

  /** The text has no call of the marker. */
  predicate Unmarked(k: Marker, x: string) { FirstAt(x, Word(k) + "(", 0) == |x| }

  /** Of a marked call at the start of the text whose parenthesis does not close, and no call of
      another marker after it, everything is left. */
  lemma UnclosedLeft(m: Marker, x: string)
    requires CloseFrom(x, 0, 1) > |x| && forall k: Marker :: k != m ==> Unmarked(k, x)
    ensures ExpandAll(PASSES, Opened(m, x)) == Stops(Opened(m, x))
  {
    hide Word, CloseFrom, Opened, Unmarked, CallAt, ExpandAll;
    var s := Opened(m, x);
    forall k: Marker
      ensures !HasCall(k, s)
    {
      OpenedCloses(m, x);
      if CallAt(k, s) < |s| { OnlyCall(m, x, k); }
    }
    hide HasCall;
    NothingMarked(PASSES, s);
  }

  /** The first call is the one at the start. */
  lemma OnlyCall(m: Marker, x: string, k: Marker)
    requires (k == m || Unmarked(k, x)) && CallAt(k, Opened(m, x)) < |Opened(m, x)|
    ensures ArgsStart(k, Opened(m, x)) == |Word(m)| + 1
  {
    var s := Opened(m, x);
    CallHolds(k, s);
    if k == m {
      StartHolds(m, x);
    } else {
      hide Word, FirstAt, CallAt, Holds, Opened;
      NotLater(m, x, k, CallAt(k, s));
    }
  }

  lemma StartHolds(m: Marker, x: string)
    ensures CallAt(m, Opened(m, x)) == 0
  {
    hide Word;
    assert Opened(m, x)[0..|Word(m) + "("|] == Word(m) + "(";
  }

  /** A marker word and a parenthesis that end at the first parenthesis, since neither word has one
      and the rest has no such call. */
  lemma NotLater(m: Marker, x: string, k: Marker, j: nat)
    requires Unmarked(k, x) && Holds(Opened(m, x), j, Word(k) + "(")
    ensures j + |Word(k)| == |Word(m)|
  {
    var w, v, s := Word(k), Word(m), Opened(m, x);
    WordPlain(k);
    hide Word, Opened, Unmarked;
    OpenedAt(m, x);
    HoldsAt(s, j, w + "(", |w|);
    if j <= |v| < j + |w| {
      NoneInside(s, j, w, |v|);
    } else if j > |v| {
      LaterHolds(s, x, |v|, j, w + "(");
      NotHeld(k, x, j - |v| - 1);
    } else {
      BeforeIsWord(m, x, j + |w|);
    }
  }

  lemma NoneInside(s: string, j: nat, w: string, p: nat)
    requires Holds(s, j, w + "(") && Plain(w) && j <= p < j + |w|
    ensures p < |s| && s[p] != '('
  {
    HoldsAt(s, j, w + "(", p - j);
  }

  lemma LaterHolds(s: string, x: string, n: nat, j: nat, y: string)
    requires Holds(s, j, y) && j > n && |s| == n + 1 + |x| && forall k :: n < k < |s| ==> s[k] == x[k - n - 1]
    ensures Holds(x, j - n - 1, y)
  {
    assert s[j..j + |y|] == x[j - n - 1..j - n - 1 + |y|];
  }

  lemma NotHeld(k: Marker, x: string, j: nat)
    requires Unmarked(k, x)
    ensures !Holds(x, j, Word(k) + "(")
  {
    hide Word;
  }

  lemma BeforeIsWord(m: Marker, x: string, p: nat)
    requires p <= |Word(m)| && p < |Opened(m, x)| && Opened(m, x)[p] == '('
    ensures p == |Word(m)|
  {
    WordPlain(m);
    hide Word;
  }

  /** Without an underscore there is no marker. */
  lemma NoUnderscore(k: Marker, x: string)
    requires '_' !in x
    ensures Unmarked(k, x)
  {
    hide Word;
    var j := FirstAt(x, Word(k) + "(", 0);
    if j < |x| { HoldsAt(x, j, Word(k) + "(", 0); }
  }

  lemma OpenedAt(m: Marker, x: string)
    ensures var v, s := Word(m), Opened(m, x);
            && |s| == |v| + 1 + |x| && s[|v|] == '(' && (forall k :: 0 <= k < |v| ==> s[k] == v[k])
            && forall k :: |v| < k < |s| ==> s[k] == x[k - |v| - 1]
  {
    hide Word;
  }

  lemma CallHolds(m: Marker, s: string)
    requires CallAt(m, s) < |s|
    ensures Holds(s, CallAt(m, s), Word(m) + "(")
  {
    hide Word;
  }

  lemma OpenedCloses(m: Marker, x: string)
    ensures |Opened(m, x)| == |Word(m)| + 1 + |x| && CloseFrom(Opened(m, x), |Word(m)| + 1, 1) == CloseFrom(x, 0, 1) + |Word(m)| + 1
  {
    hide Word, CloseFrom;
    CloseShift(Word(m) + "(", x, 0, 1);
  }

  lemma {:induction false} CloseShift(w: string, x: string, i: nat, depth: nat)
    requires i <= |x|
    ensures CloseFrom(w + x, |w| + i, depth) == |w| + CloseFrom(x, i, depth)
    decreases |x| - i
  {
    if depth > 0 && i < |x| {
      assert (w + x)[|w| + i] == x[i];
      CloseShift(w, x, i + 1, if x[i] == '(' then depth + 1 else if x[i] == ')' then depth - 1 else depth);
    }
  }

  // ------------------------------------------------------------- four texts

  /** From i to j, single letters between spaces, commas and parentheses. */
  predicate Sparse(s: string, i: nat, j: nat) {
    j <= |s| && forall k :: i <= k < j ==>
      && s[k] in {'a', 'b', 'c', ' ', ',', '(', ')'}
      && (IdentPart(s[k]) && k + 1 < |s| ==> !IdentPart(s[k + 1]))
  }

  lemma {:induction false} SparseCopied(s: string, i: nat, j: nat)
    requires i <= j <= |s| && Sparse(s, i, j)
    ensures Translate(Registered(), s, i) == s[i..j] + Translate(Registered(), s, j)
    decreases j - i
  {
    hide Translate, Sparse, Registered;
    var rest := Translate(Registered(), s, j);
    if i == j {
      assert s[i..j] == "" && "" + rest == rest;
    } else {
      SparseStep(s, i, j);
      SparseLater(s, i, j);
      SparseCopied(s, i + 1, j);
      assert s[i..j] == s[i..i + 1] + s[i + 1..j];
      ConcatAssociates(s[i..i + 1], s[i + 1..j], rest);
    }
  }

  lemma SparseLater(s: string, i: nat, j: nat)
    requires i < j <= |s| && Sparse(s, i, j)
    ensures Sparse(s, i + 1, j)
  {
  }

  lemma SparseStep(s: string, i: nat, j: nat)
    requires i < j <= |s| && Sparse(s, i, j)
    ensures Translate(Registered(), s, i) == s[i..i + 1] + Translate(Registered(), s, i + 1)
  {
    assert !RegionStarts(s, i);
    if IdentStart(s[i]) {
      assert IdentEnd(s, i + 1) == i + 1;
      ShortUnknown(s[i..i + 1]);
    }
    hide Registered, IdentEnd, IdentStart, RegionStarts;
  }

  lemma ShortUnknown(name: string)
    requires |name| == 1
    ensures !Known(Registered(), name)
  {
    assert |Upper(name)| == 1;
  }

  lemma RegionCopied(s: string, i: nat, e: nat)
    requires i < |s| && RegionStarts(s, i) && SkipNonCode(s, i) == e
    ensures Translate(Registered(), s, i) == s[i..e] + Translate(Registered(), s, e)
  {
    hide Registered;
  }

  lemma TextEnds(s: string)
    ensures Translate(Registered(), s, |s|) == ""
  {
  }

  lemma Nvl2Named()
    ensures Names("NVL2", Nvl2)
  {
    assert Upper("NVL2") == "NVL2";
  }

  /** NVL2 with sparse arguments. */
  lemma SparseMarked(gap: string, args: string)
    requires AllBlank(gap) && Sparse(args, 0, |args|)
    ensures Translate(Registered(), "NVL2" + gap + "(" + args, 0) == "__NVL2__" + (gap + "(" + args)
  {
    var s := "NVL2" + gap + "(" + args;
    var i := 4 + |gap| + 1;
    hide Translate, Registered, Names;
    Nvl2Named();
    CallMarked(Nvl2, "NVL2", gap, args);
    assert s[i..] == args && forall k :: i <= k < |s| ==> s[k] == args[k - i];
    SparseCopied(s, i, |s|);
    TextEnds(s);
    assert args + "" == args;
  }

  /** Sparse text with a literal from j to e is copied too. */
  lemma LiteralCopied(s: string, i: nat, j: nat, e: nat)
    requires i <= j < e <= |s| && Sparse(s, i, j) && Sparse(s, e, |s|) && RegionStarts(s, j) && SkipNonCode(s, j) == e
    ensures Translate(Registered(), s, i) == s[i..]
  {
    hide Translate, Registered, Sparse, RegionStarts, SkipNonCode;
    SparseCopied(s, i, j);
    RegionCopied(s, j, e);
    SparseCopied(s, e, |s|);
    TextEnds(s);
    assert s[e..|s|] + "" == s[e..];
    assert s[j..e] + s[e..] == s[j..];
    assert s[i..j] + s[j..] == s[i..];
  }

  lemma LiteralMarked(args: string, j: nat, e: nat)
    requires j < e <= |args| && Sparse("NVL2(" + args, 5, j + 5) && Sparse("NVL2(" + args, e + 5, |args| + 5)
    requires RegionStarts("NVL2(" + args, j + 5) && SkipNonCode("NVL2(" + args, j + 5) == e + 5
    ensures Translate(Registered(), "NVL2(" + args, 0) == "__NVL2__(" + args
  {
    hide Translate, Registered, Sparse, RegionStarts, SkipNonCode, Names;
    Nvl2Named();
    assert "NVL2" + "" + "(" == "NVL2(";
    CallMarked(Nvl2, "NVL2", "", args);
    LiteralCopied("NVL2(" + args, 5, j + 5, e + 5);
    assert ("NVL2(" + args)[5..] == args;
    assert "__NVL2__" + ("" + "(" + args) == "__NVL2__(" + args;
  }

  /** NVL2 with two arguments is marked, and the second pass never ends. */
  lemma TwoArgumentsRunForever()
    ensures Translate(Registered(), "NVL2(a, b)", 0) == "__NVL2__(a, b)"
    ensures ExpandAll(PASSES, "__NVL2__(a, b)") == Forever
  {
    hide Translate, ExpandAll, Registered;
    assert "NVL2" + "" + "(" + "a, b)" == "NVL2(a, b)" && "__NVL2__" + ("" + "(" + "a, b)") == "__NVL2__(a, b)";
    SparseMarked("", "a, b)");
    var ws := ["a", " b"];
    assert ws[1..] == [" b"];
    assert Joined(ws) == "a, b";
    assert "__NVL2__" + ("(" + "a, b" + ")") == "__NVL2__(a, b)";
    FlatForever(Nvl2, ws);
  }

  /** So is NVL2 with three, one of which is a literal with a comma. */
  lemma CommaInLiteralRunsForever()
    ensures Translate(Registered(), "NVL2(a, 'a,b', c)", 0) == "__NVL2__(a, 'a,b', c)"
    ensures ExpandAll(PASSES, "__NVL2__(a, 'a,b', c)") == Forever
  {
    hide Translate, ExpandAll, Registered;
    CommaMarked();
    CommaJoined();
    FlatForever(Nvl2, ["a", " 'a", "b'", " c"]);
  }

  lemma CommaMarked()
    ensures Translate(Registered(), "NVL2(a, 'a,b', c)", 0) == "__NVL2__(a, 'a,b', c)"
  {
    hide QuotedEnd, Translate, Registered;
    CommaTexts();
    CommaQuoted("NVL2(a, 'a,b', c)");
    LiteralMarked("a, 'a,b', c)", 3, 8);
  }

  lemma CommaTexts()
    ensures "NVL2(" + "a, 'a,b', c)" == "NVL2(a, 'a,b', c)" && "__NVL2__(" + "a, 'a,b', c)" == "__NVL2__(a, 'a,b', c)"
  {
  }

  lemma CommaQuoted(s: string)
    requires s == "NVL2(a, 'a,b', c)"
    ensures QuotedEnd(s, 9, '\'') == 13
  {
    assert QuotedEnd(s, 12, '\'') == 13;
    assert QuotedEnd(s, 10, '\'') == QuotedEnd(s, 11, '\'') == QuotedEnd(s, 12, '\'');
  }

  lemma CommaJoined()
    ensures Word(Nvl2) + ("(" + Joined(["a", " 'a", "b'", " c"]) + ")") == "__NVL2__(a, 'a,b', c)"
    ensures AllPieces(["a", " 'a", "b'", " c"])
  {
    var ws := ["a", " 'a", "b'", " c"];
    assert ws[1..] == [" 'a", "b'", " c"] && ws[1..][1..] == ["b'", " c"] && ["b'", " c"][1..] == [" c"];
    assert Joined([" c"]) == " c" && Joined(["b'", " c"]) == "b', c";
    assert Joined(ws[1..]) == " 'a,b', c";
    assert Joined(ws) == "a, 'a,b', c";
    assert "__NVL2__" + ("(" + "a, 'a,b', c" + ")") == "__NVL2__(a, 'a,b', c)";
  }

  /** A marker is what the database gets for NVL2 with a space before the parenthesis. */
  lemma SpaceLeavesMarker()
    ensures Translate(Registered(), "NVL2 (a, b, c)", 0) == "__NVL2__ (a, b, c)"
    ensures ExpandAll(PASSES, "__NVL2__ (a, b, c)") == Stops("__NVL2__ (a, b, c)")
  {
    hide Translate, ExpandAll, Registered;
    SpaceMarked();
    var b := Str("a, b, c", Nil);
    TextKept("a, b, c");
    assert Spaced(Nvl2, " ", "a, b, c") == "__NVL2__ (a, b, c)";
    SpacedKept(Nvl2, " ", b);
  }

  lemma SpaceMarked()
    ensures Translate(Registered(), "NVL2 (a, b, c)", 0) == "__NVL2__ (a, b, c)"
  {
    assert "NVL2" + " " + "(" + "a, b, c)" == "NVL2 (a, b, c)" && "__NVL2__" + (" " + "(" + "a, b, c)") == "__NVL2__ (a, b, c)";
    hide Translate, Registered;
    SparseMarked(" ", "a, b, c)");
  }

  lemma TextKept(w: string)
    requires w != "" && Plain(w) && w[|w| - 1] != '_'
    ensures var b := Str(w, Nil); Fits(b, 0) && Print(b) == w && Full(b) == b && !Miscounted(b)
  {
    StrFits(w, Nil, 0);
    StrFacts(w, Nil, Marked(Nvl2));
    StrMiscounted(w, Nil);
    assert w + "" == w;
  }

  /** And for NVL2 with an opening parenthesis in a literal. */
  lemma ParenthesisLeavesMarker()
    ensures Translate(Registered(), "NVL2(a, '(', c)", 0) == "__NVL2__(a, '(', c)"
    ensures ExpandAll(PASSES, "__NVL2__(a, '(', c)") == Stops("__NVL2__(a, '(', c)")
  {
    hide ExpandAll;
    ParenthesisMarked();
    ParenthesisOpen();
    hide Translate, Registered, CloseFrom;
    assert Opened(Nvl2, "a, '(', c)") == "__NVL2__(a, '(', c)";
    forall k: Marker
      ensures Unmarked(k, "a, '(', c)")
    {
      hide Unmarked;
      NoUnderscore(k, "a, '(', c)");
    }
    hide Unmarked;
    UnclosedLeft(Nvl2, "a, '(', c)");
  }

  lemma ParenthesisMarked()
    ensures Translate(Registered(), "NVL2(a, '(', c)", 0) == "__NVL2__(a, '(', c)"
  {
    var s := "NVL2(a, '(', c)";
    assert "NVL2(" + "a, '(', c)" == s && "__NVL2__(" + "a, '(', c)" == "__NVL2__(a, '(', c)";
    assert QuotedEnd(s, 9, '\'') == 11;
    hide QuotedEnd, Translate, Registered;
    LiteralMarked("a, '(', c)", 3, 6);
  }

  lemma ParenthesisOpen()
    ensures CloseFrom("a, '(', c)", 0, 1) == 11
  {
    assert CloseFrom("a, '(', c)", 5, 2) == 11;
  }

  // ------------------------------------------------------------- what is reported is what is done

  /** The function that a marker stands for. */
  function MarkedName(m: Marker): string {
    match m
    case CurrentTimestamp => "CURRENT_TIMESTAMP"
    case CurrentDate => "CURRENT_DATE"
    case ToVariant => "TO_VARIANT"
    case ParseJson => "PARSE_JSON"
    case Nvl2 => "NVL2"
    case DateAdd => "DATEADD"
    case DateDiff => "DATEDIFF"
  }

  /** Every function that is expanded is marked by its own marker. */
  lemma MarkedByName(m: Marker)
    ensures MarkedName(m) in Registered() && Registered()[MarkedName(m)] == Word(m)
  {
  }

  /** The report describes NVL2 and the casts by what their calls expand to. */
  lemma ReportedExpansion()
    ensures Describe(Word(Nvl2)) == Transform(Nvl2, "a, b, c")
    ensures Describe(Word(ToVariant)) == Transform(ToVariant, "...") && Describe(Word(ParseJson)) == Transform(ParseJson, "...")
  {
    NvlExpands();
    CastExpands(ToVariant);
    CastExpands(ParseJson);
    hide Transform;
  }

  lemma CastExpands(m: Marker)
    requires m == ToVariant || m == ParseJson
    ensures Transform(m, "...") == "CAST(... AS JSON)"
  {
    hide SplitArgs, Trim;
    assert "CAST(" + "..." + " AS JSON)" == "CAST(... AS JSON)";
  }

  lemma NvlExpands()
    ensures Transform(Nvl2, "a, b, c") == "IF(a IS NOT NULL, b, c)"
  {
    ThreeLetters("a, b, c");
    TrimLetters();
    NvlText();
    hide SplitArgs, Trim;
  }

  lemma NvlText()
    ensures "IF(" + "a" + " IS NOT NULL, " + "b" + ", " + "c" + ")" == "IF(a IS NOT NULL, b, c)"
  {
  }

  lemma ThreeLetters(x: string)
    requires x == "a, b, c"
    ensures SplitArgs(x, 0, 0, 0) == ["a", " b", " c"]
  {
    assert x[0..1] == "a" && x[2..4] == " b" && x[5..] == " c";
    assert SplitArgs(x, 5, 7, 0) == [x[5..]];
    assert SplitArgs(x, 5, 5, 0) == SplitArgs(x, 5, 6, 0) == SplitArgs(x, 5, 7, 0);
    assert SplitArgs(x, 2, 2, 0) == SplitArgs(x, 2, 3, 0) == SplitArgs(x, 2, 4, 0) == [x[2..4]] + SplitArgs(x, 5, 5, 0);
    assert SplitArgs(x, 0, 0, 0) == SplitArgs(x, 0, 1, 0) == [x[0..1]] + SplitArgs(x, 2, 2, 0);
  }

  lemma TrimLetters()
    ensures Trim("a") == "a" && Trim(" b") == "b" && Trim(" c") == "c"
  {
    TrimPadded("", "a", "");
    TrimPadded(" ", "b", "");
    TrimPadded(" ", "c", "");
    assert "" + "a" + "" == "a" && " " + "b" + "" == " b" && " " + "c" + "" == " c";
  }
}
