/** WITH clauses by their grammar: gaps of blanks and comments, bodies of code, literals, comments
    and nested parentheses. All of them are read rightly (pkg/query/contextual_naming.go). */
module CteTexts {
  import opened Scanner
  import opened Text
  import opened Lexical
  import opened Ctes

  // ------------------------------------------------------------- block comments

  /** What stands between the marks of a block comment. */
  datatype Inner = Over | Letter(c: char, rest: Inner) | Nest(inner: Inner, rest: Inner)

  function PrintInner(x: Inner): string {
    match x
    case Over => ""
    case Letter(c, r) => [c] + PrintInner(r)
    case Nest(n, r) => "/*" + PrintInner(n) + "*/" + PrintInner(r)
  }

  /** The first character, or that of the closing mark. */
  function FirstInner(x: Inner): char {
    match x case Over => '*' case Letter(c, _) => c case Nest(_, _) => '/'
  }

  /** No two letters look like a mark. */
  predicate InnerFits(x: Inner) {
    match x
    case Over => true
    case Letter(c, r) => !(c == '/' && FirstInner(r) == '*') && !(c == '*' && FirstInner(r) == '/') && InnerFits(r)
    case Nest(n, r) => InnerFits(n) && InnerFits(r)
  }

  /** After it a star stands. */
  predicate InnerAt(s: string, i: nat, x: Inner) {
    Holds(s, i, PrintInner(x)) && i + |PrintInner(x)| < |s| && s[i + |PrintInner(x)|] == '*'
  }

  lemma FirstInnerAt(s: string, i: nat, x: Inner)
    requires InnerAt(s, i, x)
    ensures i < |s| && s[i] == FirstInner(x)
  {
    if x != Over { HoldsAt(s, i, PrintInner(x), 0); }
  }

  lemma NestText(s: string, i: nat, n: string, r: string)
    requires Holds(s, i, "/*" + n + "*/" + r)
    ensures var k := i + 2 + |n|;
            && k + 2 <= |s| && s[i] == '/' && s[i + 1] == '*' && Holds(s, i + 2, n) && s[k] == '*' && s[k + 1] == '/' && Holds(s, k + 2, r)
  {
    HoldsSplit(s, i, "/*" + n + "*/", r);
    HoldsSplit(s, i, "/*" + n, "*/");
    HoldsSplit(s, i, "/*", n);
    HoldsAt(s, i, "/*", 0);
    HoldsAt(s, i, "/*", 1);
    HoldsAt(s, i + 2 + |n|, "*/", 0);
    HoldsAt(s, i + 2 + |n|, "*/", 1);
  }

  lemma {:induction false} InnerPassed(s: string, i: nat, x: Inner, depth: nat)
    requires InnerAt(s, i, x) && InnerFits(x) && depth >= 1
    ensures CommentEnd(s, i, depth) == CommentEnd(s, i + |PrintInner(x)|, depth)
    decreases x
  {
    hide PrintInner, InnerAt, CommentEnd, FirstInner;
    match x
    case Over => NoInner();
    case Letter(c, r) =>
      LetterPassed(s, i, c, r, depth);
      InnerPassed(s, i + 1, r, depth);
    case Nest(n, r) =>
      var k := i + 2 + |PrintInner(n)|;
      NestParts(s, i, n, r);
      MarksPassed(s, i, k, depth);
      InnerPassed(s, i + 2, n, depth + 1);
      InnerPassed(s, k + 2, r, depth);
  }

  lemma NoInner()
    ensures PrintInner(Over) == ""
  {
  }

  lemma LetterPassed(s: string, i: nat, c: char, r: Inner, depth: nat)
    requires InnerAt(s, i, Letter(c, r)) && !(c == '/' && FirstInner(r) == '*') && !(c == '*' && FirstInner(r) == '/')
    ensures InnerAt(s, i + 1, r) && CommentEnd(s, i, depth) == CommentEnd(s, i + 1, depth)
    ensures |PrintInner(Letter(c, r))| == 1 + |PrintInner(r)|
  {
    HoldsSplit(s, i, [c], PrintInner(r));
    HoldsAt(s, i, [c], 0);
    FirstInnerAt(s, i + 1, r);
  }

  lemma NestParts(s: string, i: nat, n: Inner, r: Inner)
    requires InnerAt(s, i, Nest(n, r))
    ensures var k := i + 2 + |PrintInner(n)|;
            && PairAt(s, i, '/', '*') && PairAt(s, k, '*', '/') && InnerAt(s, i + 2, n) && InnerAt(s, k + 2, r)
            && i + |PrintInner(Nest(n, r))| == k + 2 + |PrintInner(r)|
  {
    NestText(s, i, PrintInner(n), PrintInner(r));
  }

  lemma MarksPassed(s: string, i: nat, k: nat, depth: nat)
    requires PairAt(s, i, '/', '*') && PairAt(s, k, '*', '/') && depth >= 1
    ensures i + 2 <= |s| && k + 2 <= |s|
    ensures CommentEnd(s, i, depth) == CommentEnd(s, i + 2, depth + 1) && CommentEnd(s, k, depth + 1) == CommentEnd(s, k + 2, depth)
  {
  }

  // ------------------------------------------------------------- gaps

  datatype Part = Space(c: char) | Line(text: string) | Block(inner: Inner)

  predicate PartFits(p: Part) {
    match p
    case Space(c) => Blank(c)
    case Line(text) => '\n' !in text
    case Block(x) => InnerFits(x)
  }

  function PrintPart(p: Part): string {
    match p
    case Space(c) => [c]
    case Line(text) => "--" + (text + "\n")
    case Block(x) => "/*" + (PrintInner(x) + "*/")
  }

  function PrintGap(ps: seq<Part>): string {
    if ps == [] then "" else PrintPart(ps[0]) + PrintGap(ps[1..])
  }

  predicate GapFits(ps: seq<Part>) { forall k :: 0 <= k < |ps| ==> PartFits(ps[k]) }

  lemma {:induction false} LinePassed(s: string, i: nat, text: string)
    requires Holds(s, i, text + "\n") && '\n' !in text
    ensures LineEnd(s, i) == i + |text| + 1
    decreases |text|
  {
    HoldsHead(s, i, text + "\n");
    if text != "" {
      assert (text + "\n")[1..] == text[1..] + "\n";
      LinePassed(s, i + 1, text[1..]);
    }
  }

  lemma PartPassed(s: string, i: nat, p: Part)
    requires Holds(s, i, PrintPart(p)) && PartFits(p)
    ensures var e := i + |PrintPart(p)|;
            && i < e <= |s|
            && (p.Space? ==> Blank(s[i]) && e == i + 1)
            && (!p.Space? ==> !Blank(s[i]) && PairAt(s, i, '-', '-') == p.Line?)
            && (p.Line? ==> PairAt(s, i, '-', '-') && LineEnd(s, i + 2) == e)
            && (p.Block? ==> PairAt(s, i, '/', '*') && CommentEnd(s, i + 2, 1) == e)
  {
    match p
    case Space(c) => HoldsAt(s, i, [c], 0);
    case Line(text) =>
      HoldsSplit(s, i, "--", text + "\n");
      HoldsAt(s, i, "--", 0);
      HoldsAt(s, i, "--", 1);
      LinePassed(s, i + 2, text);
    case Block(x) => BlockPassed(s, i, x);
  }

  lemma BlockPassed(s: string, i: nat, x: Inner)
    requires Holds(s, i, "/*" + (PrintInner(x) + "*/")) && InnerFits(x)
    ensures PairAt(s, i, '/', '*') && CommentEnd(s, i + 2, 1) == i + |PrintInner(x)| + 4
  {
    var n := PrintInner(x);
    assert "/*" + (n + "*/") == "/*" + n + "*/" + "";
    NestText(s, i, n, "");
    var k := i + 2 + |n|;
    assert CommentEnd(s, k, 1) == k + 2;
    hide CommentEnd;
    InnerPassed(s, i + 2, x, 1);
  }

  lemma PartSkipped(s: string, i: nat, p: Part)
    requires Holds(s, i, PrintPart(p)) && PartFits(p)
    ensures var e := i + |PrintPart(p)|; i < e <= |s| && GapEnd(s, i) == GapEnd(s, e)
  {
    hide LineEnd, CommentEnd, PrintPart, PartFits, GapEnd, Holds, Blank, PairAt;
    PartPassed(s, i, p);
    GapStep(s, i);
  }

  lemma {:induction false} GapPassed(s: string, i: nat, ps: seq<Part>)
    requires Holds(s, i, PrintGap(ps)) && GapFits(ps)
    ensures i + |PrintGap(ps)| <= |s| && GapEnd(s, i) == GapEnd(s, i + |PrintGap(ps)|)
    decreases |ps|
  {
    hide PrintPart, PartFits, GapEnd, Holds;
    HoldsFits(s, i, PrintGap(ps));
    if ps != [] {
      var p, rest := PrintPart(ps[0]), PrintGap(ps[1..]);
      assert PrintGap(ps) == p + rest;
      hide PrintGap;
      HoldsSplit(s, i, p, rest);
      PartSkipped(s, i, ps[0]);
      GapPassed(s, i + |p|, ps[1..]);
    }
  }

  /** Blanks and comments are a gap. */
  lemma GapsAreGaps(ps: seq<Part>)
    requires GapFits(ps)
    ensures Gap(PrintGap(ps)) && (ps != [] ==> PrintGap(ps) != "")
  {
    var g := PrintGap(ps);
    var s := g + "A";
    assert s[0..|g|] == g && s[|g|] == 'A';
    GapPassed(s, 0, ps);
    if ps != [] { assert PrintPart(ps[0]) != ""; }
  }

  // ------------------------------------------------------------- bodies

  datatype Body =
    | Empty
    | Code(c: char, rest: Body)
    | Quoted(q: char, pieces: seq<string>, rest: Body)
    | Dollars(text: string, rest: Body)
    | Comment(part: Part, rest: Body)
    | Paren(inner: Body, rest: Body)

  /** A literal's pieces, a doubled quote between each two. */
  function PrintPieces(q: char, pieces: seq<string>): string
    requires pieces != []
  {
    if |pieces| == 1 then pieces[0] else pieces[0] + ([q, q] + PrintPieces(q, pieces[1..]))
  }

  function PrintBody(b: Body): string {
    match b
    case Empty => ""
    case Code(c, r) => [c] + PrintBody(r)
    case Quoted(q, ps, r) => [q] + ((if ps == [] then "" else PrintPieces(q, ps)) + ([q] + PrintBody(r)))
    case Dollars(t, r) => "$$" + (t + ("$$" + PrintBody(r)))
    case Comment(p, r) => PrintPart(p) + PrintBody(r)
    case Paren(n, r) => "(" + (PrintBody(n) + (")" + PrintBody(r)))
  }

  /** The first character, or the closing parenthesis. */
  function FirstOf(b: Body): char {
    var s := PrintBody(b); if s == "" then ')' else s[0]
  }

  predicate Plainly(c: char, d: char) {
    c != '\'' && c != '"' && c != '(' && c != ')' && !(c == '$' && d == '$') && !(c == '-' && d == '-') && !(c == '/' && d == '*')
  }

  predicate PiecesFit(q: char, pieces: seq<string>) {
    (q == '\'' || q == '"') && pieces != [] && forall k :: 0 <= k < |pieces| ==> q !in pieces[k]
  }

  /** No two dollar signs before the closing ones. */
  predicate DollarsFit(t: string) { forall k :: 0 <= k < |t| ==> !PairAt(t + "$", k, '$', '$') }

  predicate BodyFits(b: Body) {
    match b
    case Empty => true
    case Code(c, r) => Plainly(c, FirstOf(r)) && BodyFits(r)
    case Quoted(q, ps, r) => PiecesFit(q, ps) && FirstOf(r) != q && BodyFits(r)
    case Dollars(t, r) => DollarsFit(t) && BodyFits(r)
    case Comment(p, r) => !p.Space? && PartFits(p) && BodyFits(r)
    case Paren(n, r) => BodyFits(n) && BodyFits(r)
  }

  /** After it a closing parenthesis stands. */
  predicate BodyAt(s: string, i: nat, b: Body) {
    Holds(s, i, PrintBody(b)) && i + |PrintBody(b)| < |s| && s[i + |PrintBody(b)|] == ')'
  }

  lemma FirstAtBody(s: string, i: nat, b: Body)
    requires BodyAt(s, i, b)
    ensures i < |s| && s[i] == FirstOf(b)
  {
    if PrintBody(b) != "" { HoldsAt(s, i, PrintBody(b), 0); }
  }

  lemma {:induction false} PiecePassed(s: string, i: nat, q: char, piece: string)
    requires Holds(s, i, piece) && q !in piece
    ensures i + |piece| <= |s| && QuotedEnd(s, i, q) == QuotedEnd(s, i + |piece|, q)
    decreases |piece|
  {
    if piece != "" {
      HoldsHead(s, i, piece);
      PiecePassed(s, i + 1, q, piece[1..]);
    }
  }

  lemma {:induction false} PiecesPassed(s: string, i: nat, q: char, ps: seq<string>)
    requires PiecesFit(q, ps) && Holds(s, i, PrintPieces(q, ps))
    requires var e := i + |PrintPieces(q, ps)|; e < |s| && s[e] == q && (e + 1 < |s| ==> s[e + 1] != q)
    ensures QuotedEnd(s, i, q) == i + |PrintPieces(q, ps)| + 1
    decreases |ps|
  {
    if |ps| == 1 {
      PiecePassed(s, i, q, ps[0]);
    } else {
      FirstPiecePassed(s, i, q, ps[0], PrintPieces(q, ps[1..]));
      assert PrintPieces(q, ps) == ps[0] + ([q, q] + PrintPieces(q, ps[1..]));
      hide QuotedEnd, Holds, PrintPieces;
      PiecesPassed(s, i + |ps[0]| + 2, q, ps[1..]);
    }
  }

  lemma FirstPiecePassed(s: string, i: nat, q: char, piece: string, rest: string)
    requires Holds(s, i, piece + ([q, q] + rest)) && q !in piece
    ensures var k := i + |piece|; k + 2 <= |s| && Holds(s, k + 2, rest) && QuotedEnd(s, i, q) == QuotedEnd(s, k + 2, q)
  {
    var k := i + |piece|;
    HoldsSplit(s, i, piece, [q, q] + rest);
    HoldsSplit(s, k, [q, q], rest);
    HoldsAt(s, k, [q, q], 0);
    HoldsAt(s, k, [q, q], 1);
    hide Holds;
    PiecePassed(s, i, q, piece);
  }

  lemma {:induction false} DollarsPassed(s: string, i: nat, t: string, k: nat)
    requires k <= |t| && Holds(s, i, t) && DollarsFit(t) && PairAt(s, i + |t|, '$', '$')
    ensures DollarEnd(s, i + k) == i + |t| + 2
    decreases |t| - k
  {
    if k < |t| {
      var u := t + "$";
      HoldsAt(s, i, t, k);
      assert u[k] == t[k];
      if k + 1 < |t| { HoldsAt(s, i, t, k + 1); }
      assert s[i + k + 1] == u[k + 1];
      assert !PairAt(u, k, '$', '$');
      DollarsPassed(s, i, t, k + 1);
    }
  }

  /** A literal, a dollar body or a comment is skipped whole. */
  lemma RegionPassed(s: string, i: nat, e: nat, depth: int)
    requires i < e <= |s| && RegionStarts(s, i) && SkipNonCode(s, i) == e
    ensures CloseAt(s, i, depth) == CloseAt(s, e, depth)
  {
    hide RegionStarts, SkipNonCode;
  }

  lemma QuotedPassed(s: string, i: nat, q: char, ps: seq<string>, r: Body, depth: int)
    requires BodyAt(s, i, Quoted(q, ps, r)) && PiecesFit(q, ps) && FirstOf(r) != q
    ensures |PrintBody(Quoted(q, ps, r))| == |PrintPieces(q, ps)| + 2 + |PrintBody(r)|
    ensures var e := i + |PrintPieces(q, ps)| + 2; BodyAt(s, e, r) && CloseAt(s, i, depth) == CloseAt(s, e, depth)
  {
    hide BodyAt, CloseAt, PrintBody, PrintPieces, Holds, PiecesFit, FirstOf, QuotedEnd, SkipNonCode, RegionStarts;
    QuoteIs(q, ps);
    var k := i + 1 + |PrintPieces(q, ps)|;
    QuotedParts(s, i, q, ps, r);
    FirstAtBody(s, k + 1, r);
    PiecesPassed(s, i + 1, q, ps);
    QuoteRegion(s, i, q, k + 1);
    RegionPassed(s, i, k + 1, depth);
  }

  lemma QuoteIs(q: char, ps: seq<string>)
    requires PiecesFit(q, ps)
    ensures IsQuote(q) && ps != []
  {
  }

  lemma QuotedParts(s: string, i: nat, q: char, ps: seq<string>, r: Body)
    requires BodyAt(s, i, Quoted(q, ps, r)) && ps != []
    ensures |PrintBody(Quoted(q, ps, r))| == |PrintPieces(q, ps)| + 2 + |PrintBody(r)|
    ensures var k := i + 1 + |PrintPieces(q, ps)|;
            k < |s| && s[i] == q && Holds(s, i + 1, PrintPieces(q, ps)) && s[k] == q && BodyAt(s, k + 1, r)
  {
    hide PrintPieces;
    assert PrintBody(Quoted(q, ps, r)) == [q] + (PrintPieces(q, ps) + ([q] + PrintBody(r)));
    hide PrintBody;
    QuotedText(s, i, q, PrintPieces(q, ps), PrintBody(r));
  }

  lemma QuoteRegion(s: string, i: nat, q: char, e: nat)
    requires i < |s| && s[i] == q && IsQuote(q) && QuotedEnd(s, i + 1, q) == e
    ensures RegionStarts(s, i) && SkipNonCode(s, i) == e
  {
    hide QuotedEnd;
  }

  lemma QuotedText(s: string, i: nat, q: char, p: string, r: string)
    requires Holds(s, i, [q] + (p + ([q] + r)))
    ensures var k := i + 1 + |p|; k < |s| && s[i] == q && Holds(s, i + 1, p) && s[k] == q && Holds(s, k + 1, r)
  {
    var k := i + 1 + |p|;
    HoldsSplit(s, i, [q], p + ([q] + r));
    HoldsAt(s, i, [q], 0);
    HoldsSplit(s, i + 1, p, [q] + r);
    HoldsSplit(s, k, [q], r);
    HoldsAt(s, k, [q], 0);
  }

  lemma DollarBodyPassed(s: string, i: nat, t: string, r: Body, depth: int)
    requires BodyAt(s, i, Dollars(t, r)) && DollarsFit(t)
    ensures |PrintBody(Dollars(t, r))| == |t| + 4 + |PrintBody(r)|
    ensures var e := i + |t| + 4; BodyAt(s, e, r) && CloseAt(s, i, depth) == CloseAt(s, e, depth)
  {
    var k := i + 2 + |t|;
    DollarText(s, i, t, PrintBody(r));
    hide PrintBody, CloseAt, DollarsFit, Holds;
    DollarsPassed(s, i + 2, t, 0);
    assert SkipNonCode(s, i) == k + 2;
    RegionPassed(s, i, k + 2, depth);
  }

  lemma DollarText(s: string, i: nat, t: string, r: string)
    requires Holds(s, i, "$$" + (t + ("$$" + r)))
    ensures var k := i + 2 + |t|; PairAt(s, i, '$', '$') && Holds(s, i + 2, t) && PairAt(s, k, '$', '$') && Holds(s, k + 2, r)
  {
    var k := i + 2 + |t|;
    HoldsSplit(s, i, "$$", t + ("$$" + r));
    TwoHeld(s, i);
    HoldsSplit(s, i + 2, t, "$$" + r);
    HoldsSplit(s, k, "$$", r);
    TwoHeld(s, k);
  }

  lemma TwoHeld(s: string, i: nat)
    requires Holds(s, i, "$$")
    ensures PairAt(s, i, '$', '$')
  {
    HoldsAt(s, i, "$$", 0);
    HoldsAt(s, i, "$$", 1);
  }

  lemma CommentPassed(s: string, i: nat, p: Part, r: Body, depth: int)
    requires BodyAt(s, i, Comment(p, r)) && !p.Space? && PartFits(p)
    ensures |PrintBody(Comment(p, r))| == |PrintPart(p)| + |PrintBody(r)|
    ensures var e := i + |PrintPart(p)|; BodyAt(s, e, r) && CloseAt(s, i, depth) == CloseAt(s, e, depth)
  {
    hide BodyAt, CloseAt, PrintBody, PrintPart, PartFits, Holds, SkipNonCode, RegionStarts;
    CommentParts(s, i, p, r);
    PartRegion(s, i, p);
    RegionPassed(s, i, i + |PrintPart(p)|, depth);
  }

  lemma CommentParts(s: string, i: nat, p: Part, r: Body)
    requires BodyAt(s, i, Comment(p, r))
    ensures |PrintBody(Comment(p, r))| == |PrintPart(p)| + |PrintBody(r)|
    ensures Holds(s, i, PrintPart(p)) && BodyAt(s, i + |PrintPart(p)|, r)
  {
    hide PrintPart;
    assert PrintBody(Comment(p, r)) == PrintPart(p) + PrintBody(r);
    hide PrintBody;
    HoldsSplit(s, i, PrintPart(p), PrintBody(r));
  }

  lemma PartRegion(s: string, i: nat, p: Part)
    requires Holds(s, i, PrintPart(p)) && !p.Space? && PartFits(p)
    ensures var e := i + |PrintPart(p)|; i < e <= |s| && RegionStarts(s, i) && SkipNonCode(s, i) == e
  {
    PartPassed(s, i, p);
    hide LineEnd, CommentEnd, PrintPart, PartFits, Holds;
  }

  lemma CodePassed(s: string, i: nat, c: char, r: Body, depth: int)
    requires BodyAt(s, i, Code(c, r)) && Plainly(c, FirstOf(r))
    ensures BodyAt(s, i + 1, r) && CloseAt(s, i, depth) == CloseAt(s, i + 1, depth)
    ensures |PrintBody(Code(c, r))| == 1 + |PrintBody(r)|
  {
    HoldsSplit(s, i, [c], PrintBody(r));
    HoldsAt(s, i, [c], 0);
    hide PrintBody;
    FirstAtBody(s, i + 1, r);
  }

  lemma ParenText(s: string, i: nat, n: Body, r: Body)
    requires BodyAt(s, i, Paren(n, r))
    ensures |PrintBody(Paren(n, r))| == |PrintBody(n)| + |PrintBody(r)| + 2
    ensures var k := i + 1 + |PrintBody(n)|; i < |s| && s[i] == '(' && BodyAt(s, i + 1, n) && k < |s| && s[k] == ')' && BodyAt(s, k + 1, r)
  {
    assert PrintBody(Paren(n, r)) == "(" + (PrintBody(n) + (")" + PrintBody(r)));
    hide PrintBody, Holds;
    HoldsFits(s, i, PrintBody(Paren(n, r)));
    ParenSplit(s, i, PrintBody(n), PrintBody(r));
  }

  lemma ParenSplit(s: string, i: nat, n: string, r: string)
    requires Holds(s, i, "(" + (n + (")" + r)))
    ensures var k := i + 1 + |n|;
            i < |s| && s[i] == '(' && Holds(s, i + 1, n) && k < |s| && s[k] == ')' && Holds(s, k + 1, r)
  {
    var k := i + 1 + |n|;
    HoldsSplit(s, i, "(", n + (")" + r));
    HoldsAt(s, i, "(", 0);
    HoldsSplit(s, i + 1, n, ")" + r);
    HoldsSplit(s, k, ")", r);
    HoldsAt(s, k, ")", 0);
  }

  lemma {:induction false} BodyPassed(s: string, i: nat, b: Body, depth: int)
    requires BodyAt(s, i, b) && BodyFits(b) && depth >= 1
    ensures CloseAt(s, i, depth) == CloseAt(s, i + |PrintBody(b)|, depth)
    decreases b
  {
    hide PrintBody, BodyAt, CloseAt, FirstOf, Plainly, DollarsFit, PartFits, PrintPart, PrintPieces;
    match b
    case Empty => NothingPrinted();
    case Code(c, r) =>
      CodePassed(s, i, c, r, depth);
      BodyPassed(s, i + 1, r, depth);
    case Quoted(q, ps, r) =>
      QuotedPassed(s, i, q, ps, r, depth);
      BodyPassed(s, i + |PrintPieces(q, ps)| + 2, r, depth);
    case Dollars(t, r) =>
      DollarBodyPassed(s, i, t, r, depth);
      BodyPassed(s, i + |t| + 4, r, depth);
    case Comment(p, r) =>
      CommentPassed(s, i, p, r, depth);
      BodyPassed(s, i + |PrintPart(p)|, r, depth);
    case Paren(n, r) =>
      var k := i + 1 + |PrintBody(n)|;
      ParenText(s, i, n, r);
      ParenPassed(s, i, k, depth);
      BodyPassed(s, i + 1, n, depth + 1);
      BodyPassed(s, k + 1, r, depth);
  }

  lemma NothingPrinted()
    ensures PrintBody(Empty) == ""
  {
  }

  lemma ParenPassed(s: string, i: nat, k: nat, depth: int)
    requires i < |s| && s[i] == '(' && k < |s| && s[k] == ')' && depth >= 1
    ensures CloseAt(s, i, depth) == CloseAt(s, i + 1, depth + 1) && CloseAt(s, k, depth + 1) == CloseAt(s, k + 1, depth)
  {
  }

  /** A body of the grammar is balanced. */
  lemma BodiesAreBalanced(b: Body)
    requires BodyFits(b)
    ensures Balanced(PrintBody(b))
  {
    var x := PrintBody(b);
    var s := "(" + x + ")";
    assert s[1..1 + |x|] == x && s[0] == '(' && s[|x| + 1] == ')';
    hide PrintBody, BodyFits;
    assert BodyAt(s, 1, b);
    BodyPassed(s, 1, b, 1);
    OuterClose(s, |x| + 1);
  }

  lemma OuterClose(s: string, k: nat)
    requires 0 < k < |s| && s[0] == '(' && s[k] == ')'
    ensures CloseAt(s, 0, 0) == CloseAt(s, 1, 1) && CloseAt(s, k, 1) == k
  {
  }

  // ------------------------------------------------------------- whole clauses

  datatype Expression = Expression(before: seq<Part>, name: string, middle: seq<Part>, as_: string, open: seq<Part>,
                                   body: Body, after: seq<Part>)

  predicate ExpressionFits(e: Expression) {
    && GapFits(e.before) && IsName(e.name) && GapFits(e.middle) && e.middle != [] && Upper(e.as_) == "AS"
    && GapFits(e.open) && BodyFits(e.body) && GapFits(e.after)
  }

  function Written(e: Expression): Cte {
    Cte(PrintGap(e.before), e.name, PrintGap(e.middle), e.as_, PrintGap(e.open), PrintBody(e.body), PrintGap(e.after))
  }

  function AllWritten(es: seq<Expression>): seq<Cte> { seq(|es|, k requires 0 <= k < |es| => Written(es[k])) }

  lemma WrittenFits(e: Expression)
    requires ExpressionFits(e)
    ensures Fits(Written(e)) && (e.before != [] ==> Written(e).before != "")
  {
    hide Gap, Balanced, GapFits, BodyFits, PrintGap, PrintBody, Upper;
    GapsAreGaps(e.before);
    GapsAreGaps(e.middle);
    GapsAreGaps(e.open);
    GapsAreGaps(e.after);
    BodiesAreBalanced(e.body);
  }

  /** Every clause of the grammar is read rightly: exactly its names, and the place where the
      statement after it begins. */
  lemma GrammarRead(with_: string, gap: seq<Part>, recursive: string, es: seq<Expression>, main: string)
    requires Upper(with_) == "WITH" && (recursive != "" ==> Upper(recursive) == "RECURSIVE" && gap != [] && GapFits(gap))
    requires es != [] && (forall k :: 0 <= k < |es| ==> ExpressionFits(es[k])) && es[0].before != [] && MainFits(main)
    requires recursive == "" ==> Upper(es[0].name) != "RECURSIVE"
    ensures var cs := AllWritten(es);
            var s := PrintStatement(Head(with_, PrintGap(gap), recursive), cs, main);
            CteAliases(s) == Clause(Names(cs), |s| - |main|)
  {
    var h, cs := Head(with_, PrintGap(gap), recursive), AllWritten(es);
    hide Fits, MainFits, PrintGap, CteAliases, Names, PrintStatement, Upper, Gap, ExpressionFits, GapFits;
    if recursive != "" { GapsAreGaps(gap); }
    forall k | 0 <= k < |cs|
      ensures Fits(cs[k])
    {
      WrittenFits(es[k]);
    }
    WrittenFits(es[0]);
    AliasesExact(h, cs, main);
  }
}
