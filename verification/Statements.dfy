/** The console's worksheet splitter (_web/src/statements.ts). */
module Statements {
  import opened Scanner
  import opened Text

  datatype Statement = Statement(text: string, start: nat, end: nat)

  /** A stretch of the buffer between two separating semicolons. */
  datatype Piece = Piece(from: nat, to: nat)

  // ------------------------------------------------------------- specification

  /** One step of the scan: over a whole non-code region, or one character of code. */
  function Next(s: string, i: nat): (j: nat)
    requires i < |s|
    ensures i < j <= |s|
  {
    if RegionStarts(s, i) then SkipNonCode(s, i) else i + 1
  }

  /** The scan that starts at i visits position p. */
  predicate Reaches(s: string, i: nat, p: nat)
    requires i <= |s|
    decreases |s| - i
  {
    i == p || (i < |s| && i < p && Reaches(s, Next(s, i), p))
  }

  /** A semicolon that the scan sees as code. */
  predicate Separator(s: string, p: nat) {
    p < |s| && s[p] == ';' && Reaches(s, 0, p)
  }

  function Pieces(s: string, from: nat, i: nat): (ps: seq<Piece>)
    requires from <= i <= |s|
    ensures |ps| >= 1 && ps[0].from == from && i <= ps[0].to <= |s|
    decreases |s| - i
  {
    if i == |s| then [Piece(from, |s|)]
    else if !RegionStarts(s, i) && s[i] == ';' then [Piece(from, i)] + Pieces(s, i + 1, i + 1)
    else Pieces(s, from, Next(s, i))
  }

  /** A piece trimmed to its statement; a blank piece holds none. */
  function Narrow(s: string, p: Piece): (r: seq<Statement>)
    requires p.from <= p.to <= |s|
  {
    var a := Lead(s, p.from, p.to);
    var b := Tail(s, a, p.to);
    if a == b then [] else [Statement(s[a..b], a, b)]
  }

  predicate InBuffer(s: string, ps: seq<Piece>) {
    forall k :: 0 <= k < |ps| ==> ps[k].from <= ps[k].to <= |s|
  }

  function NarrowAll(s: string, ps: seq<Piece>): seq<Statement>
    requires InBuffer(s, ps)
  {
    if ps == [] then [] else Narrow(s, ps[0]) + NarrowAll(s, ps[1..])
  }

  lemma {:induction false} PiecesInBuffer(s: string, from: nat, i: nat)
    requires from <= i <= |s|
    ensures InBuffer(s, Pieces(s, from, i))
    decreases |s| - i
  {
    if i < |s| {
      if !RegionStarts(s, i) && s[i] == ';' {
        PiecesInBuffer(s, i + 1, i + 1);
      } else {
        PiecesInBuffer(s, from, Next(s, i));
      }
    }
  }

  function Split(s: string): seq<Statement> {
    PiecesInBuffer(s, 0, 0);
    NarrowAll(s, Pieces(s, 0, 0))
  }

  // ------------------------------------------------------------- the program's loops

  /** `push`: records the trimmed piece, if anything is left of it. */
  method Push(statements: seq<Statement>, buffer: string, from: nat, to: nat) returns (r: seq<Statement>)
    requires from <= to <= |buffer|
    ensures r == statements + Narrow(buffer, Piece(from, to))
  {
    var a, b := from, to;
    while a < to && IsSpace(buffer[a])
      invariant from <= a <= to
      invariant Lead(buffer, from, to) == Lead(buffer, a, to)
    {
      a := a + 1;
    }
    while a < b && IsSpace(buffer[b - 1])
      invariant a <= b <= to
      invariant Tail(buffer, a, to) == Tail(buffer, a, b)
    {
      b := b - 1;
    }
    if a == b {
      return statements;
    }
    return statements + [Statement(buffer[a..b], a, b)];
  }

  /** These statements and the ones still to come are all there are. */
  predicate Progress(s: string, statements: seq<Statement>, from: nat, i: nat)
    requires from <= i <= |s|
  {
    InBuffer(s, Pieces(s, from, i)) && statements + NarrowAll(s, Pieces(s, from, i)) == Split(s)
  }

  lemma ProgressStarts(s: string)
    ensures Progress(s, [], 0, 0)
  {
    PiecesInBuffer(s, 0, 0);
    hide Pieces, NarrowAll;
  }

  lemma ProgressSteps(s: string, statements: seq<Statement>, from: nat, i: nat)
    requires from <= i < |s| && Progress(s, statements, from, i) && (RegionStarts(s, i) || s[i] != ';')
    ensures Progress(s, statements, from, Next(s, i))
  {
    hide RegionStarts, SkipNonCode, NarrowAll, Split;
    assert Pieces(s, from, i) == Pieces(s, from, Next(s, i));
  }

  lemma ProgressCuts(s: string, statements: seq<Statement>, from: nat, i: nat)
    requires from <= i < |s| && Progress(s, statements, from, i) && !RegionStarts(s, i) && s[i] == ';'
    ensures Progress(s, statements + Narrow(s, Piece(from, i)), i + 1, i + 1)
  {
    hide RegionStarts, SkipNonCode, Narrow, Split;
    PiecesInBuffer(s, i + 1, i + 1);
    var rest := Pieces(s, i + 1, i + 1);
    assert Pieces(s, from, i)[1..] == rest;
    assert statements + (Narrow(s, Piece(from, i)) + NarrowAll(s, rest)) == statements + Narrow(s, Piece(from, i)) + NarrowAll(s, rest);
  }

  lemma ProgressEnds(s: string, statements: seq<Statement>, from: nat)
    requires from <= |s| && Progress(s, statements, from, |s|)
    ensures statements + Narrow(s, Piece(from, |s|)) == Split(s)
  {
    hide Narrow, Split;
    var ps := Pieces(s, from, |s|);
    assert ps == [Piece(from, |s|)] && ps[1..] == [];
    assert NarrowAll(s, ps) == Narrow(s, ps[0]) + NarrowAll(s, ps[1..]);
    assert NarrowAll(s, ps[1..]) == [];
    assert Narrow(s, Piece(from, |s|)) + [] == Narrow(s, Piece(from, |s|));
  }

  method SplitStatements(buffer: string) returns (statements: seq<Statement>)
    ensures statements == Split(buffer)
  {
    hide Progress, Pieces, NarrowAll, Narrow, Split, SkipNonCode, RegionStarts;
    statements := [];
    var start, i := 0, 0;
    ProgressStarts(buffer);
    while i < |buffer|
      invariant start <= i <= |buffer| && Progress(buffer, statements, start, i)
    {
      var end, skipped := SkipNonCodeAt(buffer, i);
      if skipped {
        ProgressSteps(buffer, statements, start, i);
        i := end;
        continue;
      }
      if buffer[i] == ';' {
        ProgressCuts(buffer, statements, start, i);
        statements := Push(statements, buffer, start, i);
        i := i + 1;
        start := i;
        continue;
      }
      ProgressSteps(buffer, statements, start, i);
      i := i + 1;
    }
    ProgressEnds(buffer, statements, start);
    statements := Push(statements, buffer, start, |buffer|);
  }

  predicate Holds(st: Statement, offset: nat) { st.start <= offset <= st.end }

  /** The k-th statement is the one for the cursor: the first that holds the offset, else the
      last that ends before it, else the first of all. */
  predicate Chosen(sts: seq<Statement>, offset: nat, k: nat)
    requires k < |sts|
  {
    if Holds(sts[k], offset) then forall j :: 0 <= j < k ==> !Holds(sts[j], offset)
    else
      && (forall j :: 0 <= j < |sts| ==> !Holds(sts[j], offset))
      && (sts[k].end <= offset || k == 0)
      && (forall j :: k < j < |sts| ==> sts[j].end > offset)
  }

  method StatementAt(buffer: string, offset: nat) returns (found: seq<Statement>)
    ensures |found| <= 1 && (found == [] <==> Split(buffer) == [])
    ensures found != [] ==> exists k :: 0 <= k < |Split(buffer)|
                                      && found[0] == Split(buffer)[k] && Chosen(Split(buffer), offset, k)
  {
    var statements := SplitStatements(buffer);
    if |statements| == 0 {
      return [];
    }
    for k := 0 to |statements|
      invariant forall j :: 0 <= j < k ==> !Holds(statements[j], offset)
    {
      if Holds(statements[k], offset) {
        assert Chosen(statements, offset, k);
        return [statements[k]];
      }
    }
    var previous := -1;
    for k := 0 to |statements|
      invariant -1 <= previous < k
      invariant previous >= 0 ==> statements[previous].end <= offset
      invariant forall j :: previous < j < k ==> statements[j].end > offset
    {
      if statements[k].end <= offset {
        previous := k;
      }
    }
    var chosen := if previous >= 0 then previous else 0;
    assert Chosen(statements, offset, chosen);
    return [statements[chosen]];
  }

  // ------------------------------------------------------------- what the split promises

  predicate Ordered(s: string, lo: nat, sts: seq<Statement>) {
    && (forall k :: 0 <= k < |sts| ==>
         lo <= sts[k].start < sts[k].end <= |s| && sts[k].text == s[sts[k].start..sts[k].end])
    && (forall k :: 0 <= k < |sts| ==> Trimmed(sts[k].text))
    && (forall j, k :: 0 <= j < k < |sts| ==> sts[j].end < sts[k].start)
  }

  lemma OneSpan(s: string, p: Piece)
    requires p.from <= p.to <= |s|
    ensures |Narrow(s, p)| <= 1
    ensures forall st :: st in Narrow(s, p) ==>
              p.from <= st.start < st.end <= p.to && st.text == s[st.start..st.end] && Trimmed(st.text)
  {
    var a := Lead(s, p.from, p.to);
    var b := Tail(s, a, p.to);
    if a < b {
      assert s[a..b][0] == s[a] && s[a..b][b - a - 1] == s[b - 1];
    }
  }

  /** Spans lie in order, a separator apart, and each statement is the text of its span. */
  lemma {:induction false} SpansOrdered(s: string, from: nat, i: nat)
    requires from <= i <= |s|
    ensures InBuffer(s, Pieces(s, from, i))
    ensures Ordered(s, from, NarrowAll(s, Pieces(s, from, i)))
    decreases |s| - i
  {
    hide SkipNonCode, RegionStarts, Narrow;
    PiecesInBuffer(s, from, i);
    var ps := Pieces(s, from, i);
    if i == |s| {
      assert ps[1..] == [];
      OneSpan(s, ps[0]);
    } else if !RegionStarts(s, i) && s[i] == ';' {
      SpansOrdered(s, i + 1, i + 1);
      assert ps[1..] == Pieces(s, i + 1, i + 1);
      OneSpan(s, ps[0]);
    } else {
      SpansOrdered(s, from, Next(s, i));
    }
  }

  predicate Covered(sts: seq<Statement>, p: nat) {
    exists k :: 0 <= k < |sts| && sts[k].start <= p < sts[k].end
  }

  lemma CoveredConcat(a: seq<Statement>, b: seq<Statement>, p: nat)
    ensures Covered(a + b, p) <==> Covered(a, p) || Covered(b, p)
  {
    if Covered(a, p) {
      var k :| 0 <= k < |a| && a[k].start <= p < a[k].end;
      assert (a + b)[k] == a[k];
    }
    if Covered(b, p) {
      var k :| 0 <= k < |b| && b[k].start <= p < b[k].end;
      assert (a + b)[|a| + k] == b[k];
    }
  }

  /** Nothing is lost: a character outside every statement is a space or a separator. */
  lemma {:induction false} NothingLost(s: string, from: nat, i: nat, p: nat)
    requires from <= i <= |s| && from <= p < |s|
    requires Reaches(s, 0, i)
    ensures InBuffer(s, Pieces(s, from, i))
    ensures Covered(NarrowAll(s, Pieces(s, from, i)), p) || IsSpace(s[p]) || Separator(s, p)
    decreases |s| - i
  {
    PiecesInBuffer(s, from, i);
    var ps := Pieces(s, from, i);
    CoveredConcat(Narrow(s, ps[0]), NarrowAll(s, ps[1..]), p);
    if i < |s| { ReachesNext(s, 0, i); }
    if p < ps[0].to {
      var a := Lead(s, from, ps[0].to);
      var b := Tail(s, a, ps[0].to);
      if a <= p < b {
        assert Narrow(s, ps[0])[0] == Statement(s[a..b], a, b);
      }
    } else if i < |s| && !RegionStarts(s, i) && s[i] == ';' {
      if p > i {
        NothingLost(s, i + 1, i + 1, p);
        assert ps[1..] == Pieces(s, i + 1, i + 1);
      }
    } else if i < |s| {
      NothingLost(s, from, Next(s, i), p);
    }
  }

  lemma {:induction false} ReachesNext(s: string, i: nat, p: nat)
    requires i <= |s| && p < |s| && Reaches(s, i, p)
    ensures Reaches(s, i, Next(s, p))
    decreases |s| - i
  {
    if i < p {
      ReachesNext(s, Next(s, i), p);
    }
  }

  /** Positions strictly inside a scanned step are never scan positions. */
  lemma {:induction false} RegionsWhole(s: string, i: nat, p: nat, q: nat)
    requires i <= |s| && p < |s| && Reaches(s, i, p) && p < q < Next(s, p)
    ensures !Reaches(s, i, q)
    decreases |s| - i
  {
    if i < p {
      RegionsWhole(s, Next(s, i), p, q);
    }
  }

  predicate EndsPiece(ps: seq<Piece>, p: nat) {
    exists k :: 0 <= k < |ps| - 1 && ps[k].to == p
  }

  /** The pieces end exactly at the separators: the buffer is cut at every semicolon that is
      code and nowhere else, so never inside a literal, a comment or a dollar body. */
  lemma {:induction false} CutExactlyAtSeparators(s: string, from: nat, i: nat, p: nat)
    requires from <= i <= |s| && Reaches(s, 0, i) && i <= p
    ensures EndsPiece(Pieces(s, from, i), p) <==> p < |s| && s[p] == ';' && Reaches(s, i, p)
    decreases |s| - i
  {
    var ps := Pieces(s, from, i);
    if i < |s| {
      ReachesNext(s, 0, i);
      if !RegionStarts(s, i) && s[i] == ';' {
        var rest := Pieces(s, i + 1, i + 1);
        assert ps == [Piece(from, i)] + rest;
        if p == i {
          assert ps[0].to == p;
        } else {
          CutExactlyAtSeparators(s, i + 1, i + 1, p);
          if EndsPiece(rest, p) {
            var k :| 0 <= k < |rest| - 1 && rest[k].to == p;
            assert ps[k + 1].to == p;
          }
          if EndsPiece(ps, p) {
            var k :| 0 <= k < |ps| - 1 && ps[k].to == p;
            assert rest[k - 1].to == p;
          }
        }
      } else {
        var j := Next(s, i);
        if p < j {
          StartsBeyond(s, from, j);
        } else {
          CutExactlyAtSeparators(s, from, j, p);
        }
      }
    }
  }

  lemma {:induction false} StartsBeyond(s: string, from: nat, i: nat)
    requires from <= i <= |s|
    ensures forall k :: 0 <= k < |Pieces(s, from, i)| ==> Pieces(s, from, i)[k].to >= i
    decreases |s| - i
  {
    if i < |s| {
      if !RegionStarts(s, i) && s[i] == ';' {
        StartsBeyond(s, i + 1, i + 1);
      } else {
        StartsBeyond(s, from, Next(s, i));
      }
    }
  }

  /** The split is a decomposition: consecutive pieces are one semicolon apart, and together
      they span the buffer. */
  lemma {:induction false} PiecesTile(s: string, from: nat, i: nat)
    requires from <= i <= |s|
    ensures var ps := Pieces(s, from, i);
            && ps[|ps| - 1].to == |s|
            && forall k :: 0 <= k < |ps| - 1 ==>
                 ps[k].to < |s| && s[ps[k].to] == ';' && ps[k + 1].from == ps[k].to + 1
    decreases |s| - i
  {
    if i < |s| {
      if !RegionStarts(s, i) && s[i] == ';' {
        PiecesTile(s, i + 1, i + 1);
      } else {
        PiecesTile(s, from, Next(s, i));
      }
    }
  }

  // ------------------------------------------------------------- splitting again

  /** Cutting trailing spaces off a region that reaches past b leaves a region that runs to
      the end of what is left. t is s[a..b]. */
  lemma {:induction false} QuotedCut(s: string, j: nat, q: char, t: string, a: nat, b: nat)
    requires a <= j <= b <= |s| && t == s[a..b]
    requires b < QuotedEnd(s, j, q) && AllSpace(s, b, QuotedEnd(s, j, q)) && !IsSpace(q)
    ensures QuotedEnd(t, j - a, q) == |t|
    decreases |s| - j
  {
    if j < b {
      assert t[j - a] == s[j];
      if s[j] != q {
        QuotedCut(s, j + 1, q, t, a, b);
      } else if j + 1 < |s| && s[j + 1] == q {
        assert j + 1 < b;
        assert t[j + 1 - a] == s[j + 1];
        QuotedCut(s, j + 2, q, t, a, b);
      }
    }
  }

  lemma PairCut(s: string, j: nat, t: string, a: nat, b: nat)
    requires a <= j < b < |s| && t == s[a..b] && IsSpace(s[b])
    ensures forall x, y :: !IsSpace(y) ==> PairAt(t, j - a, x, y) == PairAt(s, j, x, y)
  {
    assert t[j - a] == s[j];
    if j + 1 < b { assert t[j + 1 - a] == s[j + 1]; }
  }

  lemma {:induction false} DollarCut(s: string, j: nat, t: string, a: nat, b: nat)
    requires a <= j <= b <= |s| && t == s[a..b]
    requires b < DollarEnd(s, j) && AllSpace(s, b, DollarEnd(s, j))
    ensures DollarEnd(t, j - a) == |t|
    decreases |s| - j
  {
    if j < b {
      PairCut(s, j, t, a, b);
      DollarCut(s, j + 1, t, a, b);
    }
  }

  lemma {:induction false} LineCut(s: string, j: nat, t: string, a: nat, b: nat)
    requires a <= j <= b <= |s| && t == s[a..b]
    requires b < LineEnd(s, j)
    ensures LineEnd(t, j - a) == |t|
    decreases |s| - j
  {
    if j < b {
      assert t[j - a] == s[j];
      LineCut(s, j + 1, t, a, b);
    }
  }

  lemma {:induction false} CommentCut(s: string, j: nat, depth: nat, t: string, a: nat, b: nat)
    requires a <= j <= b <= |s| && t == s[a..b]
    requires b < CommentEnd(s, j, depth) && AllSpace(s, b, CommentEnd(s, j, depth))
    ensures CommentEnd(t, j - a, depth) == |t|
    decreases |s| - j
  {
    if j < b {
      PairCut(s, j, t, a, b);
      if PairAt(s, j, '/', '*') {
        assert j + 1 < b;
        CommentCut(s, j + 2, depth + 1, t, a, b);
      } else if PairAt(s, j, '*', '/') {
        assert j + 1 < b;
        if depth > 1 {
          CommentCut(s, j + 2, depth - 1, t, a, b);
        }
      } else {
        CommentCut(s, j + 1, depth, t, a, b);
      }
    }
  }

  lemma RegionCut(s: string, i: nat, t: string, a: nat, b: nat)
    requires a <= i < b <= |s| && t == s[a..b] && RegionStarts(s, i)
    requires b < SkipNonCode(s, i) && AllSpace(s, b, SkipNonCode(s, i))
    ensures RegionStarts(t, i - a) && SkipNonCode(t, i - a) == |t|
  {
    assert t[i - a] == s[i];
    PairCut(s, i, t, a, b);
    if IsQuote(s[i]) {
      QuotedCut(s, i + 1, s[i], t, a, b);
    } else if PairAt(s, i, '$', '$') {
      DollarCut(s, i + 2, t, a, b);
    } else if PairAt(s, i, '-', '-') {
      LineCut(s, i + 2, t, a, b);
    } else {
      CommentCut(s, i + 2, 1, t, a, b);
    }
  }

  /** Scanning the trimmed text of a piece on its own meets no separator. */
  lemma {:induction false} ScanAlone(s: string, from: nat, i: nat, t: string, a: nat, b: nat)
    requires from <= a <= i <= b <= |s| && t == s[a..b]
    requires b <= Pieces(s, from, i)[0].to && AllSpace(s, b, Pieces(s, from, i)[0].to)
    ensures Pieces(t, 0, i - a) == [Piece(0, |t|)]
    decreases |s| - i
  {
    hide QuotedEnd, DollarEnd, LineEnd, CommentEnd;
    if i < b {
      assert t[i - a] == s[i];
      var e := Next(s, i);
      if RegionStarts(s, i) {
        if e <= b {
          SliceOfSlice(s, a, b, i, e);
          if IsQuote(s[i]) { QuotedCloses(s, i + 1, s[i]); }
          RegionSame(s, i, t, i - a);
          ScanAlone(s, from, e, t, a, b);
        } else {
          RegionCut(s, i, t, a, b);
        }
      } else {
        if i + 1 < b { assert t[i + 1 - a] == s[i + 1]; }
        assert !RegionStarts(t, i - a);
        ScanAlone(s, from, e, t, a, b);
      }
    }
  }

  /** Leading spaces are scanned one by one. */
  lemma {:induction false} ScanSpaces(s: string, from: nat, i: nat, a: nat)
    requires from <= i <= a <= |s| && AllSpace(s, i, a)
    ensures Pieces(s, from, i) == Pieces(s, from, a)
    decreases a - i
  {
    if i < a {
      assert IsSpace(s[i]);
      ScanSpaces(s, from, i + 1, a);
    }
  }

  predicate AloneAgain(st: Statement) {
    Split(st.text) == [Statement(st.text, 0, |st.text|)]
  }

  /** Splitting a statement's own text gives back exactly that statement. */
  lemma {:induction false} SplitAgain(s: string, from: nat, i: nat)
    requires from <= i <= |s|
    requires Pieces(s, from, from) == Pieces(s, from, i)
    ensures InBuffer(s, Pieces(s, from, i))
    ensures forall st :: st in NarrowAll(s, Pieces(s, from, i)) ==> AloneAgain(st)
    decreases |s| - i
  {
    PiecesInBuffer(s, from, i);
    var ps := Pieces(s, from, i);
    if i == |s| || (!RegionStarts(s, i) && s[i] == ';') {
      PieceAlone(s, from, ps[0]);
      if i == |s| {
        assert ps[1..] == [];
      } else {
        SplitAgain(s, i + 1, i + 1);
        assert ps[1..] == Pieces(s, i + 1, i + 1);
      }
    } else {
      SplitAgain(s, from, Next(s, i));
    }
  }

  lemma PieceAlone(s: string, from: nat, p: Piece)
    requires from <= |s| && p == Pieces(s, from, from)[0]
    ensures forall st :: st in Narrow(s, p) ==> AloneAgain(st)
  {
    var a := Lead(s, p.from, p.to);
    var b := Tail(s, a, p.to);
    if a < b {
      var t := s[a..b];
      ScanSpaces(s, from, from, a);
      ScanAlone(s, from, a, t, a, b);
      var ps := Pieces(t, 0, 0);
      assert ps == [Piece(0, |t|)] && ps[1..] == [];
      assert t[0] == s[a] && t[|t| - 1] == s[b - 1];
      assert Lead(t, 0, |t|) == 0 && Tail(t, 0, |t|) == |t|;
      assert t[0..|t|] == t;
      assert NarrowAll(t, ps[1..]) == [];
      assert Narrow(t, ps[0]) == [Statement(t, 0, |t|)];
      assert Split(t) == NarrowAll(t, ps);
    }
  }

  /** For every buffer: what the split returns. */
  lemma SplitSpec(s: string)
    ensures Ordered(s, 0, Split(s))
    ensures forall p :: 0 <= p < |s| ==> Covered(Split(s), p) || IsSpace(s[p]) || Separator(s, p)
    ensures forall st :: st in Split(s) ==> AloneAgain(st)
  {
    SpansOrdered(s, 0, 0);
    forall p | 0 <= p < |s|
      ensures Covered(Split(s), p) || IsSpace(s[p]) || Separator(s, p)
    {
      NothingLost(s, 0, 0, p);
    }
    SplitAgain(s, 0, 0);
  }

  /** The cursor anywhere in a statement, at its first character or just past its last, is in that
      statement and in no other; elsewhere it is in the last one that ends before it, or in the
      first of all. */
  lemma CursorStatement(s: string, offset: nat, k: nat)
    requires k < |Split(s)|
    ensures var sts := Split(s);
            Chosen(sts, offset, k) <==>
              || sts[k].start <= offset <= sts[k].end
              || ((forall j :: 0 <= j < |sts| ==> offset < sts[j].start || sts[j].end < offset)
                  && if exists j :: 0 <= j < |sts| && sts[j].end < offset
                     then sts[k].end < offset && (k + 1 < |sts| ==> offset < sts[k + 1].start) else k == 0)
  {
    SplitSpec(s);
    var sts := Split(s);
    hide Split, AloneAgain, Covered;
    assert forall i, j :: 0 <= i < j < |sts| ==> sts[i].start < sts[i].end < sts[j].start < sts[j].end;
  }
}
