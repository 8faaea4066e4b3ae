/** Texts that differ only in the case of letters, and the scans that cannot tell them apart. */
module Cases {
  import opened Lexical
  import opened Scanner
  import opened Text

  /** The same text up to the case of letters. */
  predicate Alike(s: string, u: string) { |u| == |s| && forall k :: 0 <= k < |s| ==> Up(u[k]) == Up(s[k]) }

  lemma AlikeIffUpper(s: string, u: string)
    ensures Alike(s, u) <==> Upper(s) == Upper(u)
  {
    if Upper(s) == Upper(u) {
      assert |Upper(s)| == |Upper(u)|;
      forall k | 0 <= k < |s|
        ensures Up(u[k]) == Up(s[k])
      {
        assert Upper(s)[k] == Upper(u)[k];
      }
    }
  }

  /** Case is all in which two such characters may differ. */
  lemma CharAlike(c: char, d: char)
    requires Up(c) == Up(d)
    ensures Letter(c) == Letter(d) && (!Letter(c) ==> c == d)
    ensures IsSpace(c) == IsSpace(d) && IsQuote(c) == IsQuote(d)
  {
  }

  lemma SliceAlike(s: string, u: string, a: nat, b: nat)
    requires Alike(s, u) && a <= b <= |s|
    ensures Alike(s[a..b], u[a..b]) && Upper(s[a..b]) == Upper(u[a..b])
  {
  }

  lemma SignAlike(s: string, u: string, i: nat, c: char)
    requires Alike(s, u) && i < |s| && !Letter(c)
    ensures |u| == |s| && (u[i] == c <==> s[i] == c)
  {
    CharAlike(s[i], u[i]);
  }

  lemma SameLength(s: string, u: string)
    requires Alike(s, u)
    ensures |u| == |s|
  {
  }

  /** No letter is part of a mark that the scanner looks for. */
  lemma MarksAlike(s: string, u: string, i: nat, a: char, b: char)
    requires Alike(s, u) && !Letter(a) && !Letter(b)
    ensures PairAt(u, i, a, b) == PairAt(s, i, a, b)
  {
    if i < |s| { CharAlike(s[i], u[i]); }
    if i + 1 < |s| { CharAlike(s[i + 1], u[i + 1]); }
  }

  lemma {:induction false} QuotedAlike(s: string, u: string, j: nat, quote: char)
    requires Alike(s, u) && j <= |s| && IsQuote(quote)
    ensures QuotedEnd(u, j, quote) == QuotedEnd(s, j, quote)
    decreases |s| - j
  {
    if j < |s| {
      CharAlike(s[j], u[j]);
      if s[j] != quote {
        QuotedAlike(s, u, j + 1, quote);
      } else if j + 1 < |s| {
        CharAlike(s[j + 1], u[j + 1]);
        if s[j + 1] == quote { QuotedAlike(s, u, j + 2, quote); }
      }
    }
  }

  lemma {:induction false} DollarAlike(s: string, u: string, j: nat)
    requires Alike(s, u) && j <= |s|
    ensures DollarEnd(u, j) == DollarEnd(s, j)
    decreases |s| - j
  {
    MarksAlike(s, u, j, '$', '$');
    if j < |s| && !PairAt(s, j, '$', '$') { DollarAlike(s, u, j + 1); }
  }

  lemma {:induction false} LineAlike(s: string, u: string, j: nat)
    requires Alike(s, u) && j <= |s|
    ensures LineEnd(u, j) == LineEnd(s, j)
    decreases |s| - j
  {
    if j < |s| {
      CharAlike(s[j], u[j]);
      if s[j] != '\n' { LineAlike(s, u, j + 1); }
    }
  }

  lemma {:induction false} CommentAlike(s: string, u: string, j: nat, depth: nat)
    requires Alike(s, u) && j <= |s|
    ensures CommentEnd(u, j, depth) == CommentEnd(s, j, depth)
    decreases |s| - j
  {
    if j < |s| {
      MarksAlike(s, u, j, '/', '*');
      MarksAlike(s, u, j, '*', '/');
      hide Alike;
      if PairAt(s, j, '/', '*') {
        CommentAlike(s, u, j + 2, depth + 1);
      } else if PairAt(s, j, '*', '/') {
        if depth > 1 { CommentAlike(s, u, j + 2, depth - 1); }
      } else {
        CommentAlike(s, u, j + 1, depth);
      }
      SameLength(s, u);
    }
  }

  lemma PairFits(s: string, i: nat)
    ensures forall a, b :: PairAt(s, i, a, b) ==> i + 2 <= |s|
  {
  }

  /** Regions in which nothing is code are at the same places. */
  lemma RegionAlike(s: string, u: string, i: nat)
    requires Alike(s, u) && i < |s|
    ensures RegionStarts(u, i) == RegionStarts(s, i) && SkipNonCode(u, i) == SkipNonCode(s, i)
  {
    MarksAlike(s, u, i, '$', '$');
    MarksAlike(s, u, i, '-', '-');
    MarksAlike(s, u, i, '/', '*');
    CharAlike(s[i], u[i]);
    assert IsQuote(s[i]) ==> u[i] == s[i];
    hide QuotedEnd, DollarEnd, LineEnd, CommentEnd;
    PairFits(s, i);
    hide PairAt;
    if IsQuote(s[i]) {
      QuotedAlike(s, u, i + 1, s[i]);
    } else if PairAt(s, i, '$', '$') {
      DollarAlike(s, u, i + 2);
    } else if PairAt(s, i, '-', '-') {
      LineAlike(s, u, i + 2);
    } else if PairAt(s, i, '/', '*') {
      CommentAlike(s, u, i + 2, 1);
    }
  }

  /** Spaces at both ends are the same. */
  lemma {:induction false} LeadAlike(s: string, u: string, lo: nat, hi: nat)
    requires Alike(s, u) && lo <= hi <= |s|
    ensures Lead(u, lo, hi) == Lead(s, lo, hi)
    decreases hi - lo
  {
    if lo < hi {
      CharAlike(s[lo], u[lo]);
      if IsSpace(s[lo]) { LeadAlike(s, u, lo + 1, hi); }
    }
  }

  lemma {:induction false} TailAlike(s: string, u: string, lo: nat, hi: nat)
    requires Alike(s, u) && lo <= hi <= |s|
    ensures Tail(u, lo, hi) == Tail(s, lo, hi)
    decreases hi - lo
  {
    if lo < hi {
      CharAlike(s[hi - 1], u[hi - 1]);
      if IsSpace(s[hi - 1]) { TailAlike(s, u, lo, hi - 1); }
    }
  }

  /** What trimming leaves lies at the same place. */
  lemma TrimAlike(s: string, u: string)
    requires Alike(s, u)
    ensures var a := Lead(s, 0, |s|); var b := Tail(s, a, |s|);
            |u| == |s| && Trim(s) == s[a..b] && Trim(u) == u[a..b]
  {
    LeadAlike(s, u, 0, |s|);
    TailAlike(s, u, Lead(s, 0, |s|), |s|);
  }

  lemma NameChars(c: char, d: char)
    requires Up(c) == Up(d)
    ensures Blank(c) == Blank(d) && IdentStart(c) == IdentStart(d) && IdentPart(c) == IdentPart(d)
  {
  }

  lemma {:induction false} IdentAlike(s: string, u: string, i: nat)
    requires Alike(s, u) && i <= |s|
    ensures IdentEnd(u, i) == IdentEnd(s, i)
    decreases |s| - i
  {
    if i < |s| {
      NameChars(s[i], u[i]);
      if IdentPart(s[i]) { IdentAlike(s, u, i + 1); }
    }
  }
}
