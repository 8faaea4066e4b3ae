/** What the statement classifier looks at: the text after leading spaces and comments
    (pkg/query/classifier.go). */
module Classifiers {
  import opened Scanner
  import opened Text

  /** Trims, and takes leading comments off, until neither changes anything. */
  function Leading(s: string): (r: string)
    decreases |s|
  {
    var t := Trim(s);
    if PairAt(t, 0, '-', '-') then Leading(t[LineEnd(t, 2)..])
    else if PairAt(t, 0, '/', '*') then Leading(t[CommentEnd(t, 2, 1)..])
    else t
  }

  method TrimLeadingComments(sql: string) returns (r: string)
    ensures r == Leading(sql)
  {
    hide LineEnd, CommentEnd;
    var s := sql;
    while true
      invariant Leading(s) == Leading(sql)
      decreases |s|
    {
      var t := Trim(s);
      NothingLeads();
      assert |t| <= |s| && t[|t|..] == "";
      hide Trim;
      if PairAt(t, 0, '-', '-') {
        var end := IndexPastNewline(t, 2);
        if end == |t| { return ""; }
        s := t[end..];
      } else if PairAt(t, 0, '/', '*') {
        var end, closed := SkipBlockComment(t, 0);
        if !closed { return ""; }
        s := t[end..];
      } else {
        return t;
      }
    }
  }

  lemma NothingLeads()
    ensures Leading("") == ""
  {
  }

  /** The first character that is code. */
  function CodeStart(s: string, i: nat): (j: nat)
    requires i <= |s|
    ensures i <= j <= |s|
    decreases |s| - i
  {
    if i == |s| then i
    else if IsSpace(s[i]) then CodeStart(s, i + 1)
    else if PairAt(s, i, '-', '-') then CodeStart(s, LineEnd(s, i + 2))
    else if PairAt(s, i, '/', '*') then CodeStart(s, CommentEnd(s, i + 2, 1))
    else i
  }

  /** Although every round also trims the end of the text, and so may cut into a comment that
      runs up to it, what is left is the text from its first character of code, trimmed. */
  lemma LeadingIsCode(s: string)
    ensures Leading(s) == Trim(s[CodeStart(s, 0)..])
  {
    assert s[0..|s|] == s;
    LeadingFrom(s, 0, |s|);
  }

  /** The same for a part of the text that only spaces follow. */
  lemma {:induction false} LeadingFrom(s: string, a: nat, b: nat)
    requires a <= b <= |s| && AllSpace(s, b, |s|)
    ensures Leading(s[a..b]) == Trim(s[CodeStart(s, a)..])
    decreases b - a, 1
  {
    var i := Lead(s, a, b);
    var e := Tail(s, i, b);
    TrimPart(s, a, b, i, e);
    SpacesSkipped(s, a, i);
    assert AllSpace(s, e, |s|);
    hide Trim, Lead, Tail, Leading, CodeStart;
    if i == e {
      SpacesSkipped(s, i, |s|);
      EmptyParts(s, s[a..b], s[i..e]);
    } else {
      TrimPart(s, i, e, i, e);
      SameTrim(s[a..b], s[i..e]);
      CodePart(s, i, e);
    }
  }

  /** And for a part that begins and ends with no space. */
  lemma {:induction false} CodePart(s: string, i: nat, e: nat)
    requires i < e <= |s| && AllSpace(s, e, |s|) && !IsSpace(s[i]) && !IsSpace(s[e - 1]) && Trim(s[i..e]) == s[i..e]
    ensures Leading(s[i..e]) == Trim(s[CodeStart(s, i)..])
    decreases e - i, 0
  {
    var t := s[i..e];
    OpensAlike(s, i, e);
    NothingBefore(s, i);
    hide Trim, Leading, CodeStart, LineEnd, CommentEnd, AllSpace, PairAt;
    LeadingStep(t, t);
    CodeStep(s, i);
    if PairAt(t, 0, '-', '-') {
      LineInPart(s, i, e, 2);
      RestAlike(s, i, e, LineEnd(t, 2), LineEnd(s, i + 2));
    } else if PairAt(t, 0, '/', '*') {
      CommentInPart(s, i, e, 2, 1);
      RestAlike(s, i, e, CommentEnd(t, 2, 1), CommentEnd(s, i + 2, 1));
    } else {
      TrimPart(s, i, |s|, i, e);
      assert s[i..|s|] == s[i..];
    }
  }

  lemma SameTrim(x: string, t: string)
    requires Trim(x) == t && Trim(t) == t
    ensures Leading(x) == Leading(t)
  {
    hide Trim;
  }

  lemma LeadingStep(x: string, t: string)
    requires t == Trim(x)
    ensures PairAt(t, 0, '-', '-') ==> 2 <= |t| && Leading(x) == Leading(t[LineEnd(t, 2)..])
    ensures !PairAt(t, 0, '-', '-') && PairAt(t, 0, '/', '*') ==> 2 <= |t| && Leading(x) == Leading(t[CommentEnd(t, 2, 1)..])
    ensures !PairAt(t, 0, '-', '-') && !PairAt(t, 0, '/', '*') ==> Leading(x) == t
  {
    hide LineEnd, CommentEnd, Trim;
  }

  lemma CodeStep(s: string, i: nat)
    requires i < |s| && !IsSpace(s[i])
    ensures PairAt(s, i, '-', '-') ==> i + 2 <= |s| && CodeStart(s, i) == CodeStart(s, LineEnd(s, i + 2))
    ensures !PairAt(s, i, '-', '-') && PairAt(s, i, '/', '*') ==> i + 2 <= |s| && CodeStart(s, i) == CodeStart(s, CommentEnd(s, i + 2, 1))
    ensures !PairAt(s, i, '-', '-') && !PairAt(s, i, '/', '*') ==> CodeStart(s, i) == i
  {
    hide LineEnd, CommentEnd;
  }

  /** The end of the text is reached. */
  lemma EmptyParts(s: string, x: string, t: string)
    requires t == "" && Trim(x) == t
    ensures Leading(x) == Trim(s[CodeStart(s, |s|)..]) == ""
  {
    assert s[|s|..] == "";
  }

  lemma NothingBefore(s: string, i: nat)
    requires i <= |s|
    ensures AllSpace(s, i, i)
  {
  }

  /** After a comment that ends inside the part, or after one that runs beyond it. */
  lemma {:induction false} RestAlike(s: string, i: nat, e: nat, k: nat, f: nat)
    requires i < i + k <= e <= |s| && AllSpace(s, e, |s|) && f <= |s|
    requires if k < e - i then f == i + k else f >= e
    ensures Leading(s[i..e][k..]) == Trim(s[CodeStart(s, f)..])
    decreases e - i - k, 2
  {
    if k < e - i {
      assert s[i..e][k..] == s[f..e];
      LeadingFrom(s, f, e);
    } else {
      SpacesSkipped(s, f, |s|);
      assert s[i..e][k..] == "" && s[|s|..] == "";
      NothingLeads();
    }
  }

  /** Spaces before i and after e are trimmed off. */
  lemma TrimPart(s: string, a: nat, b: nat, i: nat, e: nat)
    requires a <= i <= e <= b <= |s| && AllSpace(s, a, i) && AllSpace(s, e, b) && (i < e ==> !IsSpace(s[i]) && !IsSpace(s[e - 1]))
    ensures Trim(s[a..b]) == s[i..e]
  {
    assert s[a..b] == s[a..i] + s[i..e] + s[e..b];
    hide Trim;
    TrimPadded(s[a..i], s[i..e], s[e..b]);
  }

  lemma {:induction false} SpacesSkipped(s: string, a: nat, i: nat)
    requires a <= i <= |s| && AllSpace(s, a, i)
    ensures CodeStart(s, a) == CodeStart(s, i)
    decreases i - a
  {
    if a < i { SpacesSkipped(s, a + 1, i); }
  }

  lemma OpensAlike(s: string, i: nat, e: nat)
    requires i < e <= |s| && AllSpace(s, e, |s|) && !IsSpace(s[i])
    ensures PairAt(s[i..e], 0, '-', '-') == PairAt(s, i, '-', '-') && PairAt(s[i..e], 0, '/', '*') == PairAt(s, i, '/', '*')
  {
  }

  lemma {:induction false} LineInPart(s: string, i: nat, e: nat, k: nat)
    requires i + k <= e <= |s|
    ensures var n, f := LineEnd(s[i..e], k), LineEnd(s, i + k); if n < e - i then f == i + n else f >= e
    decreases e - i - k
  {
    if i + k < e && s[i + k] != '\n' { LineInPart(s, i, e, k + 1); }
  }

  /** Spaces after the part open and close no comment. */
  lemma {:induction false} CommentInPart(s: string, i: nat, e: nat, k: nat, depth: nat)
    requires i + k <= e <= |s| && AllSpace(s, e, |s|)
    ensures var n, f := CommentEnd(s[i..e], k, depth), CommentEnd(s, i + k, depth); if n < e - i then f == i + n else f >= e
    decreases e - i - k
  {
    if i + k < e {
      var t := s[i..e];
      assert t[k] == s[i + k] && (i + k + 1 < e ==> t[k + 1] == s[i + k + 1]);
      if PairAt(t, k, '/', '*') {
        CommentInPart(s, i, e, k + 2, depth + 1);
      } else if PairAt(t, k, '*', '/') {
        if depth > 1 { CommentInPart(s, i, e, k + 2, depth - 1); }
      } else {
        CommentInPart(s, i, e, k + 1, depth);
      }
    }
  }
}
