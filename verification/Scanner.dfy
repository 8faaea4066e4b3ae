/** The lexical scanner shared by the SQL translator, the CTE reader and the console's
    statement splitter: string literals, quoted identifiers, dollar-quoted bodies, line
    comments and nested block comments are regions in which nothing is code.

    Each loop of the program is a method here, proved to compute a function of the text;
    the functions are what every other module reasons about. */
module Scanner {

  predicate IsQuote(c: char) { c == '\'' || c == '"' }

  /** The characters a and b stand at position i. */
  predicate PairAt(s: string, i: nat, a: char, b: char) {
    i + 1 < |s| && s[i] == a && s[i + 1] == b
  }

  /** Just past the quote that closes a region whose inside begins at j; a doubled quote is
      an escape, and an unterminated region runs to the end of the text. */
  function QuotedEnd(s: string, j: nat, quote: char): (end: nat)
    requires j <= |s|
    ensures j <= end <= |s|
    decreases |s| - j
  {
    if j == |s| then |s|
    else if s[j] != quote then QuotedEnd(s, j + 1, quote)
    else if j + 1 < |s| && s[j + 1] == quote then QuotedEnd(s, j + 2, quote)
    else j + 1
  }

  /** Just past the first "$$" at or after j. */
  function DollarEnd(s: string, j: nat): (end: nat)
    requires j <= |s|
    ensures j <= end <= |s|
    decreases |s| - j
  {
    if j == |s| then |s|
    else if PairAt(s, j, '$', '$') then j + 2
    else DollarEnd(s, j + 1)
  }

  /** Just past the first newline at or after j. */
  function LineEnd(s: string, j: nat): (end: nat)
    requires j <= |s|
    ensures j <= end <= |s|
    decreases |s| - j
  {
    if j == |s| then |s|
    else if s[j] == '\n' then j + 1
    else LineEnd(s, j + 1)
  }

  /** Just past the marker that closes the outermost of `depth` open block comments. */
  function CommentEnd(s: string, j: nat, depth: nat): (end: nat)
    requires j <= |s|
    ensures j <= end <= |s|
    decreases |s| - j
  {
    if j == |s| then |s|
    else if PairAt(s, j, '/', '*') then CommentEnd(s, j + 2, depth + 1)
    else if PairAt(s, j, '*', '/') then
      if depth <= 1 then j + 2 else CommentEnd(s, j + 2, depth - 1)
    else CommentEnd(s, j + 1, depth)
  }

  predicate RegionStarts(s: string, i: nat)
    requires i < |s|
  {
    IsQuote(s[i]) || PairAt(s, i, '$', '$') || PairAt(s, i, '-', '-') || PairAt(s, i, '/', '*')
  }

  /** The end of the non-code region at i, or i itself when there is none. */
  function SkipNonCode(s: string, i: nat): (end: nat)
    requires i < |s|
    ensures i <= end <= |s|
    ensures end > i <==> RegionStarts(s, i)
  {
    if IsQuote(s[i]) then QuotedEnd(s, i + 1, s[i])
    else if PairAt(s, i, '$', '$') then DollarEnd(s, i + 2)
    else if PairAt(s, i, '-', '-') then LineEnd(s, i + 2)
    else if PairAt(s, i, '/', '*') then CommentEnd(s, i + 2, 1)
    else i
  }

  // ---------------------------------------------------------------- the loops

  method SkipQuoted(s: string, i: nat, quote: char) returns (end: nat)
    requires i < |s|
    ensures end == QuotedEnd(s, i + 1, quote)
  {
    var j := i + 1;
    while j < |s|
      invariant i + 1 <= j <= |s|
      invariant QuotedEnd(s, i + 1, quote) == QuotedEnd(s, j, quote)
    {
      if s[j] != quote {
        j := j + 1;
        continue;
      }
      if j + 1 < |s| && s[j + 1] == quote {
        j := j + 2;
        continue;
      }
      return j + 1;
    }
    return |s|;
  }

  /** A comment that is never closed reports failure to the Go callers and the end of the
      buffer to the console; both then skip to the end. */
  method SkipBlockComment(s: string, start: nat) returns (end: nat, closed: bool)
    requires start < |s| && PairAt(s, start, '/', '*')
    ensures end == CommentEnd(s, start + 2, 1)
    ensures !closed ==> end == |s|
  {
    var depth := 0;
    var i := start;
    while i + 1 < |s|
      invariant start <= i <= |s|
      invariant i == start ==> depth == 0
      invariant i > start ==> depth >= 1 && CommentEnd(s, start + 2, 1) == CommentEnd(s, i, depth)
    {
      if s[i] == '/' && s[i + 1] == '*' {
        depth := depth + 1;
        i := i + 2;
      } else if s[i] == '*' && s[i + 1] == '/' {
        depth := depth - 1;
        i := i + 2;
        if depth == 0 {
          return i, true;
        }
      } else {
        i := i + 1;
      }
    }
    return |s|, false;
  }

  method IndexOfPair(s: string, from: nat, c: char) returns (end: nat)
    requires from <= |s| && c == '$'
    ensures end == DollarEnd(s, from)
  {
    var i := from;
    while i < |s|
      invariant from <= i <= |s|
      invariant DollarEnd(s, from) == DollarEnd(s, i)
    {
      if i + 1 < |s| && s[i] == c && s[i + 1] == c {
        return i + 2;
      }
      i := i + 1;
    }
    return |s|;
  }

  method IndexPastNewline(s: string, from: nat) returns (end: nat)
    requires from <= |s|
    ensures end == LineEnd(s, from)
  {
    var i := from;
    while i < |s|
      invariant from <= i <= |s|
      invariant LineEnd(s, from) == LineEnd(s, i)
    {
      if s[i] == '\n' {
        return i + 1;
      }
      i := i + 1;
    }
    return |s|;
  }

  method SkipNonCodeAt(s: string, i: nat) returns (end: nat, skipped: bool)
    requires i < |s|
    ensures end == SkipNonCode(s, i)
    ensures skipped <==> RegionStarts(s, i)
  {
    if IsQuote(s[i]) {
      end := SkipQuoted(s, i, s[i]);
      return end, true;
    }
    if PairAt(s, i, '$', '$') {
      end := IndexOfPair(s, i + 2, '$');
      return end, true;
    }
    if PairAt(s, i, '-', '-') {
      end := IndexPastNewline(s, i + 2);
      return end, true;
    }
    if PairAt(s, i, '/', '*') {
      var closed;
      end, closed := SkipBlockComment(s, i);
      return end, true;
    }
    return i, false;
  }

  // -------------------------------------------------- a region is found anywhere it is put

  /** The text t holds, at position k, the n characters that s holds at position j. */
  predicate Same(s: string, j: nat, t: string, k: nat, n: nat) {
    j + n <= |s| && k + n <= |t| && s[j..j + n] == t[k..k + n]
  }

  lemma SameAt(s: string, j: nat, t: string, k: nat, n: nat, d: nat)
    requires Same(s, j, t, k, n) && d < n
    ensures s[j + d] == t[k + d]
  {
    assert s[j..j + n][d] == t[k..k + n][d];
  }

  lemma SameTail(s: string, j: nat, t: string, k: nat, n: nat, d: nat)
    requires Same(s, j, t, k, n) && d <= n
    ensures Same(s, j + d, t, k + d, n - d)
  {
    assert s[j..j + n][d..] == s[j + d..j + n];
    assert t[k..k + n][d..] == t[k + d..k + n];
  }

  /** A quoted region copied into another text ends at the same place there, unless the copy
      is followed by one more quote character (which would turn its end into an escape). */
  lemma {:induction false} QuotedSame(s: string, j: nat, t: string, k: nat, q: char)
    requires j <= |s|
    requires Same(s, j, t, k, QuotedEnd(s, j, q) - j)
    requires var m := k + QuotedEnd(s, j, q) - j;
             m == |t| || (QuotedEnd(s, j, q) < |s| && t[m] != q)
    ensures QuotedEnd(t, k, q) == k + QuotedEnd(s, j, q) - j
    decreases |s| - j
  {
    var n := QuotedEnd(s, j, q) - j;
    assert k + n <= |t|;
    hide Same;
    if j < |s| {
      SameAt(s, j, t, k, n, 0);
      if s[j] != q {
        SameTail(s, j, t, k, n, 1);
        QuotedSame(s, j + 1, t, k + 1, q);
      } else if j + 1 < |s| && s[j + 1] == q {
        SameAt(s, j, t, k, n, 1);
        SameTail(s, j, t, k, n, 2);
        QuotedSame(s, j + 2, t, k + 2, q);
      } else {
        assert n == 1;
      }
    }
  }

  lemma {:induction false} DollarSame(s: string, j: nat, t: string, k: nat)
    requires j <= |s|
    requires Same(s, j, t, k, DollarEnd(s, j) - j)
    requires DollarEnd(s, j) == |s| ==> k + DollarEnd(s, j) - j == |t|
    ensures DollarEnd(t, k) == k + DollarEnd(s, j) - j
    decreases |s| - j
  {
    var n := DollarEnd(s, j) - j;
    if j < |s| {
      SameAt(s, j, t, k, n, 0);
      if n > 1 {
        SameAt(s, j, t, k, n, 1);
      }
      if !PairAt(s, j, '$', '$') {
        SameTail(s, j, t, k, n, 1);
        DollarSame(s, j + 1, t, k + 1);
      }
    }
  }

  lemma {:induction false} LineSame(s: string, j: nat, t: string, k: nat)
    requires j <= |s|
    requires Same(s, j, t, k, LineEnd(s, j) - j)
    requires LineEnd(s, j) == |s| ==> k + LineEnd(s, j) - j == |t|
    ensures LineEnd(t, k) == k + LineEnd(s, j) - j
    decreases |s| - j
  {
    var n := LineEnd(s, j) - j;
    if j < |s| {
      SameAt(s, j, t, k, n, 0);
      if s[j] != '\n' {
        SameTail(s, j, t, k, n, 1);
        LineSame(s, j + 1, t, k + 1);
      }
    }
  }

  lemma PairSame(s: string, j: nat, t: string, k: nat, n: nat)
    requires Same(s, j, t, k, n) && n >= 1
    requires n == 1 ==> j + 1 == |s| && k + 1 == |t|
    ensures forall a, b :: PairAt(s, j, a, b) == PairAt(t, k, a, b)
  {
    SameAt(s, j, t, k, n, 0);
    if n > 1 {
      SameAt(s, j, t, k, n, 1);
    }
  }

  lemma {:induction false} CommentSame(s: string, j: nat, t: string, k: nat, depth: nat)
    requires j <= |s|
    requires Same(s, j, t, k, CommentEnd(s, j, depth) - j)
    requires CommentEnd(s, j, depth) == |s| ==> k + CommentEnd(s, j, depth) - j == |t|
    ensures CommentEnd(t, k, depth) == k + CommentEnd(s, j, depth) - j
    decreases |s| - j
  {
    hide Same;
    var n := CommentEnd(s, j, depth) - j;
    if j < |s| {
      assert n >= 1;
      PairSame(s, j, t, k, n);
      if PairAt(s, j, '/', '*') {
        SameTail(s, j, t, k, n, 2);
        CommentSame(s, j + 2, t, k + 2, depth + 1);
      } else if PairAt(s, j, '*', '/') {
        if depth > 1 {
          SameTail(s, j, t, k, n, 2);
          CommentSame(s, j + 2, t, k + 2, depth - 1);
        }
      } else {
        SameTail(s, j, t, k, n, 1);
        CommentSame(s, j + 1, t, k + 1, depth);
      }
    }
  }

  /** Scanning is local: a region that ends before the end of s is the same region wherever
      its characters are copied, and one that runs to the end of s is the same region in any
      text the copy also runs to the end of. */
  lemma RegionSame(s: string, i: nat, t: string, k: nat)
    requires i < |s| && RegionStarts(s, i)
    requires Same(s, i, t, k, SkipNonCode(s, i) - i)
    requires var m := k + SkipNonCode(s, i) - i;
             if SkipNonCode(s, i) == |s| then m == |t|
             else m < |t| && IsQuote(s[i]) ==> t[m] != s[i]
    ensures k < |t| && RegionStarts(t, k) && SkipNonCode(t, k) == k + SkipNonCode(s, i) - i
  {
    hide Same, QuotedEnd, DollarEnd, LineEnd, CommentEnd;
    var n := SkipNonCode(s, i) - i;
    SameAt(s, i, t, k, n, 0);
    if IsQuote(s[i]) {
      SameTail(s, i, t, k, n, 1);
      QuotedSame(s, i + 1, t, k + 1, s[i]);
    } else {
      PairSame(s, i, t, k, n);
      SameTail(s, i, t, k, n, 2);
      if PairAt(s, i, '$', '$') {
        DollarSame(s, i + 2, t, k + 2);
      } else if PairAt(s, i, '-', '-') {
        LineSame(s, i + 2, t, k + 2);
      } else {
        CommentSame(s, i + 2, t, k + 2, 1);
      }
    }
  }

  /** The character after a closed quoted region is not that quote. */
  lemma {:induction false} QuotedCloses(s: string, j: nat, q: char)
    requires j <= |s|
    ensures var e := QuotedEnd(s, j, q); e < |s| ==> s[e] != q
    decreases |s| - j
  {
    if j < |s| {
      if s[j] != q {
        QuotedCloses(s, j + 1, q);
      } else if j + 1 < |s| && s[j + 1] == q {
        QuotedCloses(s, j + 2, q);
      }
    }
  }
}
