/** Character classes and trimming shared by the modules that read text. Text is ASCII. */
module Text {

  predicate IsSpace(c: char) { c == ' ' || '\t' <= c <= '\r' }

  predicate Letter(c: char) { 'a' <= c <= 'z' || 'A' <= c <= 'Z' }

  /** An ASCII letter in upper case, anything else as it is. */
  function Up(c: char): char {
    if 'a' <= c <= 'z' then (c as int - 32) as char else c
  }

  function Upper(s: string): (u: string)
    ensures |u| == |s|
    ensures forall i :: 0 <= i < |s| ==> u[i] == Up(s[i])
  {
    seq(|s|, i requires 0 <= i < |s| => Up(s[i]))
  }

  predicate AllSpace(s: string, lo: nat, hi: nat)
    requires lo <= hi <= |s|
  {
    forall k :: lo <= k < hi ==> IsSpace(s[k])
  }

  /** The first character in [lo, hi) that is not a space, or `hi`. */
  function Lead(s: string, lo: nat, hi: nat): (i: nat)
    requires lo <= hi <= |s|
    ensures lo <= i <= hi && AllSpace(s, lo, i)
    ensures i < hi ==> !IsSpace(s[i])
    decreases |s| - lo
  {
    if lo < hi && IsSpace(s[lo]) then Lead(s, lo + 1, hi) else lo
  }

  /** Just past the last character in [lo, hi) that is not a space, or `lo`. */
  function Tail(s: string, lo: nat, hi: nat): (i: nat)
    requires lo <= hi <= |s|
    ensures lo <= i <= hi && AllSpace(s, i, hi)
    ensures lo < i ==> !IsSpace(s[i - 1])
    decreases hi
  {
    if lo < hi && IsSpace(s[hi - 1]) then Tail(s, lo, hi - 1) else hi
  }

  function Trim(s: string): (t: string)
    ensures Trimmed(t)
  {
    var a := Lead(s, 0, |s|);
    s[a..Tail(s, a, |s|)]
  }

  /** No space at either end. */
  predicate Trimmed(s: string) {
    s == "" || (!IsSpace(s[0]) && !IsSpace(s[|s| - 1]))
  }

  /** Trimming takes off exactly the spaces around a trimmed text. */
  lemma TrimPadded(before: string, t: string, after: string)
    requires Trimmed(t) && AllSpace(before, 0, |before|) && AllSpace(after, 0, |after|)
    ensures Trim(before + t + after) == t
  {
    var s := before + t + after;
    var a := Lead(s, 0, |s|);
    var b := Tail(s, a, |s|);
    assert forall k :: 0 <= k < |before| ==> s[k] == before[k];
    assert forall k :: 0 <= k < |t| ==> s[|before| + k] == t[k];
    assert forall k :: 0 <= k < |after| ==> s[|before| + |t| + k] == after[k];
    if t == "" {
      assert forall k :: 0 <= k < |s| ==> IsSpace(s[k]);
    } else {
      assert !IsSpace(s[|before|]);
      assert s[|before| + |t| - 1] == t[|t| - 1];
      assert a == |before|;
      assert b == |before| + |t|;
    }
  }

  const BLANKS: string := " \t\n\U{000B}\U{000C}\r"

  /** Trimming takes off all blanks at both ends, and nothing else. */
  lemma TrimBlanks(before: string, t: string, after: string)
    requires (forall c :: c in before || c in after ==> c in BLANKS)
    requires t != "" && t[0] !in BLANKS && t[|t| - 1] !in BLANKS
    ensures Trim(before + t + after) == t
  {
    BlanksAreSpaces();
    forall k | 0 <= k < |before|
      ensures IsSpace(before[k])
    {
      assert before[k] in before;
    }
    forall k | 0 <= k < |after|
      ensures IsSpace(after[k])
    {
      assert after[k] in after;
    }
    TrimPadded(before, t, after);
  }

  lemma BlanksAreSpaces()
    ensures forall c :: c in BLANKS <==> IsSpace(c)
  {
    assert BLANKS == [' ', '\t', '\n', '\U{000B}', '\U{000C}', '\r'];
  }

  lemma ConcatAssociates(a: string, b: string, c: string)
    ensures a + (b + c) == (a + b) + c
  {
    var l, r := a + (b + c), (a + b) + c;
    assert |l| == |r|;
    assert forall i :: 0 <= i < |l| ==> l[i] == r[i];
  }

  /** Text s reads x at position a. */
  predicate Holds(s: string, a: nat, x: string) {
    a + |x| <= |s| && s[a..a + |x|] == x
  }

  lemma HoldsSplit(s: string, a: nat, x: string, y: string)
    requires Holds(s, a, x + y)
    ensures Holds(s, a, x) && Holds(s, a + |x|, y)
  {
    var n := |x + y|;
    assert s[a..a + n][..|x|] == s[a..a + |x|];
    assert s[a..a + n][|x|..] == s[a + |x|..a + n];
    assert (x + y)[..|x|] == x && (x + y)[|x|..] == y;
  }

  lemma HoldsAt(s: string, a: nat, x: string, k: nat)
    requires Holds(s, a, x) && k < |x|
    ensures s[a + k] == x[k]
  {
    assert s[a..a + |x|][k] == x[k];
  }

  lemma HoldsHead(s: string, a: nat, x: string)
    requires Holds(s, a, x) && x != ""
    ensures s[a] == x[0] && Holds(s, a + 1, x[1..])
  {
    assert x == [x[0]] + x[1..];
    HoldsSplit(s, a, [x[0]], x[1..]);
    HoldsAt(s, a, [x[0]], 0);
  }

  lemma SliceOfSlice(s: string, a: nat, b: nat, i: nat, e: nat)
    requires a <= i <= e <= b <= |s|
    ensures s[a..b][i - a..e - a] == s[i..e]
  {
    var x, y := s[a..b][i - a..e - a], s[i..e];
    assert |x| == |y| && forall k :: 0 <= k < |y| ==> x[k] == s[a..b][i - a + k] == s[i + k] == y[k];
  }
}
