/** Marker expansion, the second half of the SQL translator (pkg/query/translator.go): each
    marked call is found in the text, cut out up to its closing parenthesis and replaced, until
    no marked call is left. */
module Markers {
  import opened Text
  import opened Lexical

  datatype Marker = CurrentTimestamp | CurrentDate | ToVariant | ParseJson | Nvl2 | DateAdd | DateDiff

  /** The passes, in the order the translator runs them. */
  const PASSES: seq<Marker> := [CurrentTimestamp, CurrentDate, ToVariant, ParseJson, Nvl2, DateAdd, DateDiff]

  function Word(m: Marker): (w: string)
    ensures |w| >= 8 && w[0] == w[1] == '_' && w[|w| - 1] == w[|w| - 2] == '_'
  {
    match m
    case CurrentTimestamp => "__CURRENT_TIMESTAMP__"
    case CurrentDate => "__CURRENT_DATE__"
    case ToVariant => "__TO_VARIANT__"
    case ParseJson => "__PARSE_JSON__"
    case Nvl2 => "__NVL2__"
    case DateAdd => "__DATEADD__"
    case DateDiff => "__DATEDIFF__"
  }

  /** The first position at or after i where s reads x, or |s|. */
  function FirstAt(s: string, x: string, i: nat): (j: nat)
    requires i <= |s| && x != ""
    ensures i <= j <= |s| && (j < |s| ==> Holds(s, j, x))
    ensures forall k :: i <= k < j ==> !Holds(s, k, x)
    decreases |s| - i
  {
    if i == |s| || Holds(s, i, x) then i else FirstAt(s, x, i + 1)
  }

  /** Just past the parenthesis that brings the depth to zero, or |s| + 1 when none does.
      Quotes are not looked at. */
  function CloseFrom(s: string, i: nat, depth: nat): (end: nat)
    requires i <= |s|
    ensures i <= end <= |s| + 1
    ensures depth > 0 && end <= |s| ==> i < end && s[end - 1] == ')'
    decreases |s| - i
  {
    if depth == 0 then i
    else if i == |s| then |s| + 1
    else if s[i] == '(' then CloseFrom(s, i + 1, depth + 1)
    else if s[i] == ')' then CloseFrom(s, i + 1, depth - 1)
    else CloseFrom(s, i + 1, depth)
  }

  /** The arguments between the commas at depth zero; an empty last one is dropped. */
  function SplitArgs(args: string, start: nat, i: nat, depth: int): seq<string>
    requires start <= i <= |args|
    decreases |args| - i
  {
    if i == |args| then (if start < |args| then [args[start..]] else [])
    else if args[i] == '(' then SplitArgs(args, start, i + 1, depth + 1)
    else if args[i] == ')' then SplitArgs(args, start, i + 1, depth - 1)
    else if args[i] == ',' && depth == 0 then [args[start..i]] + SplitArgs(args, i + 1, i + 1, depth)
    else SplitArgs(args, start, i + 1, depth)
  }

  /** A quoted plain identifier. */
  predicate Unquotable(t: string) {
    && |t| >= 2 && t[0] == t[|t| - 1] && (t[0] == '\'' || t[0] == '"')
    && IsName(t[1..|t| - 1])
  }

  function UnquoteDatePart(part: string): string {
    var t := Trim(part);
    if Unquotable(t) then t[1..|t| - 1] else t
  }

  predicate NeedsThree(m: Marker) { m == Nvl2 || m == DateAdd || m == DateDiff }

  /** The text that takes the place of marker(args). A wrong number of arguments gives the
      marked call back unchanged. */
  function Transform(m: Marker, args: string): string {
    var parts := SplitArgs(args, 0, 0, 0);
    if NeedsThree(m) && |parts| != 3 then Word(m) + "(" + args + ")"
    else match m
      case CurrentTimestamp => "CURRENT_TIMESTAMP"
      case CurrentDate => "CURRENT_DATE"
      case ToVariant => "CAST(" + args + " AS JSON)"
      case ParseJson => "CAST(" + args + " AS JSON)"
      case Nvl2 =>
        "IF(" + Trim(parts[0]) + " IS NOT NULL, " + Trim(parts[1]) + ", " + Trim(parts[2]) + ")"
      case DateAdd =>
        "(CAST(" + Trim(parts[2]) + " AS DATE) + interval (" + Trim(parts[1]) + ") "
        + UnquoteDatePart(parts[0]) + ")"
      case DateDiff =>
        "DATE_DIFF('" + UnquoteDatePart(parts[0]) + "', CAST(" + Trim(parts[1]) + " AS DATE), CAST("
        + Trim(parts[2]) + " AS DATE))"
  }

  // ------------------------------------------------------------- one turn of the loop

  function CallAt(m: Marker, s: string): (idx: nat)
    ensures idx <= |s|
  {
    FirstAt(s, Word(m) + "(", 0)
  }

  function ArgsStart(m: Marker, s: string): nat { CallAt(m, s) + |Word(m)| + 1 }

  /** There is a marked call, and its parenthesis closes. */
  predicate HasCall(m: Marker, s: string) {
    CallAt(m, s) < |s| && ArgsStart(m, s) <= |s| && CloseFrom(s, ArgsStart(m, s), 1) <= |s|
  }

  function CallArgs(m: Marker, s: string): string
    requires HasCall(m, s)
  {
    s[ArgsStart(m, s)..CloseFrom(s, ArgsStart(m, s), 1) - 1]
  }

  /** The text with the call from idx to end replaced; its arguments begin at start. */
  function Spliced(m: Marker, s: string, idx: nat, start: nat, end: nat): string
    requires idx <= start < end <= |s|
  {
    s[..idx] + Transform(m, s[start..end - 1]) + s[end..]
  }

  function Next(m: Marker, s: string): string
    requires HasCall(m, s)
  {
    Spliced(m, s, CallAt(m, s), ArgsStart(m, s), CloseFrom(s, ArgsStart(m, s), 1))
  }

  /** The first marked call has the wrong number of arguments. */
  predicate WrongCount(m: Marker, s: string)
    requires HasCall(m, s)
  {
    NeedsThree(m) && |SplitArgs(CallArgs(m, s), 0, 0, 0)| != 3
  }

  // ------------------------------------------------------------- every turn makes progress

  /** How many times w occurs in s, overlaps included. */
  function Occ(w: string, s: string): nat
    requires w != ""
  {
    if |s| < |w| then 0 else (if w <= s then 1 else 0) + Occ(w, s[1..])
  }

  lemma NotPrefix(w: string, s: string, k: nat)
    requires k < |w| && k < |s| && w[k] != s[k]
    ensures !(w <= s)
  {
    if |w| <= |s| {
      assert s[..|w|][k] == s[k];
    }
  }

  lemma {:induction false} OccSplit(w: string, a: string, c: char, b: string)
    requires w != "" && c !in w
    ensures Occ(w, a + [c] + b) == Occ(w, a) + Occ(w, b)
    decreases |a|
  {
    var s := a + [c] + b;
    if a == "" {
      assert s[1..] == b;
      NotPrefix(w, s, 0);
      if |s| < |w| {
        assert Occ(w, b) == 0;
      }
    } else {
      assert s[1..] == a[1..] + [c] + b;
      OccSplit(w, a[1..], c, b);
      if |w| > |a| {
        NotPrefix(w, s, |a|);
      } else {
        assert s[..|w|] == a[..|w|];
      }
      if |a| < |w| { assert Occ(w, a[1..]) == 0; }
      if |s| < |w| { assert Occ(w, s[1..]) == 0; }
    }
  }

  lemma {:induction false} OccPlain(w: string, x: string)
    requires w != "" && w[0] !in x
    ensures Occ(w, x) == 0
  {
    if |x| >= |w| {
      NotPrefix(w, x, 0);
      OccPlain(w, x[1..]);
    }
  }

  /** Inserted text that starts and ends with characters foreign to w joins no new occurrence. */
  lemma OccAround(w: string, a: string, x: string, b: string)
    requires w != "" && |x| >= 2 && x[0] !in w && x[|x| - 1] !in w && w[0] !in x
    ensures Occ(w, a + x + b) == Occ(w, a) + Occ(w, b)
  {
    var y := x[1..|x| - 1];
    assert a + x + b == (a + [x[0]] + y) + [x[|x| - 1]] + b;
    OccSplit(w, a + [x[0]] + y, x[|x| - 1], b);
    OccSplit(w, a, x[0], y);
    OccPlain(w, y);
  }

  lemma {:induction false} OccEnd(w: string, a: string)
    requires w != ""
    ensures Occ(w, a + w) >= Occ(w, a) + 1
  {
    if a == "" {
      assert a + w == w;
    } else {
      assert (a + w)[1..] == a[1..] + w;
      OccEnd(w, a[1..]);
      if |a| >= |w| {
        if w <= a { assert w == a[..|w|] == (a + w)[..|w|]; }
      }
    }
  }

  lemma {:induction false} OccTrim(w: string, x: string, lo: nat, hi: nat)
    requires w != "" && lo <= hi <= |x| && forall c :: c in w ==> !IsSpace(c)
    ensures var a := Lead(x, lo, hi); Occ(w, x[a..Tail(x, a, hi)]) == Occ(w, x[lo..hi])
    decreases hi - lo
  {
    hide Occ;
    if lo < hi {
      if IsSpace(x[lo]) {
        OccFirst(w, x, lo, hi);
        OccTrim(w, x, lo + 1, hi);
      } else if IsSpace(x[hi - 1]) {
        OccLast(w, x, lo, hi);
        OccTrim(w, x, lo, hi - 1);
      }
    }
  }

  lemma OccFirst(w: string, x: string, lo: nat, hi: nat)
    requires w != "" && lo < hi <= |x| && x[lo] !in w
    ensures Occ(w, x[lo..hi]) == Occ(w, x[lo + 1..hi])
  {
    assert x[lo..hi] == "" + [x[lo]] + x[lo + 1..hi];
    OccSplit(w, "", x[lo], x[lo + 1..hi]);
  }

  lemma OccLast(w: string, x: string, lo: nat, hi: nat)
    requires w != "" && lo < hi <= |x| && x[hi - 1] !in w
    ensures Occ(w, x[lo..hi]) == Occ(w, x[lo..hi - 1])
  {
    assert x[lo..hi] == x[lo..hi - 1] + [x[hi - 1]] + "";
    OccSplit(w, x[lo..hi - 1], x[hi - 1], "");
  }

  lemma OccTrimmed(w: string, x: string)
    requires w != "" && forall c :: c in w ==> !IsSpace(c)
    ensures Occ(w, Trim(x)) == Occ(w, x)
  {
    OccTrim(w, x, 0, |x|);
    assert x[0..|x|] == x;
  }

  lemma OccUnquoted(w: string, x: string)
    requires w != "" && forall c :: c in w ==> !IsSpace(c) && c != '\'' && c != '"'
    ensures Occ(w, UnquoteDatePart(x)) == Occ(w, x)
  {
    OccTrimmed(w, x);
    var t := Trim(x);
    if Unquotable(t) {
      var y := t[1..|t| - 1];
      assert t == ("" + [t[0]] + y) + [t[|t| - 1]] + "";
      OccSplit(w, "" + [t[0]] + y, t[|t| - 1], "");
      OccSplit(w, "", t[0], y);
    }
  }

  function OccAll(w: string, parts: seq<string>): nat
    requires w != ""
  {
    if parts == [] then 0 else Occ(w, parts[0]) + OccAll(w, parts[1..])
  }

  lemma {:induction false} OccArgs(w: string, args: string, start: nat, i: nat, depth: int)
    requires w != "" && ',' !in w && start <= i <= |args|
    ensures OccAll(w, SplitArgs(args, start, i, depth)) == Occ(w, args[start..])
    decreases |args| - i
  {
    if i == |args| {
      assert start < |args| ==> [args[start..]][1..] == [];
    } else if args[i] == '(' {
      OccArgs(w, args, start, i + 1, depth + 1);
    } else if args[i] == ')' {
      OccArgs(w, args, start, i + 1, depth - 1);
    } else if args[i] == ',' && depth == 0 {
      OccArgs(w, args, i + 1, i + 1, depth);
      assert args[start..] == args[start..i] + [','] + args[i + 1..];
      OccSplit(w, args[start..i], ',', args[i + 1..]);
    } else {
      OccArgs(w, args, start, i + 1, depth);
    }
  }

  lemma OccThree(w: string, args: string)
    requires w != "" && ',' !in w && |SplitArgs(args, 0, 0, 0)| == 3
    ensures var p := SplitArgs(args, 0, 0, 0);
            Occ(w, args) == Occ(w, p[0]) + Occ(w, p[1]) + Occ(w, p[2])
  {
    OccArgs(w, args, 0, 0, 0);
    assert args[0..] == args;
    var p := SplitArgs(args, 0, 0, 0);
    assert p[1..][0] == p[1] && p[1..][1..] == [p[2]];
    assert OccAll(w, [p[2]]) == Occ(w, p[2]) + OccAll(w, [p[2]][1..]);
  }

  /** The text around a call. */
  lemma OccCall(w: string, pre: string, args: string, post: string)
    requires w != "" && '(' !in w && ')' !in w
    ensures Occ(w, pre + w + "(" + args + ")" + post) >= Occ(w, pre) + 1 + Occ(w, args) + Occ(w, post)
  {
    assert pre + w + "(" + args + ")" + post == ((pre + w) + ['('] + args) + [')'] + post;
    OccSplit(w, (pre + w) + ['('] + args, ')', post);
    OccSplit(w, pre + w, '(', args);
    OccEnd(w, pre);
  }

  /** A template with three holes, regrouped from the right. */
  lemma Regroup(pre: string, l1: string, x: string, l2: string, y: string, l3: string, z: string, l4: string, post: string)
    ensures pre + (l1 + x + l2 + y + l3 + z + l4) + post
         == pre + l1 + (x + l2 + (y + l3 + (z + l4 + post)))
  {
    var t := l1 + x + l2 + y + l3 + z + l4;
    var tail := x + l2 + (y + l3 + (z + l4 + post));
    assert t + post == l1 + tail;
    ConcatAssociates(pre, t, post);
    ConcatAssociates(pre, l1, tail);
  }

  lemma Nvl2Shrinks(pre: string, a: string, b: string, c: string, post: string)
    ensures var w := Word(Nvl2);
            Occ(w, pre + ("IF(" + a + " IS NOT NULL, " + b + ", " + c + ")") + post)
            == Occ(w, pre) + Occ(w, a) + Occ(w, b) + Occ(w, c) + Occ(w, post)
  {
    var w := Word(Nvl2);
    var r3 := c + ")" + post;
    var r2 := b + ", " + r3;
    var r1 := a + " IS NOT NULL, " + r2;
    Regroup(pre, "IF(", a, " IS NOT NULL, ", b, ", ", c, ")", post);
    OccAround(w, pre, "IF(", r1);
    OccAround(w, a, " IS NOT NULL, ", r2);
    OccAround(w, b, ", ", r3);
    assert r3 == c + [')'] + post;
    OccSplit(w, c, ')', post);
  }

  lemma DateAddShrinks(pre: string, d: string, n: string, p: string, post: string)
    ensures var w := Word(DateAdd);
            Occ(w, pre + ("(CAST(" + d + " AS DATE) + interval (" + n + ") " + p + ")") + post)
            == Occ(w, pre) + Occ(w, d) + Occ(w, n) + Occ(w, p) + Occ(w, post)
  {
    var w := Word(DateAdd);
    var r3 := p + ")" + post;
    var r2 := n + ") " + r3;
    var r1 := d + " AS DATE) + interval (" + r2;
    Regroup(pre, "(CAST(", d, " AS DATE) + interval (", n, ") ", p, ")", post);
    OccAround(w, pre, "(CAST(", r1);
    OccAround(w, d, " AS DATE) + interval (", r2);
    OccAround(w, n, ") ", r3);
    assert r3 == p + [')'] + post;
    OccSplit(w, p, ')', post);
  }

  /** "DATE_DIFF" continues no marker. */
  lemma {:induction false} OccDateDiff(a: string)
    ensures Occ(Word(DateDiff), a + "DATE_DIFF") == Occ(Word(DateDiff), a)
  {
    var w := Word(DateDiff);
    var s := a + "DATE_DIFF";
    if a == "" {
      assert s == "DATE_DIFF";
    } else {
      OccDateDiff(a[1..]);
      assert s[1..] == a[1..] + "DATE_DIFF";
      if |s| >= |w| {
        if |a| < |w| {
          assert s[|a|] == 'D' && s[|a| + 1] == 'A';
          assert w[3] == 'A' && w[4] == 'T' && w[5] == 'E' && w[7] == 'I'
              && w[8] == w[9] == 'F' && w[10] == w[11] == '_';
          NotPrefix(w, s, if |a| == 6 then 7 else |a|);
        } else {
          assert s[..|w|] == a[..|w|];
        }
      }
    }
  }

  lemma DateDiffTail(p: string, a: string, b: string, post: string)
    ensures var w := Word(DateDiff);
            Occ(w, p + "', CAST(" + (a + " AS DATE), CAST(" + (b + " AS DATE))" + post)))
            == Occ(w, p) + Occ(w, a) + Occ(w, b) + Occ(w, post)
  {
    var w := Word(DateDiff);
    var r3 := b + " AS DATE))" + post;
    var r2 := a + " AS DATE), CAST(" + r3;
    OccAround(w, p, "', CAST(", r2);
    OccAround(w, a, " AS DATE), CAST(", r3);
    OccAround(w, b, " AS DATE))", post);
  }

  lemma DateDiffHead(pre: string, r: string)
    ensures Occ(Word(DateDiff), pre + "DATE_DIFF('" + r) == Occ(Word(DateDiff), pre) + Occ(Word(DateDiff), r)
  {
    assert "DATE_DIFF('" == "DATE_DIFF" + "('";
    ConcatAssociates(pre, "DATE_DIFF", "('");
    OccAround(Word(DateDiff), pre + "DATE_DIFF", "('", r);
    OccDateDiff(pre);
  }

  lemma DateDiffShrinks(pre: string, p: string, a: string, b: string, post: string)
    ensures var w := Word(DateDiff);
            Occ(w, pre + ("DATE_DIFF('" + p + "', CAST(" + a + " AS DATE), CAST(" + b + " AS DATE))") + post)
            == Occ(w, pre) + Occ(w, p) + Occ(w, a) + Occ(w, b) + Occ(w, post)
  {
    Regroup(pre, "DATE_DIFF('", p, "', CAST(", a, " AS DATE), CAST(", b, " AS DATE))", post);
    DateDiffHead(pre, p + "', CAST(" + (a + " AS DATE), CAST(" + (b + " AS DATE))" + post)));
    DateDiffTail(p, a, b, post);
  }

  /** What every turn makes smaller: the number of marker words for the three-argument calls,
      the length of the text for the others. */
  function Measure(m: Marker, s: string): nat {
    if NeedsThree(m) then Occ(Word(m), s) else |s|
  }

  lemma Slices(s: string, i: nat, j: nat, e: nat)
    requires i <= j < e <= |s|
    ensures s == s[..i] + s[i..j] + s[j..e - 1] + s[e - 1..e] + s[e..]
  {
    assert s[..i] + s[i..j] == s[..j];
    assert s[..j] + s[j..e - 1] == s[..e - 1];
  }

  lemma CallShape(m: Marker, s: string)
    requires HasCall(m, s)
    ensures var post := s[CloseFrom(s, ArgsStart(m, s), 1)..];
            s == s[..CallAt(m, s)] + (Word(m) + "(") + CallArgs(m, s) + ")" + post
  {
    var i, j := CallAt(m, s), ArgsStart(m, s);
    var call := Word(m) + "(";
    assert Holds(s, i, call) && |call| == j - i;
    ShapeAt(s, i, j, CloseFrom(s, j, 1), call);
  }

  lemma ShapeAt(s: string, i: nat, j: nat, e: nat, call: string)
    requires i <= j < e <= |s| && s[e - 1] == ')' && Holds(s, i, call) && i + |call| == j
    ensures s == s[..i] + call + s[j..e - 1] + ")" + s[e..]
  {
    Slices(s, i, j, e);
    assert s[e - 1..e] == ")";
  }

  /** With the right number of arguments, every replacement has fewer marker words or is shorter. */
  lemma ReplacementSmaller(m: Marker, pre: string, args: string, post: string)
    requires NeedsThree(m) ==> |SplitArgs(args, 0, 0, 0)| == 3
    ensures Measure(m, pre + Transform(m, args) + post) < Measure(m, pre + (Word(m) + "(") + args + ")" + post)
  {
    if NeedsThree(m) {
      ThreeSmaller(m, pre, args, post);
    }
  }

  lemma ThreeSmaller(m: Marker, pre: string, args: string, post: string)
    requires NeedsThree(m) && |SplitArgs(args, 0, 0, 0)| == 3
    ensures var w := Word(m);
            Occ(w, pre + Transform(m, args) + post) < Occ(w, pre + (w + "(") + args + ")" + post)
  {
    hide Trim, SplitArgs, Occ, UnquoteDatePart;
    var w := Word(m);
    ConcatAssociates(pre, w, "(");
    OccCall(w, pre, args, post);
    OccThree(w, args);
    var p := SplitArgs(args, 0, 0, 0);
    OccTrimmed(w, p[0]);
    OccTrimmed(w, p[1]);
    OccTrimmed(w, p[2]);
    OccUnquoted(w, p[0]);
    match m
    case Nvl2 => Nvl2Shrinks(pre, Trim(p[0]), Trim(p[1]), Trim(p[2]), post);
    case DateAdd => DateAddShrinks(pre, Trim(p[2]), Trim(p[1]), UnquoteDatePart(p[0]), post);
    case DateDiff => DateDiffShrinks(pre, UnquoteDatePart(p[0]), Trim(p[1]), Trim(p[2]), post);
  }

  /** A turn either leaves the text as it was, which happens exactly when the first marked call
      has the wrong number of arguments, or makes the measure smaller. */
  lemma TurnProgress(m: Marker, s: string)
    requires HasCall(m, s)
    ensures WrongCount(m, s) ==> Next(m, s) == s
    ensures !WrongCount(m, s) ==> Measure(m, Next(m, s)) < Measure(m, s)
  {
    var pre, args, post := s[..CallAt(m, s)], CallArgs(m, s), s[CloseFrom(s, ArgsStart(m, s), 1)..];
    NextIs(m, s, pre, args, post);
    CallShape(m, s);
    hide *;
    TransformUnless(m, args);
    if WrongCount(m, s) {
      CallRegrouped(pre, Word(m), args, post);
    } else {
      ReplacementSmaller(m, pre, args, post);
    }
  }

  lemma NextIs(m: Marker, s: string, pre: string, args: string, post: string)
    requires HasCall(m, s) && pre == s[..CallAt(m, s)] && args == CallArgs(m, s)
    requires post == s[CloseFrom(s, ArgsStart(m, s), 1)..]
    ensures Next(m, s) == pre + Transform(m, args) + post
    ensures WrongCount(m, s) <==> NeedsThree(m) && |SplitArgs(args, 0, 0, 0)| != 3
  {
    hide Transform, SplitArgs, CloseFrom, CallAt;
  }

  lemma TransformUnless(m: Marker, args: string)
    ensures NeedsThree(m) && |SplitArgs(args, 0, 0, 0)| != 3 ==> Transform(m, args) == Word(m) + "(" + args + ")"
  {
    hide Word, SplitArgs;
  }

  lemma CallRegrouped(pre: string, w: string, args: string, post: string)
    ensures pre + (w + "(" + args + ")") + post == pre + (w + "(") + args + ")" + post
  {
    ConcatAssociates(pre, w + "(", args);
    ConcatAssociates(pre, (w + "(") + args, ")");
  }

  // ------------------------------------------------------------- the loop

  /** The loop either stops with a text or goes round for ever. */
  datatype Outcome = Stops(text: string) | Forever

  function Expand(m: Marker, s: string): Outcome
    decreases Measure(m, s)
  {
    if !HasCall(m, s) then Stops(s)
    else if WrongCount(m, s) then Forever
    else
      TurnProgress(m, s);
      Expand(m, Next(m, s))
  }

  function ExpandAll(ms: seq<Marker>, s: string): Outcome {
    if ms == [] then Stops(s)
    else match Expand(ms[0], s)
      case Forever => Forever
      case Stops(t) => ExpandAll(ms[1..], t)
  }

  method SplitFunctionArgs(args: string) returns (result: seq<string>)
    ensures result == SplitArgs(args, 0, 0, 0)
  {
    result := [];
    var depth, start := 0, 0;
    for i := 0 to |args|
      invariant start <= i
      invariant result + SplitArgs(args, start, i, depth) == SplitArgs(args, 0, 0, 0)
    {
      if args[i] == '(' {
        depth := depth + 1;
      } else if args[i] == ')' {
        depth := depth - 1;
      } else if args[i] == ',' && depth == 0 {
        ghost var rest := SplitArgs(args, i + 1, i + 1, depth);
        assert result + ([args[start..i]] + rest) == (result + [args[start..i]]) + rest;
        result := result + [args[start..i]];
        start := i + 1;
      }
    }
    if start < |args| {
      result := result + [args[start..]];
    }
  }

  method ClosingParen(text: string, start: nat) returns (end: nat, closed: bool)
    requires start <= |text|
    ensures closed <==> CloseFrom(text, start, 1) <= |text|
    ensures closed ==> end == CloseFrom(text, start, 1)
  {
    var depth := 1;
    end := start;
    while end < |text| && depth > 0
      invariant start <= end <= |text|
      invariant CloseFrom(text, start, 1) == CloseFrom(text, end, depth)
    {
      if text[end] == '(' {
        depth := depth + 1;
      } else if text[end] == ')' {
        depth := depth - 1;
      }
      end := end + 1;
    }
    closed := depth == 0;
  }

  /** A turn that changes nothing would be repeated for ever: the loop's only state is the text. */
  method TransformMarkedFunction(sql: string, marker: Marker) returns (r: Outcome)
    ensures r == Expand(marker, sql)
  {
    var text := sql;
    while true
      invariant Expand(marker, text) == Expand(marker, sql)
      decreases Measure(marker, text)
    {
      var idx := CallAt(marker, text);
      if idx == |text| {
        return Stops(text);
      }
      var start := ArgsStart(marker, text);
      var end, closed := ClosingParen(text, start);
      if !closed {
        return Stops(text);
      }
      var next := Spliced(marker, text, idx, start, end);
      TurnProgress(marker, text);
      if next == text {
        return Forever;
      }
      text := next;
    }
  }

  method HandleComplexTransformations(sql: string) returns (r: Outcome)
    ensures r == ExpandAll(PASSES, sql)
  {
    r := Stops(sql);
    for k := 0 to |PASSES|
      invariant r.Stops? && ExpandAll(PASSES, sql) == ExpandAll(PASSES[k..], r.text)
    {
      assert PASSES[k..][1..] == PASSES[k + 1..];
      r := TransformMarkedFunction(r.text, PASSES[k]);
      if r == Forever {
        return;
      }
    }
  }
}
