/** What marker expansion means: on the text of any nest of marked calls, the repeated
    first-match rewriting of Markers stops at the text of the recursive translation of the
    nest, whatever the nesting and in whatever order the passes run. */
module MarkerTrees {
  import opened Text
  import opened Lexical
  import opened Markers

  // ------------------------------------------------------------- nests of marked calls

  datatype Frags =
    | Nil
    | Char(c: char, rest: Frags)
    | Group(body: Frags, rest: Frags)
    | Call(m: Marker, args: Args, rest: Frags)

  datatype Args = One(arg: Frags) | More(arg: Frags, others: Args)

  function Print(fs: Frags): (s: string)
    ensures s == "" <==> fs == Nil
  {
    match fs
    case Nil => ""
    case Char(c, r) => [c] + Print(r)
    case Group(b, r) => "(" + Print(b) + ")" + Print(r)
    case Call(m, a, r) => Word(m) + "(" + PrintArgs(a) + ")" + Print(r)
  }

  function PrintArgs(a: Args): string {
    match a
    case One(x) => Print(x)
    case More(x, o) => Print(x) + "," + PrintArgs(o)
  }

  predicate NoComma(fs: Frags) {
    match fs
    case Nil => true
    case Char(c, r) => c != ',' && NoComma(r)
    case Group(b, r) => NoComma(r)
    case Call(m, a, r) => NoComma(r)
  }

  predicate NoCalls(fs: Frags) {
    match fs
    case Nil => true
    case Char(c, r) => NoCalls(r)
    case Group(b, r) => NoCalls(b) && NoCalls(r)
    case Call(m, a, r) => false
  }

  /** The arguments as the program splits them: an empty last one is dropped. */
  function ArgSeq(a: Args): seq<Frags> {
    match a
    case One(x) => if x == Nil then [] else [x]
    case More(x, o) => [x] + ArgSeq(o)
  }

  /** A three-argument call has three. */
  predicate Counted(m: Marker, a: Args) { NeedsThree(m) ==> |ArgSeq(a)| == 3 }

  predicate QuoteFirst(fs: Frags) { fs.Char? && (fs.c == '\'' || fs.c == '"') }

  /** A date part that is a quoted literal holds no call. */
  predicate ArgsFit(m: Marker, a: Args) { m == DateAdd || m == DateDiff ==> PartFits(a.arg) }

  predicate PartFits(x: Frags) { NoCalls(x) || !QuoteFirst(TrimLead(x)) }

  /** A nest whose parentheses are its groups and calls only, whose arguments hold no comma
      outside parentheses, and where no opening parenthesis but a marked call's follows two
      underscores; u underscores come before the nest. How many arguments a call has is free. */
  predicate Fits(fs: Frags, u: nat) {
    match fs
    case Nil => true
    case Char(c, r) => c != '(' && c != ')' && Fits(r, if c == '_' then u + 1 else 0)
    case Group(b, r) => u < 2 && Fits(b, 0) && Fits(r, 0)
    case Call(m, a, r) => u < 2 && ArgsFit(m, a) && FitArgs(a) && Fits(r, 0)
  }

  predicate FitArgs(a: Args) {
    Fits(a.arg, 0) && NoComma(a.arg) && (a.More? ==> FitArgs(a.others))
  }

  /** The marked calls of one kind, or those of them with the wrong number of arguments; these
      everywhere, or only where they are not in arguments that the translation throws away. */
  datatype Tag = Marked(m: Marker) | Miscount(m: Marker, everywhere: bool)

  function Weight(t: Tag, k: Marker, a: Args): nat {
    if k == t.m && (t.Miscount? ==> !Counted(k, a)) then 1 else 0
  }

  predicate Discards(m: Marker) { m == CurrentTimestamp || m == CurrentDate }

  predicate Enters(t: Tag, k: Marker) { t.Miscount? && !t.everywhere ==> !Discards(k) }

  function Tally(t: Tag, fs: Frags): nat {
    match fs
    case Nil => 0
    case Char(c, r) => Tally(t, r)
    case Group(b, r) => Tally(t, b) + Tally(t, r)
    case Call(k, a, r) => Weight(t, k, a) + (if Enters(t, k) then TallyArgs(t, a) else 0) + Tally(t, r)
  }

  function TallyArgs(t: Tag, a: Args): nat {
    match a
    case One(x) => Tally(t, x)
    case More(x, o) => Tally(t, x) + TallyArgs(t, o)
  }

  function Count(m: Marker, fs: Frags): nat { Tally(Marked(m), fs) }

  function CountArgs(m: Marker, a: Args): nat { TallyArgs(Marked(m), a) }

  // ------------------------------------------------------------- the recursive translation

  function Str(s: string, r: Frags): Frags {
    if s == "" then r else Char(s[0], Str(s[1..], r))
  }

  function Append(a: Frags, b: Frags): Frags {
    match a
    case Nil => b
    case Char(c, r) => Char(c, Append(r, b))
    case Group(x, r) => Group(x, Append(r, b))
    case Call(m, x, r) => Call(m, x, Append(r, b))
  }

  function JoinArgs(a: Args): Frags {
    match a
    case One(x) => x
    case More(x, o) => Append(x, Char(',', JoinArgs(o)))
  }

  function TrimLead(fs: Frags): Frags {
    if fs.Char? && IsSpace(fs.c) then TrimLead(fs.rest) else fs
  }

  predicate Blanks(fs: Frags) { fs == Nil || (fs.Char? && IsSpace(fs.c) && Blanks(fs.rest)) }

  function TrimTail(fs: Frags): Frags {
    if Blanks(fs) then Nil
    else match fs
      case Nil => Nil
      case Char(c, r) => Char(c, TrimTail(r))
      case Group(b, r) => Group(b, TrimTail(r))
      case Call(m, a, r) => Call(m, a, TrimTail(r))
  }

  function TrimFrags(fs: Frags): Frags { TrimTail(TrimLead(fs)) }

  function Unquote(x: Frags): Frags {
    var t := Print(TrimFrags(x));
    if Unquotable(t) then Str(t[1..|t| - 1], Nil) else TrimFrags(x)
  }

  function CastAs(x: Frags, suffix: string, r: Frags): Frags {
    Str("CAST", Group(Append(x, Str(suffix, Nil)), r))
  }

  function IfNotNull(a: Frags, b: Frags, c: Frags, r: Frags): Frags {
    Str("IF", Group(Append(a, Str(" IS NOT NULL, ", Append(b, Str(", ", c)))), r))
  }

  function AddInterval(part: Frags, n: Frags, date: Frags, r: Frags): Frags {
    Group(AddBody(part, n, date), r)
  }

  function AddBody(part: Frags, n: Frags, date: Frags): Frags {
    CastAs(date, " AS DATE", Str(" + interval ", Group(n, Char(' ', part))))
  }

  function DiffDates(part: Frags, start: Frags, end: Frags, r: Frags): Frags {
    Str("DATE_DIFF", Group(DiffBody(part, start, end), r))
  }

  function DiffBody(part: Frags, start: Frags, end: Frags): Frags {
    Char('\'', Append(part, Char('\'', Str(", ",
      CastAs(start, " AS DATE", Str(", ", CastAs(end, " AS DATE", Nil)))))))
  }

  function BuildThree(m: Marker, x: Frags, y: Frags, z: Frags, r: Frags): Frags
    requires NeedsThree(m)
  {
    match m
    case Nvl2 => IfNotNull(x, y, z, r)
    case DateAdd => AddInterval(x, y, z, r)
    case DateDiff => DiffDates(x, y, z, r)
  }

  function BuildOther(m: Marker, x: Frags, r: Frags): Frags
    requires !NeedsThree(m)
  {
    match m
    case CurrentTimestamp => Str("CURRENT_TIMESTAMP", r)
    case CurrentDate => Str("CURRENT_DATE", r)
    case ToVariant => CastAs(x, " AS JSON", r)
    case ParseJson => CastAs(x, " AS JSON", r)
  }

  function FirstArg(m: Marker, x: Frags): Frags {
    if m == Nvl2 then TrimFrags(x) else Unquote(x)
  }

  /** The DuckDB form of one marked call, its arguments taken as they are; with the wrong number
      of them the call stays. */
  function Template(m: Marker, a: Args, r: Frags): Frags {
    if !NeedsThree(m) then BuildOther(m, JoinArgs(a), r)
    else if Counted(m, a) then
      BuildThree(m, FirstArg(m, ArgSeq(a)[0]), TrimFrags(ArgSeq(a)[1]), TrimFrags(ArgSeq(a)[2]), r)
    else Call(m, a, r)
  }

  /** Every marked call with the right number of arguments replaced by its DuckDB form, innermost
      first. */
  function Full(fs: Frags): Frags {
    match fs
    case Nil => Nil
    case Char(c, r) => Char(c, Full(r))
    case Group(b, r) => Group(Full(b), Full(r))
    case Call(m, a, r) => Template(m, FullArgs(a), Full(r))
  }

  function FullArgs(a: Args): Args {
    match a
    case One(x) => One(Full(x))
    case More(x, o) => More(Full(x), FullArgs(o))
  }

  /** The leftmost call of m replaced, the calls around and inside it left alone. */
  function ReplaceFirst(m: Marker, fs: Frags): Frags
    requires Count(m, fs) > 0
  {
    match fs
    case Char(c, r) => Char(c, ReplaceFirst(m, r))
    case Group(b, r) => if Count(m, b) > 0 then Group(ReplaceFirst(m, b), r) else Group(b, ReplaceFirst(m, r))
    case Call(k, a, r) =>
      if k == m then Template(m, a, r)
      else if CountArgs(m, a) > 0 then Call(k, ReplaceFirstArg(m, a), r)
      else Call(k, a, ReplaceFirst(m, r))
  }

  function ReplaceFirstArg(m: Marker, a: Args): Args
    requires CountArgs(m, a) > 0
  {
    match a
    case One(x) => One(ReplaceFirst(m, x))
    case More(x, o) => if Count(m, x) > 0 then More(ReplaceFirst(m, x), o) else More(x, ReplaceFirstArg(m, o))
  }

  // ------------------------------------------------------------- building blocks

  /** Where only the text matters. */
  const ANY := Marked(Nvl2)

  predicate Plain(w: string) { forall k :: 0 <= k < |w| ==> w[k] != '(' && w[k] != ')' }

  lemma {:induction false} StrFacts(w: string, r: Frags, tag: Tag)
    ensures Print(Str(w, r)) == w + Print(r)
    ensures Full(Str(w, r)) == Str(w, Full(r))
    ensures Tally(tag, Str(w, r)) == Tally(tag, r)
  {
    if w != "" {
      StrFacts(w[1..], r, tag);
      assert w == [w[0]] + w[1..];
      ConcatAssociates([w[0]], w[1..], Print(r));
    }
  }

  lemma {:induction false} StrFits(w: string, r: Frags, u: nat)
    requires Plain(w) && w != "" && w[|w| - 1] != '_' && Fits(r, 0)
    ensures Fits(Str(w, r), u)
  {
    if |w| > 1 {
      StrFits(w[1..], r, if w[0] == '_' then u + 1 else 0);
    } else {
      assert w[1..] == "";
    }
  }

  lemma {:induction false} StrNoComma(w: string, r: Frags)
    requires NoComma(r) && ',' !in w
    ensures NoComma(Str(w, r))
  {
    if w != "" { StrNoComma(w[1..], r); }
  }

  lemma {:induction false} AppendFacts(a: Frags, b: Frags, tag: Tag)
    ensures Print(Append(a, b)) == Print(a) + Print(b)
    ensures Tally(tag, Append(a, b)) == Tally(tag, a) + Tally(tag, b)
  {
    match a
    case Nil =>
    case Char(c, r) =>
      AppendFacts(r, b, tag);
      ConcatAssociates([c], Print(r), Print(b));
    case Group(x, r) =>
      AppendFacts(r, b, tag);
      ConcatAssociates("(" + Print(x) + ")", Print(r), Print(b));
    case Call(k, x, r) =>
      AppendFacts(r, b, tag);
      ConcatAssociates(Word(k) + "(" + PrintArgs(x) + ")", Print(r), Print(b));
  }

  lemma {:induction false} AppendFull(a: Frags, b: Frags)
    ensures Full(Append(a, b)) == Append(Full(a), Full(b))
  {
    match a
    case Nil =>
    case Char(c, r) => AppendFull(r, b);
    case Group(x, r) => AppendFull(r, b);
    case Call(k, x, r) =>
      AppendFull(r, b);
      AppendTemplate(k, FullArgs(x), Full(r), Full(b));
  }

  lemma {:induction false} AppendStr(w: string, r: Frags, b: Frags)
    ensures Append(Str(w, r), b) == Str(w, Append(r, b))
  {
    if w != "" { AppendStr(w[1..], r, b); }
  }

  lemma AppendTemplate(m: Marker, a: Args, r: Frags, b: Frags)
    ensures Append(Template(m, a, r), b) == Template(m, a, Append(r, b))
  {
    if !NeedsThree(m) {
      AppendOther(m, JoinArgs(a), r, b);
    } else if Counted(m, a) {
      AppendThree(m, FirstArg(m, ArgSeq(a)[0]), TrimFrags(ArgSeq(a)[1]), TrimFrags(ArgSeq(a)[2]), r, b);
    }
  }

  lemma AppendOther(m: Marker, x: Frags, r: Frags, b: Frags)
    requires !NeedsThree(m)
    ensures Append(BuildOther(m, x, r), b) == BuildOther(m, x, Append(r, b))
  {
    match m
    case CurrentTimestamp => AppendStr("CURRENT_TIMESTAMP", r, b);
    case CurrentDate => AppendStr("CURRENT_DATE", r, b);
    case ToVariant => AppendCast(x, " AS JSON", r, b);
    case ParseJson => AppendCast(x, " AS JSON", r, b);
  }

  lemma AppendThree(m: Marker, x: Frags, y: Frags, z: Frags, r: Frags, b: Frags)
    requires NeedsThree(m)
    ensures Append(BuildThree(m, x, y, z, r), b) == BuildThree(m, x, y, z, Append(r, b))
  {
    if m == Nvl2 {
      assert BuildThree(m, x, y, z, r) == IfNotNull(x, y, z, r);
      AppendIf(x, y, z, r, b);
    } else if m == DateAdd {
      assert BuildThree(m, x, y, z, r) == Group(AddBody(x, y, z), r);
    } else {
      assert BuildThree(m, x, y, z, r) == DiffDates(x, y, z, r);
      AppendDiff(x, y, z, r, b);
    }
  }

  lemma AppendCast(x: Frags, suffix: string, r: Frags, b: Frags)
    ensures Append(CastAs(x, suffix, r), b) == CastAs(x, suffix, Append(r, b))
  {
    AppendStr("CAST", Group(Append(x, Str(suffix, Nil)), r), b);
  }

  lemma AppendIf(x: Frags, y: Frags, z: Frags, r: Frags, b: Frags)
    ensures Append(IfNotNull(x, y, z, r), b) == IfNotNull(x, y, z, Append(r, b))
  {
    AppendStr("IF", Group(Append(x, Str(" IS NOT NULL, ", Append(y, Str(", ", z)))), r), b);
  }

  lemma AppendDiff(p: Frags, y: Frags, z: Frags, r: Frags, b: Frags)
    ensures Append(DiffDates(p, y, z, r), b) == DiffDates(p, y, z, Append(r, b))
  {
    AppendStr("DATE_DIFF", Group(DiffBody(p, y, z), r), b);
  }

  /** Appending after a character that is no underscore keeps both parts fitting. */
  lemma {:induction false} AppendFits(a: Frags, c: char, b: Frags, u: nat)
    requires Fits(a, u) && c != '_' && c != '(' && c != ')' && Fits(b, 0)
    ensures Fits(Append(a, Char(c, b)), u)
  {
    match a
    case Nil =>
    case Char(d, r) => AppendFits(r, c, b, if d == '_' then u + 1 else 0);
    case Group(x, r) => AppendFits(r, c, b, 0);
    case Call(k, x, r) => AppendFits(r, c, b, 0);
  }

  lemma {:induction false} JoinFacts(a: Args, tag: Tag)
    ensures Print(JoinArgs(a)) == PrintArgs(a)
    ensures Tally(tag, JoinArgs(a)) == TallyArgs(tag, a)
    ensures JoinArgs(FullArgs(a)) == Full(JoinArgs(a))
    ensures FitArgs(a) ==> Fits(JoinArgs(a), 0)
  {
    match a
    case One(x) =>
    case More(x, o) =>
      JoinFacts(o, tag);
      AppendFacts(x, Char(',', JoinArgs(o)), tag);
      AppendFull(x, Char(',', JoinArgs(o)));
      ConcatAssociates(Print(x), ",", PrintArgs(o));
      if FitArgs(a) { AppendFits(x, ',', JoinArgs(o), 0); }
  }

  // ------------------------------------------------------------- trimming

  lemma {:induction false} LeadFacts(fs: Frags, tag: Tag) returns (before: string)
    ensures Print(fs) == before + Print(TrimLead(fs)) && AllSpace(before, 0, |before|)
    ensures var t := TrimLead(fs); t.Char? ==> !IsSpace(t.c)
    ensures Tally(tag, TrimLead(fs)) == Tally(tag, fs)
    ensures Fits(fs, 0) ==> Fits(TrimLead(fs), 0)
    ensures NoComma(fs) ==> NoComma(TrimLead(fs))
  {
    if fs.Char? && IsSpace(fs.c) {
      var b := LeadFacts(fs.rest, tag);
      before := [fs.c] + b;
      ConcatAssociates([fs.c], b, Print(TrimLead(fs.rest)));
    } else {
      before := "";
    }
  }

  lemma {:induction false} BlanksFacts(fs: Frags, tag: Tag)
    requires Blanks(fs)
    ensures AllSpace(Print(fs), 0, |Print(fs)|) && Tally(tag, fs) == 0 && Full(fs) == fs
  {
    if fs.Char? { BlanksFacts(fs.rest, tag); }
  }

  lemma {:induction false} TailFacts(fs: Frags, tag: Tag, u: nat) returns (after: string)
    ensures Print(fs) == Print(TrimTail(fs)) + after && AllSpace(after, 0, |after|)
    ensures Tally(tag, TrimTail(fs)) == Tally(tag, fs)
    ensures Fits(fs, u) ==> Fits(TrimTail(fs), u)
    ensures NoComma(fs) ==> NoComma(TrimTail(fs))
  {
    if Blanks(fs) {
      BlanksFacts(fs, tag);
      after := Print(fs);
    } else {
      match fs
      case Char(c, r) =>
        after := TailFacts(r, tag, if c == '_' then u + 1 else 0);
        ConcatAssociates([c], Print(TrimTail(r)), after);
      case Group(b, r) =>
        after := TailFacts(r, tag, 0);
        ConcatAssociates("(" + Print(b) + ")", Print(TrimTail(r)), after);
      case Call(k, a, r) =>
        after := TailFacts(r, tag, 0);
        ConcatAssociates(Word(k) + "(" + PrintArgs(a) + ")", Print(TrimTail(r)), after);
    }
  }

  lemma LastOf(a: string, b: string)
    requires a != ""
    ensures (a + b)[|a + b| - 1] == if b == "" then a[|a| - 1] else b[|b| - 1]
  {
  }

  lemma {:induction false} TailLast(fs: Frags)
    ensures var t := Print(TrimTail(fs)); t != "" ==> !IsSpace(t[|t| - 1])
  {
    if !Blanks(fs) {
      match fs
      case Char(c, r) =>
        TailLast(r);
        LastOf([c], Print(TrimTail(r)));
        if TrimTail(r) == Nil { TailNil(r); }
      case Group(b, r) =>
        TailLast(r);
        LastOf("(" + Print(b) + ")", Print(TrimTail(r)));
      case Call(k, a, r) =>
        TailLast(r);
        LastOf(Word(k) + "(" + PrintArgs(a) + ")", Print(TrimTail(r)));
    }
  }

  lemma TailNil(fs: Frags)
    requires TrimTail(fs) == Nil
    ensures Blanks(fs)
  {
  }

  /** Trimming a nest is trimming its text. */
  lemma TrimFacts(fs: Frags, tag: Tag)
    ensures Print(TrimFrags(fs)) == Trim(Print(fs))
    ensures Tally(tag, TrimFrags(fs)) == Tally(tag, fs)
    ensures Fits(fs, 0) ==> Fits(TrimFrags(fs), 0)
    ensures NoComma(fs) ==> NoComma(TrimFrags(fs))
  {
    var before := LeadFacts(fs, tag);
    var after := TailFacts(TrimLead(fs), tag, 0);
    var t := Print(TrimFrags(fs));
    TailLast(TrimLead(fs));
    ConcatAssociates(before, t, after);
    if t != "" { TailFirst(TrimLead(fs)); }
    TrimPadded(before, t, after);
  }

  /** Dropping trailing spaces leaves the first character alone. */
  lemma TailFirst(fs: Frags)
    requires TrimTail(fs) != Nil && (fs.Char? ==> !IsSpace(fs.c))
    ensures Print(TrimTail(fs)) != "" && !IsSpace(Print(TrimTail(fs))[0])
    ensures fs.Char? ==> Print(TrimTail(fs))[0] == fs.c
    ensures !fs.Char? ==> Print(TrimTail(fs))[0] == '(' || Print(TrimTail(fs))[0] == '_'
  {
  }

  lemma {:induction false} NoCallsFull(fs: Frags)
    requires NoCalls(fs)
    ensures Full(fs) == fs
  {
    match fs
    case Nil =>
    case Char(c, r) => NoCallsFull(r);
    case Group(b, r) => NoCallsFull(b); NoCallsFull(r);
  }

  /** The first fragment of a translated call is no space and no quote. */
  predicate Solid(fs: Frags) {
    fs != Nil && (fs.Char? ==> !IsSpace(fs.c) && fs.c != '\'' && fs.c != '"')
  }

  lemma TemplateSolid(m: Marker, a: Args, r: Frags)
    ensures Solid(Template(m, a, r))
  {
    hide JoinArgs, TrimFrags, FirstArg, Unquote, BuildOther;
    if !NeedsThree(m) { OtherSolid(m, JoinArgs(a), r); }
  }

  lemma OtherSolid(m: Marker, x: Frags, r: Frags)
    requires !NeedsThree(m)
    ensures Solid(BuildOther(m, x, r))
  {
    match m
    case CurrentTimestamp => assert Solid(Str("CURRENT_TIMESTAMP", r));
    case CurrentDate => assert Solid(Str("CURRENT_DATE", r));
    case ToVariant => assert Solid(CastAs(x, " AS JSON", r));
    case ParseJson => assert Solid(CastAs(x, " AS JSON", r));
  }

  lemma {:induction false} LeadFull(fs: Frags)
    ensures TrimLead(Full(fs)) == Full(TrimLead(fs))
  {
    match fs
    case Nil =>
    case Char(c, r) => if IsSpace(c) { LeadFull(r); }
    case Group(b, r) =>
    case Call(k, a, r) => TemplateSolid(k, FullArgs(a), Full(r));
  }

  lemma {:induction false} BlanksFull(fs: Frags)
    ensures Blanks(Full(fs)) == Blanks(fs)
  {
    match fs
    case Nil =>
    case Char(c, r) => BlanksFull(r);
    case Group(b, r) =>
    case Call(k, a, r) => TemplateSolid(k, FullArgs(a), Full(r));
  }

  lemma {:induction false} TailStr(w: string, r: Frags)
    requires w != "" && !IsSpace(w[|w| - 1])
    ensures TrimTail(Str(w, r)) == Str(w, TrimTail(r))
    ensures !Blanks(Str(w, r))
  {
    if |w| > 1 {
      TailStr(w[1..], r);
    } else {
      assert w[1..] == "";
    }
  }

  lemma TailTemplate(m: Marker, a: Args, r: Frags)
    ensures TrimTail(Template(m, a, r)) == Template(m, a, TrimTail(r))
  {
    if !NeedsThree(m) {
      TailOther(m, JoinArgs(a), r);
    } else if Counted(m, a) {
      TailThree(m, FirstArg(m, ArgSeq(a)[0]), TrimFrags(ArgSeq(a)[1]), TrimFrags(ArgSeq(a)[2]), r);
    }
  }

  lemma TailOther(m: Marker, x: Frags, r: Frags)
    requires !NeedsThree(m)
    ensures TrimTail(BuildOther(m, x, r)) == BuildOther(m, x, TrimTail(r))
  {
    match m
    case CurrentTimestamp => TailStr("CURRENT_TIMESTAMP", r);
    case CurrentDate => TailStr("CURRENT_DATE", r);
    case ToVariant => TailCast(x, " AS JSON", r);
    case ParseJson => TailCast(x, " AS JSON", r);
  }

  lemma TailThree(m: Marker, x: Frags, y: Frags, z: Frags, r: Frags)
    requires NeedsThree(m)
    ensures TrimTail(BuildThree(m, x, y, z, r)) == BuildThree(m, x, y, z, TrimTail(r))
  {
    match m
    case Nvl2 => TailIf(x, y, z, r);
    case DateAdd => TailGroup(AddBody(x, y, z), r);
    case DateDiff => TailDiff(x, y, z, r);
  }

  lemma TailGroup(body: Frags, r: Frags)
    ensures TrimTail(Group(body, r)) == Group(body, TrimTail(r))
  {
  }

  lemma TailCast(x: Frags, suffix: string, r: Frags)
    ensures TrimTail(CastAs(x, suffix, r)) == CastAs(x, suffix, TrimTail(r))
  {
    TailStr("CAST", Group(Append(x, Str(suffix, Nil)), r));
  }

  lemma TailDiff(x: Frags, y: Frags, z: Frags, r: Frags)
    ensures TrimTail(DiffDates(x, y, z, r)) == DiffDates(x, y, z, TrimTail(r))
  {
    TailStr("DATE_DIFF", Group(DiffBody(x, y, z), r));
  }

  lemma TailIf(x: Frags, y: Frags, z: Frags, r: Frags)
    ensures TrimTail(IfNotNull(x, y, z, r)) == IfNotNull(x, y, z, TrimTail(r))
  {
    TailStr("IF", Group(Append(x, Str(" IS NOT NULL, ", Append(y, Str(", ", z)))), r));
  }

  lemma {:induction false} TailFull(fs: Frags)
    ensures TrimTail(Full(fs)) == Full(TrimTail(fs))
  {
    BlanksFull(fs);
    if !Blanks(fs) {
      match fs
      case Nil =>
      case Char(c, r) => TailFull(r);
      case Group(b, r) => TailFull(r);
      case Call(k, a, r) =>
        TailFull(r);
        TailTemplate(k, FullArgs(a), Full(r));
    }
  }

  /** Translating and trimming commute. */
  lemma TrimFull(fs: Frags)
    ensures TrimFrags(Full(fs)) == Full(TrimFrags(fs))
  {
    LeadFull(fs);
    TailFull(TrimLead(fs));
  }

  lemma UnquoteFacts(x: Frags, tag: Tag)
    ensures Print(Unquote(x)) == UnquoteDatePart(Print(x))
    ensures PartFits(x) ==> Tally(tag, Unquote(x)) == Tally(tag, x)
    ensures Fits(x, 0) ==> Fits(Unquote(x), 0)
  {
    TrimFacts(x, tag);
    var t := Print(TrimFrags(x));
    if Unquotable(t) {
      StrFacts(t[1..|t| - 1], Nil, tag);
      NameFits(t[1..|t| - 1], 0);
      QuoteOfText(x);
      if PartFits(x) { NoCallsTally(tag, x); }
    }
  }

  lemma {:induction false} NameFits(w: string, u: nat)
    requires forall k :: 0 <= k < |w| ==> IdentPart(w[k])
    ensures Fits(Str(w, Nil), u)
  {
    if w != "" { NameFits(w[1..], if w[0] == '_' then u + 1 else 0); }
  }

  lemma QuoteOfText(x: Frags)
    ensures Unquotable(Print(TrimFrags(x))) ==> QuoteFirst(TrimLead(x))
  {
    var before := LeadFacts(x, ANY);
    if TrimFrags(x) != Nil { TailFirst(TrimLead(x)); }
  }

  /** Translating and unquoting commute when a quoted part holds no call. */
  lemma UnquoteFull(x: Frags)
    requires PartFits(x)
    ensures Unquote(Full(x)) == Full(Unquote(x))
  {
    TrimFull(x);
    if NoCalls(x) {
      NoCallsFull(x);
      var t := Print(TrimFrags(x));
      if Unquotable(t) { StrFacts(t[1..|t| - 1], Nil, ANY); }
    } else {
      LeadFull(x);
      var y := TrimLead(x);
      if y.Call? { TemplateSolid(y.m, FullArgs(y.args), Full(y.rest)); }
      QuoteOfText(Full(x));
      QuoteOfText(x);
    }
  }

  // ------------------------------------------------------------- the replacement of one call

  lemma CastFacts(x: Frags, suffix: string, r: Frags, tag: Tag)
    ensures Print(CastAs(x, suffix, r)) == "CAST(" + (Print(x) + suffix) + ")" + Print(r)
    ensures Tally(tag, CastAs(x, suffix, r)) == Tally(tag, x) + Tally(tag, r)
    ensures Full(CastAs(x, suffix, r)) == CastAs(Full(x), suffix, Full(r))
    ensures NoComma(r) ==> NoComma(CastAs(x, suffix, r))
  {
    hide Str, Append;
    var body := Append(x, Str(suffix, Nil));
    StrFacts("CAST", Group(body, r), tag);
    StrFacts(suffix, Nil, tag);
    AppendFacts(x, Str(suffix, Nil), tag);
    AppendFull(x, Str(suffix, Nil));
    if NoComma(r) { StrNoComma("CAST", Group(body, r)); }
    assert suffix + Print(Nil) == suffix;
    hide Full, Count, NoComma;
    CastGrouped("CAST", "(", Print(body), Print(r));
    assert "CAST" + "(" == "CAST(";
  }

  lemma CastGrouped(f: string, o: string, x: string, r: string)
    ensures f + (o + x + ")" + r) == (f + o) + x + ")" + r
  {
    ConcatAssociates(f, o + x + ")", r);
    ConcatAssociates(f, o + x, ")");
    ConcatAssociates(f, o, x);
  }

  /** The suffixes begin with a space and end in no underscore. */
  lemma CastFits(x: Frags, suffix: string, r: Frags, u: nat)
    requires Fits(x, 0) && Fits(r, 0)
    requires |suffix| >= 2 && suffix[0] == ' ' && Plain(suffix) && suffix[|suffix| - 1] != '_'
    ensures Fits(CastAs(x, suffix, r), u)
  {
    StrFits(suffix[1..], Nil, 0);
    AppendFits(x, ' ', Str(suffix[1..], Nil), 0);
    StrFits("CAST", Group(Append(x, Str(suffix, Nil)), r), u);
  }

  lemma IfCount(x: Frags, y: Frags, z: Frags, r: Frags, tag: Tag)
    ensures Tally(tag, IfNotNull(x, y, z, r)) == Tally(tag, x) + Tally(tag, y) + Tally(tag, z) + Tally(tag, r)
    ensures Print(IfNotNull(x, y, z, r))
         == "IF" + ("(" + (Print(x) + (" IS NOT NULL, " + (Print(y) + (", " + Print(z))))) + ")" + Print(r))
  {
    var b3 := Str(", ", z);
    var b2 := Append(y, b3);
    var b1 := Str(" IS NOT NULL, ", b2);
    StrFacts("IF", Group(Append(x, b1), r), tag);
    AppendFacts(x, b1, tag);
    StrFacts(" IS NOT NULL, ", b2, tag);
    AppendFacts(y, b3, tag);
    StrFacts(", ", z, tag);
  }

  lemma IfFacts(x: Frags, y: Frags, z: Frags, r: Frags, tag: Tag)
    ensures Print(IfNotNull(x, y, z, r))
         == ("IF(" + Print(x) + " IS NOT NULL, " + Print(y) + ", " + Print(z) + ")") + Print(r)
    ensures Tally(tag, IfNotNull(x, y, z, r)) == Tally(tag, x) + Tally(tag, y) + Tally(tag, z) + Tally(tag, r)
  {
    IfCount(x, y, z, r, tag);
    IfText("IF", "(", Print(x), " IS NOT NULL, ", Print(y), ", ", Print(z), ")", Print(r));
    assert "IF" + "(" == "IF(";
  }

  lemma IfText(f: string, o: string, x: string, l2: string, y: string, l3: string, z: string, c: string, r: string)
    ensures f + (o + (x + (l2 + (y + (l3 + z)))) + c + r) == ((f + o) + x + l2 + y + l3 + z + c) + r
  {
    var b := x + (l2 + (y + (l3 + z)));
    assert b == x + l2 + y + l3 + z;
    assert f + (o + b + c + r) == (f + o) + b + c + r;
    assert (f + o) + b == (f + o) + x + l2 + y + l3 + z;
  }

  lemma IfFull(x: Frags, y: Frags, z: Frags, r: Frags)
    ensures Full(IfNotNull(x, y, z, r)) == IfNotNull(Full(x), Full(y), Full(z), Full(r))
  {
    var b3 := Str(", ", z);
    var b2 := Append(y, b3);
    var b1 := Str(" IS NOT NULL, ", b2);
    StrFacts("IF", Group(Append(x, b1), r), ANY);
    AppendFull(x, b1);
    StrFacts(" IS NOT NULL, ", b2, ANY);
    AppendFull(y, b3);
    StrFacts(", ", z, ANY);
  }

  lemma IfFits(x: Frags, y: Frags, z: Frags, r: Frags, u: nat)
    requires Fits(x, 0) && Fits(y, 0) && Fits(z, 0) && Fits(r, 0)
    ensures Fits(IfNotNull(x, y, z, r), u)
  {
    var b3 := Str(", ", z);
    SpacedFits(y, ", ", z);
    SpacedFits(x, " IS NOT NULL, ", Append(y, b3));
    StrFits("IF", Group(Append(x, Str(" IS NOT NULL, ", Append(y, b3))), r), u);
  }

  /** Joining with a separator text. */
  lemma SpacedFits(x: Frags, w: string, r: Frags)
    requires Fits(x, 0) && Fits(r, 0) && |w| >= 2 && Plain(w) && w[0] != '_' && w[|w| - 1] != '_'
    ensures Fits(Append(x, Str(w, r)), 0)
  {
    StrFits(w[1..], r, 0);
    AppendFits(x, w[0], Str(w[1..], r), 0);
  }

  lemma AddFacts(p: Frags, n: Frags, d: Frags, r: Frags, tag: Tag)
    ensures Print(AddInterval(p, n, d, r))
         == ("(CAST(" + Print(d) + " AS DATE) + interval (" + Print(n) + ") " + Print(p) + ")") + Print(r)
    ensures Tally(tag, AddInterval(p, n, d, r)) == Tally(tag, p) + Tally(tag, n) + Tally(tag, d) + Tally(tag, r)
  {
    var g := Group(n, Char(' ', p));
    var t := Str(" + interval ", g);
    CastFacts(d, " AS DATE", t, tag);
    StrFacts(" + interval ", g, tag);
    AddText(Print(d), Print(n), Print(p), Print(r));
  }

  lemma AddText(d: string, n: string, p: string, r: string)
    ensures "(" + ("CAST(" + (d + " AS DATE") + ")" + (" + interval " + ("(" + n + ")" + ([' '] + p)))) + ")" + r
         == ("(CAST(" + d + " AS DATE) + interval (" + n + ") " + p + ")") + r
  {
    assert "(CAST(" == "(" + "CAST(";
    assert " AS DATE) + interval (" == " AS DATE" + ")" + " + interval " + "(";
    assert ") " == ")" + [' '];
  }

  lemma AddFull(p: Frags, n: Frags, d: Frags, r: Frags)
    ensures Full(AddInterval(p, n, d, r)) == AddInterval(Full(p), Full(n), Full(d), Full(r))
  {
    var g := Group(n, Char(' ', p));
    CastFacts(d, " AS DATE", Str(" + interval ", g), ANY);
    StrFacts(" + interval ", g, ANY);
  }

  lemma CastDateFits(x: Frags, r: Frags, u: nat)
    requires Fits(x, 0) && Fits(r, 0)
    ensures Fits(CastAs(x, " AS DATE", r), u)
  {
    CastFits(x, " AS DATE", r, u);
  }

  lemma AddBodyFits(p: Frags, n: Frags, d: Frags, t: Frags)
    requires Fits(p, 0) && Fits(n, 0) && Fits(d, 0) && Fits(t, 0)
    requires t == Str(" + interval ", Group(n, Char(' ', p)))
    ensures Fits(AddBody(p, n, d), 0)
  {
    CastDateFits(d, t, 0);
    assert AddBody(p, n, d) == CastAs(d, " AS DATE", t);
  }

  lemma IntervalFits(p: Frags, n: Frags)
    requires Fits(p, 0) && Fits(n, 0)
    ensures Fits(Str(" + interval ", Group(n, Char(' ', p))), 0)
  {
    StrFits(" + interval ", Group(n, Char(' ', p)), 0);
  }

  lemma AddFits(p: Frags, n: Frags, d: Frags, r: Frags, u: nat)
    requires u < 2 && Fits(p, 0) && Fits(n, 0) && Fits(d, 0) && Fits(r, 0)
    ensures Fits(AddInterval(p, n, d, r), u)
  {
    IntervalFits(p, n);
    AddBodyFits(p, n, d, Str(" + interval ", Group(n, Char(' ', p))));
  }

  lemma DiffFacts(p: Frags, x: Frags, y: Frags, r: Frags, tag: Tag)
    ensures Print(DiffDates(p, x, y, r))
         == ("DATE_DIFF('" + Print(p) + "', CAST(" + Print(x) + " AS DATE), CAST(" + Print(y) + " AS DATE))") + Print(r)
    ensures Tally(tag, DiffDates(p, x, y, r)) == Tally(tag, p) + Tally(tag, x) + Tally(tag, y) + Tally(tag, r)
  {
    var c2 := CastAs(y, " AS DATE", Nil);
    var c1 := CastAs(x, " AS DATE", Str(", ", c2));
    var t := Char('\'', Str(", ", c1));
    CastFacts(y, " AS DATE", Nil, tag);
    StrFacts(", ", c2, tag);
    CastFacts(x, " AS DATE", Str(", ", c2), tag);
    StrFacts(", ", c1, tag);
    AppendFacts(p, t, tag);
    StrFacts("DATE_DIFF", Group(DiffBody(p, x, y), r), tag);
    DiffText(Print(p), Print(x), Print(y), Print(r));
  }

  lemma DiffShape(f: string, o: string, q: string, c: string, k: string, v: string, e: string,
                  p: string, x: string, y: string, r: string)
    ensures f + (o + (q + (p + (q + (c + (k + (x + v) + e + (c + (k + (y + v) + e + ""))))))) + e + r)
         == ((f + o + q) + p + (q + c + k) + x + (v + e + c + k) + y + (v + e + e)) + r
  {
    var t := k + (y + v) + e + "";
    var b := q + (p + (q + (c + (k + (x + v) + e + (c + t)))));
    assert t == k + y + v + e;
    assert b == q + p + q + c + k + x + v + e + c + t;
    assert f + (o + b + e + r) == f + o + b + e + r;
    assert f + o + b + e == (f + o + q) + p + (q + c + k) + x + (v + e + c + k) + y + (v + e + e);
  }

  lemma DiffText(p: string, x: string, y: string, r: string)
    ensures "DATE_DIFF" + ("(" + ("'" + (p + ("'" + (", " + ("CAST(" + (x + " AS DATE") + ")"
              + (", " + ("CAST(" + (y + " AS DATE") + ")" + ""))))))) + ")" + r)
         == ("DATE_DIFF('" + p + "', CAST(" + x + " AS DATE), CAST(" + y + " AS DATE))") + r
  {
    DiffShape("DATE_DIFF", "(", "'", ", ", "CAST(", " AS DATE", ")", p, x, y, r);
    assert "DATE_DIFF('" == "DATE_DIFF" + "(" + "'";
    assert "', CAST(" == "'" + ", " + "CAST(";
    assert " AS DATE), CAST(" == " AS DATE" + ")" + ", " + "CAST(";
    assert " AS DATE))" == " AS DATE" + ")" + ")";
  }

  lemma DiffFull(p: Frags, x: Frags, y: Frags, r: Frags)
    ensures Full(DiffDates(p, x, y, r)) == DiffDates(Full(p), Full(x), Full(y), Full(r))
  {
    var c2 := CastAs(y, " AS DATE", Nil);
    var c1 := CastAs(x, " AS DATE", Str(", ", c2));
    CastFacts(y, " AS DATE", Nil, ANY);
    StrFacts(", ", c2, ANY);
    CastFacts(x, " AS DATE", Str(", ", c2), ANY);
    StrFacts(", ", c1, ANY);
    AppendFull(p, Char('\'', Str(", ", c1)));
    StrFacts("DATE_DIFF", Group(DiffBody(p, x, y), r), ANY);
  }

  lemma DiffFits(p: Frags, x: Frags, y: Frags, r: Frags, u: nat)
    requires Fits(p, 0) && Fits(x, 0) && Fits(y, 0) && Fits(r, 0)
    ensures Fits(DiffDates(p, x, y, r), u)
  {
    var c2 := CastAs(y, " AS DATE", Nil);
    var c1 := CastAs(x, " AS DATE", Str(", ", c2));
    CastFits(y, " AS DATE", Nil, 0);
    StrFits(", ", c2, 0);
    CastDateFits(x, Str(", ", c2), 0);
    StrFits(", ", c1, 0);
    AppendFits(p, '\'', Str(", ", c1), 0);
    StrFits("DATE_DIFF", Group(DiffBody(p, x, y), r), u);
  }

  // ------------------------------------------------------------- the translated call

  lemma FullNil(fs: Frags)
    ensures Full(fs) == Nil <==> fs == Nil
  {
    if fs.Call? { TemplateSolid(fs.m, FullArgs(fs.args), Full(fs.rest)); }
  }

  /** Translating the arguments changes neither their number nor their order. */
  lemma {:induction false} FullArgSeq(a: Args)
    ensures |ArgSeq(FullArgs(a))| == |ArgSeq(a)|
    ensures forall i :: 0 <= i < |ArgSeq(a)| ==> ArgSeq(FullArgs(a))[i] == Full(ArgSeq(a)[i])
  {
    FullNil(a.arg);
    hide Full;
    if a.More? { FullArgSeq(a.others); }
  }

  lemma FirstOfSeq(a: Args)
    requires ArgSeq(a) != []
    ensures ArgSeq(a)[0] == a.arg
  {
  }

  lemma {:induction false} ArgSeqFits(a: Args)
    requires FitArgs(a)
    ensures forall i :: 0 <= i < |ArgSeq(a)| ==> Fits(ArgSeq(a)[i], 0) && NoComma(ArgSeq(a)[i])
  {
    if a.More? { ArgSeqFits(a.others); }
  }

  function TallySeq(t: Tag, xs: seq<Frags>): nat { if xs == [] then 0 else Tally(t, xs[0]) + TallySeq(t, xs[1..]) }

  lemma {:induction false} ArgSeqTally(t: Tag, a: Args)
    ensures TallySeq(t, ArgSeq(a)) == TallyArgs(t, a)
  {
    match a
    case One(x) =>
      assert [x][1..] == [];
    case More(x, o) =>
      ArgSeqTally(t, o);
      assert ArgSeq(a)[1..] == ArgSeq(o);
  }

  lemma TallyOfThree(t: Tag, xs: seq<Frags>)
    requires |xs| == 3
    ensures TallySeq(t, xs) == Tally(t, xs[0]) + Tally(t, xs[1]) + Tally(t, xs[2])
  {
    assert xs[1..][0] == xs[1] && xs[1..][1..] == [xs[2]];
    assert TallySeq(t, [xs[2]]) == Tally(t, xs[2]) + TallySeq(t, [xs[2]][1..]);
  }

  /** What a replaced call leaves of its arguments: everything, or nothing. */
  lemma TemplateTally(m: Marker, a: Args, r: Frags, t: Tag)
    requires ArgsFit(m, a) && Counted(m, a)
    ensures Tally(t, Template(m, a, r)) == (if Discards(m) then 0 else TallyArgs(t, a)) + Tally(t, r)
  {
    hide PartFits, Str, Append;
    if NeedsThree(m) {
      FirstOfSeq(a);
      ArgSeqTally(t, a);
      TallyOfThree(t, ArgSeq(a));
      hide Tally, TallyArgs, TallySeq, ArgSeq, BuildThree, TrimFrags;
      ThreeTally(m, ArgSeq(a)[0], ArgSeq(a)[1], ArgSeq(a)[2], r, t);
    } else {
      match m
      case CurrentTimestamp => StrFacts("CURRENT_TIMESTAMP", r, t);
      case CurrentDate => StrFacts("CURRENT_DATE", r, t);
      case ToVariant =>
        JoinFacts(a, t);
        CastFacts(JoinArgs(a), " AS JSON", r, t);
      case ParseJson =>
        JoinFacts(a, t);
        CastFacts(JoinArgs(a), " AS JSON", r, t);
    }
  }

  lemma ThreeTally(m: Marker, x: Frags, y: Frags, z: Frags, r: Frags, t: Tag)
    requires NeedsThree(m) && (m != Nvl2 ==> PartFits(x))
    ensures Tally(t, BuildThree(m, FirstArg(m, x), TrimFrags(y), TrimFrags(z), r)) == Tally(t, x) + Tally(t, y) + Tally(t, z) + Tally(t, r)
  {
    TrimFacts(x, t);
    UnquoteFacts(x, t);
    TrimFacts(y, t);
    TrimFacts(z, t);
    match m
    case Nvl2 => IfCount(TrimFrags(x), TrimFrags(y), TrimFrags(z), r, t);
    case DateAdd => AddFacts(Unquote(x), TrimFrags(y), TrimFrags(z), r, t);
    case DateDiff => DiffFacts(Unquote(x), TrimFrags(y), TrimFrags(z), r, t);
  }

  lemma TemplateFits(m: Marker, a: Args, r: Frags, u: nat)
    requires u < 2 && ArgsFit(m, a) && FitArgs(a) && Fits(r, 0)
    ensures Fits(Template(m, a, r), u)
  {
    if !NeedsThree(m) {
      JoinFacts(a, ANY);
      OtherFits(m, JoinArgs(a), r, u);
    } else if Counted(m, a) {
      var x, y, z := ArgSeq(a)[0], ArgSeq(a)[1], ArgSeq(a)[2];
      ArgSeqFits(a);
      TrimFacts(x, ANY);
      UnquoteFacts(x, ANY);
      TrimFacts(y, ANY);
      TrimFacts(z, ANY);
      ThreeFits(m, FirstArg(m, x), TrimFrags(y), TrimFrags(z), r, u);
    }
  }

  lemma ThreeFits(m: Marker, x: Frags, y: Frags, z: Frags, r: Frags, u: nat)
    requires u < 2 && NeedsThree(m) && Fits(x, 0) && Fits(y, 0) && Fits(z, 0) && Fits(r, 0)
    ensures Fits(BuildThree(m, x, y, z, r), u)
  {
    if m == Nvl2 {
      IfFits(x, y, z, r, u);
      assert BuildThree(m, x, y, z, r) == IfNotNull(x, y, z, r);
    } else if m == DateAdd {
      AddFits(x, y, z, r, u);
      assert BuildThree(m, x, y, z, r) == AddInterval(x, y, z, r);
    } else {
      DiffFits(x, y, z, r, u);
      assert BuildThree(m, x, y, z, r) == DiffDates(x, y, z, r);
    }
  }

  lemma OtherFits(m: Marker, x: Frags, r: Frags, u: nat)
    requires !NeedsThree(m) && Fits(x, 0) && Fits(r, 0)
    ensures Fits(BuildOther(m, x, r), u)
  {
    match m
    case CurrentTimestamp => StrFits("CURRENT_TIMESTAMP", r, u);
    case CurrentDate => StrFits("CURRENT_DATE", r, u);
    case ToVariant => CastFits(x, " AS JSON", r, u);
    case ParseJson => CastFits(x, " AS JSON", r, u);
  }

  lemma TemplateNoComma(m: Marker, a: Args, r: Frags)
    requires NoComma(r)
    ensures NoComma(Template(m, a, r))
  {
    hide JoinArgs, TrimFrags, Str;
    if !NeedsThree(m) {
      match m
      case CurrentTimestamp => StrNoComma("CURRENT_TIMESTAMP", r);
      case CurrentDate => StrNoComma("CURRENT_DATE", r);
      case ToVariant => CastFacts(JoinArgs(a), " AS JSON", r, ANY);
      case ParseJson => CastFacts(JoinArgs(a), " AS JSON", r, ANY);
    } else if Counted(m, a) {
      var x, y, z := FirstArg(m, ArgSeq(a)[0]), TrimFrags(ArgSeq(a)[1]), TrimFrags(ArgSeq(a)[2]);
      match m
      case Nvl2 => StrNoComma("IF", Group(Append(x, Str(" IS NOT NULL, ", Append(y, Str(", ", z)))), r));
      case DateAdd =>
      case DateDiff => StrNoComma("DATE_DIFF", Group(DiffBody(x, y, z), r));
    }
  }

  /** Translating what a replaced call leaves is translating its arguments first. */
  lemma TemplateFull(m: Marker, a: Args, r: Frags)
    requires ArgsFit(m, a)
    ensures Full(Template(m, a, r)) == Template(m, FullArgs(a), Full(r))
  {
    FullArgSeq(a);
    if !NeedsThree(m) {
      JoinFacts(a, ANY);
      TemplateFullOther(m, JoinArgs(a), r);
    } else if Counted(m, a) {
      FirstOfSeq(a);
      TemplateFullThree(m, ArgSeq(a)[0], ArgSeq(a)[1], ArgSeq(a)[2], r);
    }
  }

  lemma TemplateFullOther(m: Marker, x: Frags, r: Frags)
    requires !NeedsThree(m)
    ensures Full(BuildOther(m, x, r)) == BuildOther(m, Full(x), Full(r))
  {
    match m
    case CurrentTimestamp => StrFacts("CURRENT_TIMESTAMP", r, ANY);
    case CurrentDate => StrFacts("CURRENT_DATE", r, ANY);
    case ToVariant => CastFacts(x, " AS JSON", r, ANY);
    case ParseJson => CastFacts(x, " AS JSON", r, ANY);
  }

  lemma TemplateFullThree(m: Marker, x: Frags, y: Frags, z: Frags, r: Frags)
    requires NeedsThree(m) && (m != Nvl2 ==> PartFits(x))
    ensures Full(BuildThree(m, FirstArg(m, x), TrimFrags(y), TrimFrags(z), r))
         == BuildThree(m, FirstArg(m, Full(x)), TrimFrags(Full(y)), TrimFrags(Full(z)), Full(r))
  {
    TrimFull(x);
    TrimFull(y);
    TrimFull(z);
    if m != Nvl2 { UnquoteFull(x); }
    match m
    case Nvl2 => IfFull(TrimFrags(x), TrimFrags(y), TrimFrags(z), r);
    case DateAdd => AddFull(Unquote(x), TrimFrags(y), TrimFrags(z), r);
    case DateDiff => DiffFull(Unquote(x), TrimFrags(y), TrimFrags(z), r);
  }

  function PrintSeq(xs: seq<Frags>): seq<string> { seq(|xs|, i requires 0 <= i < |xs| => Print(xs[i])) }

  /** The text of a replaced call is the text the program puts there. */
  lemma TemplatePrint(m: Marker, a: Args, r: Frags)
    requires SplitArgs(PrintArgs(a), 0, 0, 0) == PrintSeq(ArgSeq(a))
    ensures Print(Template(m, a, r)) == Transform(m, PrintArgs(a)) + Print(r)
  {
    if !Counted(m, a) {
      hide SplitArgs, Transform;
      TransformUnless(m, PrintArgs(a));
    } else if NeedsThree(m) {
      TemplatePrintThree(m, a, ArgSeq(a)[0], ArgSeq(a)[1], ArgSeq(a)[2], r);
    } else {
      JoinFacts(a, ANY);
      match m
      case CurrentTimestamp => StrFacts("CURRENT_TIMESTAMP", r, ANY);
      case CurrentDate => StrFacts("CURRENT_DATE", r, ANY);
      case ToVariant => CastPrint(a, r);
      case ParseJson => CastPrint(a, r);
    }
  }

  lemma CastPrint(a: Args, r: Frags)
    ensures Print(CastAs(JoinArgs(a), " AS JSON", r)) == ("CAST(" + PrintArgs(a) + " AS JSON)") + Print(r)
  {
    JoinFacts(a, ANY);
    CastFacts(JoinArgs(a), " AS JSON", r, ANY);
    CastText("CAST(", PrintArgs(a), " AS JSON", ")", Print(r));
    assert " AS JSON" + ")" == " AS JSON)";
  }

  lemma CastText(f: string, x: string, v: string, c: string, r: string)
    ensures f + (x + v) + c + r == (f + x + (v + c)) + r
  {
    assert f + (x + v) == f + x + v;
    assert f + x + v + c == f + x + (v + c);
  }

  lemma TemplatePrintThree(m: Marker, a: Args, x: Frags, y: Frags, z: Frags, r: Frags)
    requires NeedsThree(m) && SplitArgs(PrintArgs(a), 0, 0, 0) == [Print(x), Print(y), Print(z)]
    ensures Print(BuildThree(m, FirstArg(m, x), TrimFrags(y), TrimFrags(z), r))
         == Transform(m, PrintArgs(a)) + Print(r)
  {
    hide SplitArgs, PrintArgs, TrimFrags, Unquote, Print, IfNotNull, AddInterval, DiffDates, Trim, UnquoteDatePart;
    TrimFacts(x, ANY);
    UnquoteFacts(x, ANY);
    TrimFacts(y, ANY);
    TrimFacts(z, ANY);
    if m == Nvl2 {
      IfFacts(TrimFrags(x), TrimFrags(y), TrimFrags(z), r, ANY);
    } else if m == DateAdd {
      AddFacts(Unquote(x), TrimFrags(y), TrimFrags(z), r, ANY);
    } else {
      DiffFacts(Unquote(x), TrimFrags(y), TrimFrags(z), r, ANY);
    }
  }

  // ------------------------------------------------------------- reading the printed text

  lemma ArgsParts(s: string, a: nat, x: Frags, o: Args)
    requires Holds(s, a, PrintArgs(More(x, o)))
    ensures Holds(s, a, Print(x)) && s[a + |Print(x)|] == ',' && Holds(s, a + |Print(x)| + 1, PrintArgs(o))
    ensures |PrintArgs(More(x, o))| == |Print(x)| + 1 + |PrintArgs(o)|
  {
    HoldsSplit(s, a, Print(x) + ",", PrintArgs(o));
    HoldsSplit(s, a, Print(x), ",");
    HoldsAt(s, a + |Print(x)|, ",", 0);
  }

  lemma WordPlain(m: Marker)
    ensures Plain(Word(m)) && ',' !in Word(m)
  {
  }

  /** From depth d, the text x comes back to depth zero at its end and never goes below it;
      `bare` says that it has no comma at depth zero. */
  predicate Level(x: string, d: nat, bare: bool) {
    if x == "" then d == 0
    else if x[0] == '(' then Level(x[1..], d + 1, bare)
    else if x[0] == ')' then d > 0 && Level(x[1..], d - 1, bare)
    else (x[0] == ',' && bare ==> d > 0) && Level(x[1..], d, bare)
  }

  lemma {:induction false} LevelConcat(x: string, y: string, d: nat, e: nat, inner: bool, bare: bool)
    requires Level(x, d, inner) && Level(y, e, bare) && (bare && e == 0 ==> inner)
    ensures Level(x + y, d + e, bare)
  {
    if x == "" {
      assert x + y == y;
    } else {
      assert (x + y)[1..] == x[1..] + y;
      LevelConcat(x[1..], y, if x[0] == '(' then d + 1 else if x[0] == ')' then d - 1 else d, e, inner, bare);
    }
  }

  lemma {:induction false} LevelPlain(w: string)
    requires Plain(w) && ',' !in w
    ensures Level(w, 0, true)
  {
    if w != "" { LevelPlain(w[1..]); }
  }

  /** A parenthesized text and what follows it. */
  lemma LevelParens(x: string, y: string, bare: bool)
    requires Level(x, 0, false) && Level(y, 0, bare)
    ensures Level("(" + x + ")" + y, 0, bare)
  {
    assert (")" + y)[1..] == y;
    assert Level(")" + y, 1, bare);
    LevelConcat(x, ")" + y, 0, 1, false, bare);
    var t := "(" + x + ")" + y;
    assert t[1..] == x + (")" + y);
  }

  /** The text of a nest is level. */
  lemma {:induction false} LevelNest(fs: Frags, u: nat, bare: bool)
    requires Fits(fs, u) && (bare ==> NoComma(fs))
    ensures Level(Print(fs), 0, bare)
    decreases fs, 0
  {
    match fs
    case Nil =>
    case Char(c, r) =>
      LevelNest(r, if c == '_' then u + 1 else 0, bare);
      assert ([c] + Print(r))[1..] == Print(r);
    case Group(b, r) =>
      LevelNest(b, 0, false);
      LevelNest(r, 0, bare);
      LevelParens(Print(b), Print(r), bare);
    case Call(m, x, r) =>
      LevelArgs(x);
      LevelNest(r, 0, bare);
      WordPlain(m);
      LevelCall(Word(m), PrintArgs(x), Print(r), bare);
  }

  lemma LevelCall(w: string, x: string, y: string, bare: bool)
    requires Plain(w) && ',' !in w && Level(x, 0, false) && Level(y, 0, bare)
    ensures Level(w + "(" + x + ")" + y, 0, bare)
  {
    LevelParens(x, y, bare);
    LevelPlain(w);
    LevelConcat(w, "(" + x + ")" + y, 0, 0, true, bare);
    assert w + "(" + x + ")" + y == w + ("(" + x + ")" + y);
  }

  lemma {:induction false} LevelArgs(x: Args)
    requires FitArgs(x)
    ensures Level(PrintArgs(x), 0, false)
    decreases x, 0
  {
    match x
    case One(y) => LevelNest(y, 0, false);
    case More(y, o) =>
      LevelNest(y, 0, false);
      LevelArgs(o);
      LevelConcat(Print(y), ",", 0, 0, false, false);
      LevelConcat(Print(y) + ",", PrintArgs(o), 0, 0, false, false);
  }

  /** The scan for the closing parenthesis passes over level text. */
  lemma {:induction false} CloseOver(s: string, i: nat, x: string, d: nat, depth: nat, bare: bool)
    requires Holds(s, i, x) && Level(x, d, bare) && depth > 0
    ensures CloseFrom(s, i, depth + d) == CloseFrom(s, i + |x|, depth)
    decreases |x|
  {
    hide Holds;
    if x != "" {
      HoldsAt(s, i, x, 0);
      assert x == [x[0]] + x[1..];
      HoldsSplit(s, i, [x[0]], x[1..]);
      CloseOver(s, i + 1, x[1..], if x[0] == '(' then d + 1 else if x[0] == ')' then d - 1 else d, depth, bare);
    }
  }

  /** The split at commas passes over level text without a bare comma. */
  lemma {:induction false} SplitOver(s: string, start: nat, i: nat, x: string, d: nat)
    requires start <= i && Holds(s, i, x) && Level(x, d, true)
    ensures SplitArgs(s, start, i, d) == SplitArgs(s, start, i + |x|, 0)
    decreases |x|
  {
    if x != "" {
      HoldsAt(s, i, x, 0);
      assert x == [x[0]] + x[1..];
      HoldsSplit(s, i, [x[0]], x[1..]);
      SplitOver(s, start, i + 1, x[1..], if x[0] == '(' then d + 1 else if x[0] == ')' then d - 1 else d);
    }
  }

  /** One argument, up to the comma after it. */
  lemma SplitOne(s: string, a: nat, x: Frags)
    requires Holds(s, a, Print(x)) && Fits(x, 0) && NoComma(x)
    requires a + |Print(x)| < |s| && s[a + |Print(x)|] == ','
    ensures var j := a + |Print(x)| + 1; SplitArgs(s, a, a, 0) == [Print(x)] + SplitArgs(s, j, j, 0)
  {
    LevelNest(x, 0, true);
    SplitOver(s, a, a, Print(x), 0);
  }

  lemma SplitLast(s: string, a: nat, x: Frags)
    requires Holds(s, a, Print(x)) && Fits(x, 0) && NoComma(x) && x != Nil
    requires a + |Print(x)| == |s|
    ensures SplitArgs(s, a, a, 0) == [Print(x)]
  {
    LevelNest(x, 0, true);
    SplitOver(s, a, a, Print(x), 0);
    assert s[a..] == s[a..a + |Print(x)|];
  }

  /** The printed arguments split into the texts of the arguments. */
  lemma {:induction false} SplitSeq(s: string, i: nat, a: Args)
    requires FitArgs(a) && Holds(s, i, PrintArgs(a)) && i + |PrintArgs(a)| == |s|
    ensures SplitArgs(s, i, i, 0) == PrintSeq(ArgSeq(a))
    decreases a
  {
    match a
    case One(x) =>
      if x != Nil { SplitLast(s, i, x); }
    case More(x, o) =>
      ArgsParts(s, i, x, o);
      hide Holds;
      SplitOne(s, i, x);
      assert FitArgs(o);
      hide SplitArgs, Fits, NoComma, Print, PrintArgs, FitArgs;
      SplitSeq(s, i + |Print(x)| + 1, o);
      assert PrintSeq(ArgSeq(a)) == [Print(x)] + PrintSeq(ArgSeq(o));
  }

  // ------------------------------------------------------------- the first marked call

  predicate EndsWith(x: string, w: string) { |w| <= |x| && x[|x| - |w|..] == w }

  /** Reading x after pre, no opening parenthesis comes right after the word w. */
  predicate Clear(w: string, pre: string, x: string)
    decreases |x|
  {
    x == "" || ((x[0] == '(' ==> !EndsWith(pre, w)) && Clear(w, pre + [x[0]], x[1..]))
  }

  function Trail(x: string): nat {
    if x != "" && x[|x| - 1] == '_' then Trail(x[..|x| - 1]) + 1 else 0
  }

  lemma TrailNext(x: string, c: char)
    ensures Trail(x + [c]) == if c == '_' then Trail(x) + 1 else 0
  {
    assert (x + [c])[..|x|] == x;
  }

  lemma {:induction false} ClearConcat(w: string, pre: string, x: string, y: string)
    requires Clear(w, pre, x) && Clear(w, pre + x, y)
    ensures Clear(w, pre, x + y)
    decreases |x|
  {
    if x == "" {
      assert x + y == y && pre + x == pre;
    } else {
      assert (x + y)[1..] == x[1..] + y;
      assert pre + x == pre + [x[0]] + x[1..];
      ClearConcat(w, pre + [x[0]], x[1..], y);
    }
  }

  lemma {:induction false} ClearPlain(w: string, pre: string, x: string)
    requires Plain(x)
    ensures Clear(w, pre, x)
    decreases |x|
  {
    if x != "" { ClearPlain(w, pre + [x[0]], x[1..]); }
  }

  lemma {:induction false} ClearAt(w: string, pre: string, x: string, p: nat)
    requires Clear(w, pre, x) && p < |x| && x[p] == '('
    ensures !EndsWith(pre + x[..p], w)
    decreases p
  {
    if p == 0 {
      assert pre + x[..0] == pre;
    } else {
      ClearAt(w, pre + [x[0]], x[1..], p - 1);
      assert pre + [x[0]] + x[1..][..p - 1] == pre + x[..p];
    }
  }

  /** No marker word ends another: they differ three characters from the end. */
  lemma WordsDiffer(k: Marker, m: Marker, pre: string)
    requires k != m
    ensures !EndsWith(pre + Word(k), Word(m))
  {
    var x, w := pre + Word(k), Word(m);
    ThirdLast(k);
    ThirdLast(m);
    assert x[|x| - 3] == Word(k)[|Word(k)| - 3];
    if |w| <= |x| {
      assert x[|x| - |w|..][|w| - 3] == x[|x| - 3];
    }
  }

  lemma ThirdLast(m: Marker)
    ensures Word(m)[|Word(m)| - 3] == match m
      case CurrentTimestamp => 'P'
      case CurrentDate => 'E'
      case ToVariant => 'T'
      case ParseJson => 'N'
      case Nvl2 => '2'
      case DateAdd => 'D'
      case DateDiff => 'F'
  {
  }

  lemma NoWordBefore(pre: string, m: Marker)
    requires Trail(pre) < 2
    ensures !EndsWith(pre, Word(m))
  {
    var w := Word(m);
    if |w| <= |pre| {
      var e := pre[|pre| - |w|..];
      assert e[|w| - 1] == pre[|pre| - 1] && e[|w| - 2] == pre[|pre| - 2];
      assert pre[..|pre| - 1][|pre| - 2] == pre[|pre| - 2];
    }
  }

  lemma ClearOpen(m: Marker, pre: string, x: string)
    requires !EndsWith(pre, Word(m)) && Clear(Word(m), pre + "(", x)
    ensures Clear(Word(m), pre, "(" + x)
  {
    assert ("(" + x)[1..] == x;
  }

  lemma ClearClosed(m: Marker, pre: string, x: string, y: string)
    requires Clear(Word(m), pre, "(" + x) && Clear(Word(m), pre + ("(" + x + ")"), y)
    ensures Clear(Word(m), pre, "(" + x + ")" + y)
  {
    assert Clear(Word(m), pre + ("(" + x), ")");
    ClearConcat(Word(m), pre, "(" + x, ")");
    ClearConcat(Word(m), pre, "(" + x + ")", y);
  }

  lemma TrailParen(pre: string, x: string)
    ensures Trail(pre + ("(" + x + ")")) == 0
    ensures Trail(pre + "(") == 0
  {
    var t := pre + ("(" + x + ")");
    assert t[|t| - 1] == ')';
  }

  /** Without calls of m, nothing in a nest reads as one. */
  lemma {:induction false} ClearNest(m: Marker, pre: string, fs: Frags)
    requires Fits(fs, Trail(pre)) && Count(m, fs) == 0
    ensures Clear(Word(m), pre, Print(fs))
    decreases fs, 0
  {
    match fs
    case Nil =>
    case Char(c, r) =>
      TrailNext(pre, c);
      ClearNest(m, pre + [c], r);
      assert ([c] + Print(r))[1..] == Print(r);
    case Group(b, r) =>
      TrailParen(pre, Print(b));
      NoWordBefore(pre, m);
      ClearNest(m, pre + "(", b);
      ClearOpen(m, pre, Print(b));
      ClearNest(m, pre + ("(" + Print(b) + ")"), r);
      ClearClosed(m, pre, Print(b), Print(r));
    case Call(k, a, r) =>
      ClearCallHead(m, k, pre, a);
      TrailParen(pre + Word(k), PrintArgs(a));
      var next := pre + Word(k) + ("(" + PrintArgs(a) + ")");
      ClearNest(m, next, r);
      ClearCallTail(m, k, pre, PrintArgs(a), Print(r));
  }

  lemma {:induction false} ClearCallHead(m: Marker, k: Marker, pre: string, a: Args)
    requires k != m && FitArgs(a) && CountArgs(m, a) == 0
    ensures Clear(Word(m), pre + Word(k), "(" + PrintArgs(a))
    decreases a, 1
  {
    WordsDiffer(k, m, pre);
    TrailParen(pre + Word(k), "");
    ClearArgs(m, pre + Word(k) + "(", a);
    ClearOpen(m, pre + Word(k), PrintArgs(a));
  }

  lemma ClearCallTail(m: Marker, k: Marker, pre: string, x: string, y: string)
    requires Clear(Word(m), pre + Word(k), "(" + x)
    requires Clear(Word(m), pre + Word(k) + ("(" + x + ")"), y)
    ensures Clear(Word(m), pre, Word(k) + "(" + x + ")" + y)
  {
    ClearClosed(m, pre + Word(k), x, y);
    WordPlain(k);
    ClearPlain(Word(m), pre, Word(k));
    ClearConcat(Word(m), pre, Word(k), "(" + x + ")" + y);
    assert Word(k) + "(" + x + ")" + y == Word(k) + ("(" + x + ")" + y);
  }

  lemma {:induction false} ClearArgs(m: Marker, pre: string, a: Args)
    requires FitArgs(a) && CountArgs(m, a) == 0 && Trail(pre) == 0
    ensures Clear(Word(m), pre, PrintArgs(a))
    decreases a, 0
  {
    match a
    case One(x) => ClearNest(m, pre, x);
    case More(x, o) =>
      ClearNest(m, pre, x);
      ClearPlain(Word(m), pre + Print(x), ",");
      ClearConcat(Word(m), pre, Print(x), ",");
      TrailNext(pre + Print(x), ',');
      ConcatAssociates(pre, Print(x), ",");
      ClearArgs(m, pre + (Print(x) + ","), o);
      ClearConcat(Word(m), pre, Print(x) + ",", PrintArgs(o));
  }

  /** A marked call's arguments as the program will split them. */
  predicate Splits(m: Marker, args: string) {
    NeedsThree(m) ==> |SplitArgs(args, 0, 0, 0)| == 3
  }

  lemma ArgsSplit(m: Marker, a: Args)
    requires FitArgs(a)
    ensures (Splits(m, PrintArgs(a)) <==> Counted(m, a)) && Level(PrintArgs(a), 0, false)
    ensures SplitArgs(PrintArgs(a), 0, 0, 0) == PrintSeq(ArgSeq(a))
  {
    LevelArgs(a);
    var s := PrintArgs(a);
    assert s[0..|s|] == s;
    SplitSeq(s, 0, a);
  }

  /** The leftmost call of m has the right number of arguments. */
  predicate FirstCounted(m: Marker, fs: Frags)
    requires Count(m, fs) > 0
  {
    match fs
    case Char(c, r) => FirstCounted(m, r)
    case Group(b, r) => if Count(m, b) > 0 then FirstCounted(m, b) else FirstCounted(m, r)
    case Call(k, a, r) =>
      if k == m then Counted(m, a)
      else if CountArgs(m, a) > 0 then FirstCountedArg(m, a)
      else FirstCounted(m, r)
  }

  predicate FirstCountedArg(m: Marker, a: Args)
    requires CountArgs(m, a) > 0
  {
    match a
    case One(x) => FirstCounted(m, x)
    case More(x, o) => if Count(m, x) > 0 then FirstCounted(m, x) else FirstCountedArg(m, o)
  }

  /** The text as `before` marked call `after`, where the call is the first that reads as one,
      and the text with that call replaced. */
  ghost predicate FirstCall(m: Marker, pre: string, text: string, next: string,
                            before: string, args: string, after: string) {
    && text == before + (Word(m) + "(" + args + ")") + after
    && next == before + Transform(m, args) + after
    && Level(args, 0, false)
    && Clear(Word(m), pre, before)
  }

  lemma FirstCallAfter(m: Marker, pre: string, x: string, text: string, next: string,
                       before: string, args: string, after: string)
    requires FirstCall(m, pre + x, text, next, before, args, after) && Clear(Word(m), pre, x)
    ensures FirstCall(m, pre, x + text, x + next, x + before, args, after)
  {
    ClearConcat(Word(m), pre, x, before);
    Prepend(x, before, Word(m) + "(" + args + ")", after);
    Prepend(x, before, Transform(m, args), after);
  }

  lemma Prepend(x: string, a: string, b: string, c: string)
    ensures x + (a + b + c) == (x + a) + b + c
  {
    assert x + (a + b + c) == x + a + b + c;
  }

  lemma FirstCallBefore(m: Marker, pre: string, y: string, text: string, next: string,
                        before: string, args: string, after: string)
    requires FirstCall(m, pre, text, next, before, args, after)
    ensures FirstCall(m, pre, text + y, next + y, before, args, after + y)
  {
    ConcatAssociates(before + (Word(m) + "(" + args + ")"), after, y);
    ConcatAssociates(before + Transform(m, args), after, y);
  }

  /** Replacing the first call in the nest is replacing the first call in its text. */
  lemma {:induction false} FindFirst(m: Marker, pre: string, fs: Frags)
    returns (before: string, args: string, after: string)
    requires Fits(fs, Trail(pre)) && Count(m, fs) > 0
    ensures FirstCall(m, pre, Print(fs), Print(ReplaceFirst(m, fs)), before, args, after)
    ensures Splits(m, args) <==> FirstCounted(m, fs)
    decreases fs, 1
  {
    match fs
    case Char(c, r) =>
      TrailNext(pre, c);
      var b, a, z := FindFirst(m, pre + [c], r);
      before, args, after := [c] + b, a, z;
      CharClear(m, pre, c, fs);
      FirstCallAfter(m, pre, [c], Print(r), Print(ReplaceFirst(m, r)), b, a, z);
    case Group(x, r) =>
      TrailParen(pre, Print(x));
      NoWordBefore(pre, m);
      if Count(m, x) > 0 {
        var b, a, z := FindFirst(m, pre + "(", x);
        before, args, after := "(" + b, a, z + (")" + Print(r));
        ClearOpen(m, pre, "");
        FirstCallAfter(m, pre, "(", Print(x), Print(ReplaceFirst(m, x)), b, a, z);
        var tail := ")" + Print(r);
        FirstCallBefore(m, pre, tail, "(" + Print(x), "(" + Print(ReplaceFirst(m, x)), "(" + b, a, z);
        ConcatAssociates("(" + Print(x), ")", Print(r));
        ConcatAssociates("(" + Print(ReplaceFirst(m, x)), ")", Print(r));
      } else {
        var head := "(" + Print(x) + ")";
        ClearNest(m, pre + "(", x);
        ClearOpen(m, pre, Print(x));
        HeadClear(m, pre, Print(x));
        var b, a, z := FindFirst(m, pre + head, r);
        before, args, after := head + b, a, z;
        FirstCallAfter(m, pre, head, Print(r), Print(ReplaceFirst(m, r)), b, a, z);
      }
    case Call(k, x, r) =>
      if k == m {
        before, args, after := "", PrintArgs(x), Print(r);
        ArgsSplit(m, x);
        TemplatePrint(m, x, r);
        HereFirst(m, pre, PrintArgs(x), Print(r), Print(ReplaceFirst(m, fs)));
      } else {
        before, args, after := FindInCall(m, pre, k, x, r);
      }
  }

  lemma CharClear(m: Marker, pre: string, c: char, fs: Frags)
    requires fs.Char? && fs.c == c && c != '('
    ensures Clear(Word(m), pre, [c])
  {
  }

  lemma HeadClear(m: Marker, pre: string, x: string)
    requires Clear(Word(m), pre, "(" + x)
    ensures Clear(Word(m), pre, "(" + x + ")")
  {
    assert Clear(Word(m), pre + ("(" + x), ")");
    ClearConcat(Word(m), pre, "(" + x, ")");
  }

  lemma HereFirst(m: Marker, pre: string, args: string, after: string, next: string)
    requires Level(args, 0, false) && next == Transform(m, args) + after
    ensures FirstCall(m, pre, Word(m) + "(" + args + ")" + after, next, "", args, after)
  {
    assert "" + (Word(m) + "(" + args + ")") == Word(m) + "(" + args + ")";
    assert "" + Transform(m, args) == Transform(m, args);
  }

  lemma OpenClear(m: Marker, k: Marker, pre: string)
    requires k != m
    ensures Clear(Word(m), pre, Word(k) + "(") && Trail(pre + (Word(k) + "(")) == 0
  {
    WordPlain(k);
    ClearPlain(Word(m), pre, Word(k));
    WordsDiffer(k, m, pre);
    ClearOpen(m, pre + Word(k), "");
    assert "(" + "" == "(";
    ClearConcat(Word(m), pre, Word(k), "(");
    TrailParen(pre + Word(k), "");
    ConcatAssociates(pre, Word(k), "(");
  }

  lemma {:induction false} FindInCall(m: Marker, pre: string, k: Marker, x: Args, r: Frags)
    returns (before: string, args: string, after: string)
    requires k != m && FitArgs(x) && Fits(r, 0) && CountArgs(m, x) + Count(m, r) > 0
    ensures var fs := Call(k, x, r);
            FirstCall(m, pre, Print(fs), Print(ReplaceFirst(m, fs)), before, args, after)
            && (Splits(m, args) <==> FirstCounted(m, fs))
    decreases Call(k, x, r), 0
  {
    if CountArgs(m, x) > 0 {
      var open := Word(k) + "(";
      OpenClear(m, k, pre);
      var b, a, z := FindInArgs(m, pre + open, x);
      before, args, after := InsideCall(m, pre, open, PrintArgs(x), PrintArgs(ReplaceFirstArg(m, x)), Print(r), b, a, z);
    } else {
      var head := Word(k) + "(" + PrintArgs(x) + ")";
      CallClear(m, pre, k, x);
      var b, a, z := FindFirst(m, pre + head, r);
      FirstCallAfter(m, pre, head, Print(r), Print(ReplaceFirst(m, r)), b, a, z);
      before, args, after := head + b, a, z;
    }
  }

  lemma InsideCall(m: Marker, pre: string, open: string, x: string, y: string, r: string,
                   b: string, a: string, z: string)
    returns (before: string, args: string, after: string)
    requires Clear(Word(m), pre, open) && FirstCall(m, pre + open, x, y, b, a, z)
    ensures FirstCall(m, pre, open + x + ")" + r, open + y + ")" + r, before, args, after) && args == a
  {
    var tail := ")" + r;
    FirstCallAfter(m, pre, open, x, y, b, a, z);
    FirstCallBefore(m, pre, tail, open + x, open + y, open + b, a, z);
    ConcatAssociates(open + x, ")", r);
    ConcatAssociates(open + y, ")", r);
    before, args, after := open + b, a, z + tail;
  }

  lemma CallClear(m: Marker, pre: string, k: Marker, x: Args)
    requires k != m && FitArgs(x) && CountArgs(m, x) == 0
    ensures var head := Word(k) + "(" + PrintArgs(x) + ")";
            Clear(Word(m), pre, head) && Trail(pre + head) == 0
  {
    ClearCallHead(m, k, pre, x);
    ClearEmptyTail(m, k, pre, PrintArgs(x));
    TrailClosed(pre, Word(k) + "(" + PrintArgs(x));
  }

  lemma TrailClosed(pre: string, x: string)
    ensures Trail(pre + (x + ")")) == 0
  {
    var t := pre + (x + ")");
    assert t[|t| - 1] == ')';
  }

  lemma ClearEmptyTail(m: Marker, k: Marker, pre: string, x: string)
    requires Clear(Word(m), pre + Word(k), "(" + x)
    ensures Clear(Word(m), pre, Word(k) + "(" + x + ")")
  {
    ClearCallTail(m, k, pre, x, "");
    var head := Word(k) + "(" + x + ")";
    assert head + "" == head;
  }

  lemma {:induction false} FindInArgs(m: Marker, pre: string, x: Args)
    returns (before: string, args: string, after: string)
    requires FitArgs(x) && CountArgs(m, x) > 0 && Trail(pre) == 0
    ensures FirstCall(m, pre, PrintArgs(x), PrintArgs(ReplaceFirstArg(m, x)), before, args, after)
    ensures Splits(m, args) <==> FirstCountedArg(m, x)
    decreases x, 1
  {
    match x
    case One(y) =>
      before, args, after := FindFirst(m, pre, y);
    case More(y, o) =>
      if Count(m, y) > 0 {
        var b, a, z := FindFirst(m, pre, y);
        var tail := "," + PrintArgs(o);
        FirstCallBefore(m, pre, tail, Print(y), Print(ReplaceFirst(m, y)), b, a, z);
        ConcatAssociates(Print(y), ",", PrintArgs(o));
        ConcatAssociates(Print(ReplaceFirst(m, y)), ",", PrintArgs(o));
        before, args, after := b, a, z + tail;
      } else {
        var head := Print(y) + ",";
        ClearNest(m, pre, y);
        ClearPlain(Word(m), pre + Print(y), ",");
        ClearConcat(Word(m), pre, Print(y), ",");
        TrailNext(pre + Print(y), ',');
        ConcatAssociates(pre, Print(y), ",");
        var b, a, z := FindInArgs(m, pre + head, o);
        FirstCallAfter(m, pre, head, PrintArgs(o), PrintArgs(ReplaceFirstArg(m, o)), b, a, z);
        before, args, after := head + b, a, z;
      }
  }

  // ------------------------------------------------------------- one turn of the loop

  lemma CallSlices(text: string, before: string, call: string, args: string, after: string)
    requires text == before + (call + args + ")") + after
    ensures var start := |before| + |call|; var e := start + |args|;
            && Holds(text, |before|, call) && Holds(text, start, args)
            && e < |text| && text[e] == ')' && text[e + 1..] == after && text[..|before|] == before
            && text[start..e] == args
  {
    var start := |before| + |call|;
    var t := call + args + ")";
    assert text[|before|..|before| + |t|] == t;
    assert text == before + call + args + (")" + after);
    assert text == (before + call + args + ")") + after;
  }

  lemma SplicedIs(m: Marker, text: string, idx: nat, start: nat, end: nat, before: string, args: string, after: string)
    requires idx <= start < end <= |text| && text[..idx] == before && text[start..end - 1] == args && text[end..] == after
    ensures Spliced(m, text, idx, start, end) == before + Transform(m, args) + after
  {
  }

  /** The turn of the loop on a text whose first call is known. */
  lemma TurnAt(m: Marker, text: string, next: string, before: string, args: string, after: string)
    requires FirstCall(m, "", text, next, before, args, after)
    ensures HasCall(m, text) && (WrongCount(m, text) <==> !Splits(m, args)) && Next(m, text) == next
  {
    TurnShape(m, text, before, args, after);
    SplicedIs(m, text, CallAt(m, text), ArgsStart(m, text), CloseFrom(text, ArgsStart(m, text), 1), before, args, after);
  }

  lemma TurnShape(m: Marker, text: string, before: string, args: string, after: string)
    requires text == before + (Word(m) + "(" + args + ")") + after
    requires Level(args, 0, false) && Clear(Word(m), "", before)
    ensures HasCall(m, text) && CallArgs(m, text) == args
    ensures text[..CallAt(m, text)] == before && text[CloseFrom(text, ArgsStart(m, text), 1)..] == after
  {
    hide Level, Clear, CloseFrom;
    var call := Word(m) + "(";
    CallSlices(text, before, call, args, after);
    FirstIs(m, text, before);
    var start := |before| + |call|;
    CloseAfter(text, start, args);
    assert ArgsStart(m, text) == start;
  }

  lemma CloseAfter(text: string, start: nat, args: string)
    requires Holds(text, start, args) && Level(args, 0, false)
    requires start + |args| < |text| && text[start + |args|] == ')'
    ensures CloseFrom(text, start, 1) == start + |args| + 1
  {
    CloseOver(text, start, args, 0, 1, false);
  }

  /** A text that starts clear of the word holds no call in that part. */
  lemma NoCallBefore(m: Marker, x: string, text: string, j: nat)
    requires Clear(Word(m), "", x) && x <= text && j + |Word(m)| < |x|
    ensures !Holds(text, j, Word(m) + "(")
  {
    var w := Word(m);
    var p := j + |w|;
    if Holds(text, j, w + "(") {
      HoldsSplit(text, j, w, "(");
      HoldsAt(text, p, "(", 0);
      assert x[p] == text[p];
      assert "" + x[..p] == text[..p];
      assert text[..p][j..] == text[j..p];
      ClearAt(w, "", x, p);
    }
  }

  lemma FirstIs(m: Marker, text: string, before: string)
    requires Holds(text, |before|, Word(m) + "(") && before <= text && Clear(Word(m), "", before)
    ensures CallAt(m, text) == |before|
  {
    var w := Word(m);
    var head := before + w;
    WordPlain(m);
    hide Word, Clear;
    ClearPlain(w, "" + before, w);
    ClearConcat(w, "", before, w);
    HoldsSplit(text, |before|, w, "(");
    assert text[..|before|] == before;
    assert text[..|head|] == text[..|before|] + text[|before|..|head|];
    forall j | 0 <= j < |before|
      ensures !Holds(text, j, w + "(")
    {
      NoCallBefore(m, head, text, j);
    }
  }

  lemma NoCall(m: Marker, text: string)
    requires Clear(Word(m), "", text)
    ensures !HasCall(m, text)
  {
    var j := CallAt(m, text);
    if j < |text| && j + |Word(m)| < |text| {
      NoCallBefore(m, text, text, j);
    }
  }

  // ------------------------------------------------------------- what replacing keeps

  lemma {:induction false} LeadReplaced(m: Marker, fs: Frags)
    requires Count(m, fs) > 0 && !QuoteFirst(TrimLead(fs))
    ensures !QuoteFirst(TrimLead(ReplaceFirst(m, fs)))
  {
    hide Template, CountArgs, ReplaceFirstArg;
    match fs
    case Char(c, r) => if IsSpace(c) { LeadReplaced(m, r); }
    case Group(b, r) =>
    case Call(k, a, r) => TemplateSolid(m, a, r);
  }

  lemma {:induction false} NoCallsTally(t: Tag, fs: Frags)
    requires NoCalls(fs)
    ensures Tally(t, fs) == 0
  {
    match fs
    case Nil =>
    case Char(c, r) => NoCallsTally(t, r);
    case Group(b, r) => NoCallsTally(t, b); NoCallsTally(t, r);
  }

  /** Replacing the first call keeps the nest fitting and its meaning. */
  lemma {:induction false} ReplaceKeeps(m: Marker, fs: Frags, u: nat)
    requires Fits(fs, u) && Count(m, fs) > 0
    ensures var t := ReplaceFirst(m, fs);
            Fits(t, u) && t != Nil && Full(t) == Full(fs) && (NoComma(fs) ==> NoComma(t))
    decreases fs, 0
  {
    match fs
    case Char(c, r) => ReplaceKeeps(m, r, if c == '_' then u + 1 else 0);
    case Group(b, r) => if Count(m, b) > 0 { ReplaceKeeps(m, b, 0); } else { ReplaceKeeps(m, r, 0); }
    case Call(j, a, r) =>
      if j == m {
        TemplateFits(m, a, r, u);
        TemplateSolid(m, a, r);
        TemplateFull(m, a, r);
        if NoComma(r) { TemplateNoComma(m, a, r); }
      } else if CountArgs(m, a) > 0 {
        ReplaceArgKeeps(m, a);
        ArgsStillFit(m, j, a);
      } else {
        ReplaceKeeps(m, r, 0);
      }
  }

  lemma {:induction false} ReplaceArgKeeps(m: Marker, a: Args)
    requires FitArgs(a) && CountArgs(m, a) > 0
    ensures var t := ReplaceFirstArg(m, a); FitArgs(t) && FullArgs(t) == FullArgs(a)
    decreases a, 0
  {
    match a
    case One(x) => ReplaceKeeps(m, x, 0);
    case More(x, o) => if Count(m, x) > 0 { ReplaceKeeps(m, x, 0); } else { ReplaceArgKeeps(m, o); }
  }

  /** What one replacement does to a tally: a counted call of m goes, with its arguments if it
      discards them, and miscounted calls outside discarded arguments are neither lost nor made. */
  predicate Dwindles(m: Marker, t: Tag, before: nat, after: nat) {
    && after <= before && (t == Marked(m) ==> after < before) && (t.Miscount? && !t.everywhere ==> after == before)
  }

  lemma {:induction false} ReplaceTallies(m: Marker, fs: Frags, u: nat, t: Tag)
    requires Fits(fs, u) && Count(m, fs) > 0 && FirstCounted(m, fs)
    ensures Dwindles(m, t, Tally(t, fs), Tally(t, ReplaceFirst(m, fs)))
    decreases fs, 1
  {
    hide Template, ArgsFit;
    match fs
    case Char(c, r) => ReplaceTallies(m, r, if c == '_' then u + 1 else 0, t);
    case Group(b, r) => if Count(m, b) > 0 { ReplaceTallies(m, b, 0, t); } else { ReplaceTallies(m, r, 0, t); }
    case Call(j, a, r) => ReplaceCallTallies(m, j, a, r, t);
  }

  lemma {:induction false} ReplaceCallTallies(m: Marker, j: Marker, a: Args, r: Frags, t: Tag)
    requires ArgsFit(j, a) && FitArgs(a) && Fits(r, 0) && Count(m, Call(j, a, r)) > 0 && FirstCounted(m, Call(j, a, r))
    ensures var f := Call(j, a, r); Dwindles(m, t, Tally(t, f), Tally(t, ReplaceFirst(m, f)))
    decreases Call(j, a, r), 0
  {
    hide Template, ArgsFit, Fits, FitArgs;
    TallyCall(Marked(m), j, a, r);
    TallyCall(t, j, a, r);
    ReplaceCallIs(m, j, a, r);
    if j == m {
      TemplateTally(m, a, r, t);
    } else if CountArgs(m, a) > 0 {
      ReplaceArgTallies(m, a, t);
      ReplacedArgSeq(m, a);
      TallyCall(t, j, ReplaceFirstArg(m, a), r);
    } else {
      ReplaceTallies(m, r, 0, t);
      TallyCall(t, j, a, ReplaceFirst(m, r));
    }
  }

  lemma TallyCall(t: Tag, k: Marker, a: Args, r: Frags)
    ensures Tally(t, Call(k, a, r)) == Weight(t, k, a) + (if Enters(t, k) then TallyArgs(t, a) else 0) + Tally(t, r)
  {
    hide TallyArgs, Weight;
  }

  lemma ReplaceCallIs(m: Marker, j: Marker, a: Args, r: Frags)
    requires Count(m, Call(j, a, r)) > 0
    ensures var f := Call(j, a, r);
            if j == m then ReplaceFirst(m, f) == Template(m, a, r) && FirstCounted(m, f) == Counted(m, a)
            else if CountArgs(m, a) > 0 then
              ReplaceFirst(m, f) == Call(j, ReplaceFirstArg(m, a), r) && FirstCounted(m, f) == FirstCountedArg(m, a)
            else Count(m, r) > 0 && ReplaceFirst(m, f) == Call(j, a, ReplaceFirst(m, r)) && FirstCounted(m, f) == FirstCounted(m, r)
  {
    hide Template, TallyArgs, ReplaceFirstArg, FirstCountedArg, Counted;
    TallyCall(Marked(m), j, a, r);
  }

  lemma {:induction false} ReplaceArgTallies(m: Marker, a: Args, t: Tag)
    requires FitArgs(a) && CountArgs(m, a) > 0 && FirstCountedArg(m, a)
    ensures Dwindles(m, t, TallyArgs(t, a), TallyArgs(t, ReplaceFirstArg(m, a)))
    decreases a, 0
  {
    match a
    case One(x) => ReplaceTallies(m, x, 0, t);
    case More(x, o) => if Count(m, x) > 0 { ReplaceTallies(m, x, 0, t); } else { ReplaceArgTallies(m, o, t); }
  }

  lemma ReplacedNil(m: Marker, fs: Frags)
    requires Count(m, fs) > 0
    ensures fs != Nil && ReplaceFirst(m, fs) != Nil
  {
    if fs.Call? { TemplateSolid(m, fs.args, fs.rest); }
  }

  /** The number of arguments of a call stays when one of them changes. */
  lemma {:induction false} ReplacedArgSeq(m: Marker, a: Args)
    requires CountArgs(m, a) > 0
    ensures |ArgSeq(ReplaceFirstArg(m, a))| == |ArgSeq(a)|
  {
    match a
    case One(x) => ReplacedNil(m, x);
    case More(x, o) => if Count(m, x) == 0 { ReplacedArgSeq(m, o); }
  }

  lemma ArgsStillFit(m: Marker, j: Marker, a: Args)
    requires CountArgs(m, a) > 0 && ArgsFit(j, a)
    ensures ArgsFit(j, ReplaceFirstArg(m, a))
  {
    if (j == DateAdd || j == DateDiff) && Count(m, a.arg) > 0 { PartStillFits(m, a.arg); }
  }

  lemma PartStillFits(m: Marker, x: Frags)
    requires Count(m, x) > 0 && PartFits(x)
    ensures PartFits(ReplaceFirst(m, x))
  {
    if NoCalls(x) { NoCallsTally(Marked(m), x); } else { LeadReplaced(m, x); }
  }

  /** A leftmost call that is miscounted is one of the miscounted calls. */
  lemma {:induction false} FirstMiscounted(m: Marker, fs: Frags)
    requires Count(m, fs) > 0 && !FirstCounted(m, fs)
    ensures Tally(Miscount(m, true), fs) > 0
    decreases fs
  {
    match fs
    case Char(c, r) => FirstMiscounted(m, r);
    case Group(b, r) => if Count(m, b) > 0 { FirstMiscounted(m, b); } else { FirstMiscounted(m, r); }
    case Call(k, a, r) =>
      if k != m {
        if CountArgs(m, a) > 0 { FirstMiscountedArg(m, a); } else { FirstMiscounted(m, r); }
      }
  }

  lemma {:induction false} FirstMiscountedArg(m: Marker, a: Args)
    requires CountArgs(m, a) > 0 && !FirstCountedArg(m, a)
    ensures TallyArgs(Miscount(m, true), a) > 0
    decreases a
  {
    match a
    case One(x) => FirstMiscounted(m, x);
    case More(x, o) => if Count(m, x) > 0 { FirstMiscounted(m, x); } else { FirstMiscountedArg(m, o); }
  }

  /** There are no more miscounted calls of a kind than calls of it. */
  lemma {:induction false} MiscountedCalls(m: Marker, fs: Frags)
    ensures Tally(Miscount(m, false), fs) <= Count(m, fs)
    decreases fs
  {
    match fs
    case Nil =>
    case Char(c, r) => MiscountedCalls(m, r);
    case Group(b, r) => MiscountedCalls(m, b); MiscountedCalls(m, r);
    case Call(k, a, r) => MiscountedArgs(m, a); MiscountedCalls(m, r);
  }

  lemma {:induction false} MiscountedArgs(m: Marker, a: Args)
    ensures TallyArgs(Miscount(m, false), a) <= CountArgs(m, a)
    decreases a
  {
    match a
    case One(x) => MiscountedCalls(m, x);
    case More(x, o) => MiscountedCalls(m, x); MiscountedArgs(m, o);
  }

  // ------------------------------------------------------------- the theorem

  /** What passes do to all tallies. */
  ghost predicate Dwindled(fs: Frags, t: Frags) {
    forall tag: Tag :: Tally(tag, t) <= Tally(tag, fs) && (tag.Miscount? && !tag.everywhere ==> Tally(tag, t) == Tally(tag, fs))
  }

  /** The turn of the loop at the leftmost call of m. */
  lemma FirstTurn(m: Marker, fs: Frags)
    requires Fits(fs, 0) && Count(m, fs) > 0
    ensures HasCall(m, Print(fs)) && (WrongCount(m, Print(fs)) <==> !FirstCounted(m, fs))
    ensures Next(m, Print(fs)) == Print(ReplaceFirst(m, fs))
    ensures FirstCounted(m, fs) ==> Expand(m, Print(fs)) == Expand(m, Print(ReplaceFirst(m, fs)))
  {
    var before, args, after := FindFirst(m, "", fs);
    TurnAt(m, Print(fs), Print(ReplaceFirst(m, fs)), before, args, after);
    hide Next, HasCall, WrongCount, Fits;
  }

  lemma ReplaceDwindles(m: Marker, fs: Frags)
    requires Fits(fs, 0) && Count(m, fs) > 0 && FirstCounted(m, fs)
    ensures Dwindled(fs, ReplaceFirst(m, fs)) && Count(m, ReplaceFirst(m, fs)) < Count(m, fs)
  {
    ReplaceTallies(m, fs, 0, Marked(m));
    forall tag: Tag
      ensures Dwindles(m, tag, Tally(tag, fs), Tally(tag, ReplaceFirst(m, fs)))
    {
      ReplaceTallies(m, fs, 0, tag);
    }
  }

  /** One pass on the text of a nest without miscounted calls of the marker stops, at the text of
      a nest with the same meaning and no call of that marker. */
  lemma {:induction false} PassStops(m: Marker, fs: Frags) returns (t: Frags)
    requires Fits(fs, 0) && Tally(Miscount(m, true), fs) == 0
    ensures Expand(m, Print(fs)) == Stops(Print(t))
    ensures Fits(t, 0) && Full(t) == Full(fs) && Count(m, t) == 0 && Dwindled(fs, t)
    decreases Count(m, fs)
  {
    if Count(m, fs) == 0 {
      t := fs;
      ClearNest(m, "", fs);
      NoCall(m, Print(fs));
    } else {
      if !FirstCounted(m, fs) { FirstMiscounted(m, fs); }
      FirstTurn(m, fs);
      ReplaceDwindles(m, fs);
      ReplaceKeeps(m, fs, 0);
      assert Tally(Miscount(m, true), ReplaceFirst(m, fs)) == 0;
      hide Tally, Fits, Full;
      t := PassStops(m, ReplaceFirst(m, fs));
    }
  }

  /** With a miscounted call of the marker, anywhere but in discarded arguments, it does not. */
  lemma {:induction false} PassForever(m: Marker, fs: Frags)
    requires Fits(fs, 0) && Tally(Miscount(m, false), fs) > 0
    ensures Expand(m, Print(fs)) == Forever
    decreases Count(m, fs)
  {
    MiscountedCalls(m, fs);
    FirstTurn(m, fs);
    if FirstCounted(m, fs) {
      ReplaceDwindles(m, fs);
      ReplaceKeeps(m, fs, 0);
      assert Tally(Miscount(m, false), ReplaceFirst(m, fs)) > 0;
      hide Tally, Fits, Full;
      PassForever(m, ReplaceFirst(m, fs));
    }
  }

  lemma {:induction false} PassesStop(ms: seq<Marker>, fs: Frags) returns (t: Frags)
    requires Fits(fs, 0) && forall k :: Tally(Miscount(k, true), fs) == 0
    ensures ExpandAll(ms, Print(fs)) == Stops(Print(t))
    ensures Fits(t, 0) && Full(t) == Full(fs) && Dwindled(fs, t)
    ensures forall k :: k in ms ==> Count(k, t) == 0
  {
    hide Tally, Fits, Full;
    if ms == [] {
      t := fs;
    } else {
      var first := PassStops(ms[0], fs);
      t := PassesStop(ms[1..], first);
      forall k | k in ms
        ensures Count(k, t) == 0
      {
        if k != ms[0] { assert k in ms[1..]; }
        assert Tally(Marked(k), t) <= Tally(Marked(k), first);
      }
    }
  }

  lemma {:induction false} NothingLeft(fs: Frags)
    requires forall k :: Count(k, fs) == 0
    ensures NoCalls(fs)
  {
    match fs
    case Nil =>
    case Char(c, r) =>
      forall k ensures Count(k, r) == 0 { assert Count(k, fs) == 0; }
      NothingLeft(r);
    case Group(b, r) =>
      forall k ensures Count(k, b) == 0 && Count(k, r) == 0 { assert Count(k, fs) == 0; }
      NothingLeft(b);
      NothingLeft(r);
    case Call(m, a, r) =>
      var c := Count(m, fs);
      assert false;
  }

  /** No call at all has the wrong number of arguments. */
  ghost predicate AllCounted(fs: Frags) { forall k :: Tally(Miscount(k, true), fs) == 0 }

  /** For every fitting nest of marked calls with the right numbers of arguments and every order
      of the passes, the repeated first-match expansion stops, and stops at the text of the
      recursive translation, in which no marked call is left. */
  lemma ExpansionIsTranslation(ms: seq<Marker>, fs: Frags)
    requires Fits(fs, 0) && AllCounted(fs) && forall k: Marker :: k in ms
    ensures ExpandAll(ms, Print(fs)) == Stops(Print(Full(fs)))
    ensures NoCalls(Full(fs))
  {
    var t := PassesStop(ms, fs);
    NothingLeft(t);
    NoCallsFull(t);
  }

  // ------------------------------------------------------------- exactly when it stops

  /** A three-argument call, not inside arguments that the translation discards, splits into a
      number of arguments other than three. */
  predicate Miscounted(fs: Frags) {
    match fs
    case Nil => false
    case Char(c, r) => Miscounted(r)
    case Group(b, r) => Miscounted(b) || Miscounted(r)
    case Call(k, a, r) => !Counted(k, a) || (!Discards(k) && MiscountedArg(a)) || Miscounted(r)
  }

  predicate MiscountedArg(a: Args) {
    match a
    case One(x) => Miscounted(x)
    case More(x, o) => Miscounted(x) || MiscountedArg(o)
  }

  lemma {:induction false} MiscountedTally(fs: Frags, k: Marker)
    ensures Tally(Miscount(k, false), fs) > 0 ==> Miscounted(fs) && NeedsThree(k)
    decreases fs
  {
    match fs
    case Nil =>
    case Char(c, r) => MiscountedTally(r, k);
    case Group(b, r) => MiscountedTally(b, k); MiscountedTally(r, k);
    case Call(j, a, r) => MiscountedArgTally(a, k); MiscountedTally(r, k);
  }

  lemma {:induction false} MiscountedArgTally(a: Args, k: Marker)
    ensures TallyArgs(Miscount(k, false), a) > 0 ==> MiscountedArg(a) && NeedsThree(k)
    decreases a
  {
    match a
    case One(x) => MiscountedTally(x, k);
    case More(x, o) => MiscountedTally(x, k); MiscountedArgTally(o, k);
  }

  lemma {:induction false} TallyMiscounted(fs: Frags) returns (k: Marker)
    requires Miscounted(fs)
    ensures Tally(Miscount(k, false), fs) > 0 && NeedsThree(k)
    decreases fs
  {
    match fs
    case Char(c, r) => k := TallyMiscounted(r);
    case Group(b, r) => if Miscounted(b) { k := TallyMiscounted(b); } else { k := TallyMiscounted(r); }
    case Call(j, a, r) =>
      if !Counted(j, a) { k := j; }
      else if !Discards(j) && MiscountedArg(a) { k := TallyMiscountedArg(a); }
      else { k := TallyMiscounted(r); }
  }

  lemma {:induction false} TallyMiscountedArg(a: Args) returns (k: Marker)
    requires MiscountedArg(a)
    ensures TallyArgs(Miscount(k, false), a) > 0 && NeedsThree(k)
    decreases a
  {
    match a
    case One(x) => k := TallyMiscounted(x);
    case More(x, o) => if Miscounted(x) { k := TallyMiscounted(x); } else { k := TallyMiscountedArg(o); }
  }

  /** Calls that take any number of arguments are never miscounted. */
  lemma {:induction false} NeverMiscounted(m: Marker, everywhere: bool, fs: Frags)
    requires !NeedsThree(m)
    ensures Tally(Miscount(m, everywhere), fs) == 0
    decreases fs
  {
    match fs
    case Nil =>
    case Char(c, r) => NeverMiscounted(m, everywhere, r);
    case Group(b, r) => NeverMiscounted(m, everywhere, b); NeverMiscounted(m, everywhere, r);
    case Call(k, a, r) => NeverMiscountedArg(m, everywhere, a); NeverMiscounted(m, everywhere, r);
  }

  lemma {:induction false} NeverMiscountedArg(m: Marker, everywhere: bool, a: Args)
    requires !NeedsThree(m)
    ensures TallyArgs(Miscount(m, everywhere), a) == 0
    decreases a
  {
    match a
    case One(x) => NeverMiscounted(m, everywhere, x);
    case More(x, o) => NeverMiscounted(m, everywhere, x); NeverMiscountedArg(m, everywhere, o);
  }

  /** Where nothing discards its arguments, all miscounted calls count. */
  lemma {:induction false} NothingDiscards(m: Marker, fs: Frags)
    requires Count(CurrentTimestamp, fs) == 0 && Count(CurrentDate, fs) == 0
    ensures Tally(Miscount(m, true), fs) == Tally(Miscount(m, false), fs)
    decreases fs
  {
    match fs
    case Nil =>
    case Char(c, r) => NothingDiscards(m, r);
    case Group(b, r) => NothingDiscards(m, b); NothingDiscards(m, r);
    case Call(k, a, r) => NothingDiscardsArg(m, a); NothingDiscards(m, r);
  }

  lemma {:induction false} NothingDiscardsArg(m: Marker, a: Args)
    requires CountArgs(CurrentTimestamp, a) == 0 && CountArgs(CurrentDate, a) == 0
    ensures TallyArgs(Miscount(m, true), a) == TallyArgs(Miscount(m, false), a)
    decreases a
  {
    match a
    case One(x) => NothingDiscards(m, x);
    case More(x, o) => NothingDiscards(m, x); NothingDiscardsArg(m, o);
  }

  /** Passes over a nest in which nothing discards its arguments any more. */
  lemma {:induction false} LaterPasses(ms: seq<Marker>, fs: Frags) returns (t: Frags)
    requires Fits(fs, 0) && Count(CurrentTimestamp, fs) == 0 && Count(CurrentDate, fs) == 0
    ensures (exists k :: k in ms && Tally(Miscount(k, false), fs) > 0) ==> ExpandAll(ms, Print(fs)) == Forever
    ensures !(exists k :: k in ms && Tally(Miscount(k, false), fs) > 0) ==>
              && ExpandAll(ms, Print(fs)) == Stops(Print(t))
              && Full(t) == Full(fs) && Dwindled(fs, t) && forall k :: k in ms ==> Count(k, t) == 0
  {
    hide Tally, Fits, Full;
    t := fs;
    if ms != [] {
      var m := ms[0];
      if Tally(Miscount(m, false), fs) > 0 {
        PassForever(m, fs);
      } else {
        NothingDiscards(m, fs);
        var first := PassStops(m, fs);
        Fewer(fs, first);
        t := LaterPasses(ms[1..], first);
        forall k
          ensures k in ms[1..] && Tally(Miscount(k, false), first) > 0 <==> k in ms && Tally(Miscount(k, false), fs) > 0 && (k == m ==> k in ms[1..])
        {
          assert k in ms <==> k == m || k in ms[1..];
          assert Tally(Miscount(k, false), first) == Tally(Miscount(k, false), fs);
        }
        forall k | k in ms && Dwindled(first, t)
          ensures k == m ==> Count(k, t) == 0
        {
          assert Tally(Marked(k), t) <= Tally(Marked(k), first);
        }
      }
    }
  }

  lemma Fewer(fs: Frags, t: Frags)
    requires Dwindled(fs, t)
    ensures forall k :: Count(k, t) <= Count(k, fs)
  {
    forall k
      ensures Count(k, t) <= Count(k, fs)
    {
      assert Tally(Marked(k), t) <= Tally(Marked(k), fs);
    }
  }

  /** For every fitting nest, the translator's passes run for ever exactly when some NVL2, DATEADD
      or DATEDIFF call, not inside the arguments of CURRENT_TIMESTAMP or CURRENT_DATE, has a number
      of arguments other than three. Otherwise they stop at the text of the recursive translation. */
  lemma ForeverIffMiscounted(fs: Frags)
    requires Fits(fs, 0)
    ensures ExpandAll(PASSES, Print(fs)) == Forever <==> Miscounted(fs)
    ensures !Miscounted(fs) ==> ExpandAll(PASSES, Print(fs)) == Stops(Print(Full(fs))) && NoCalls(Full(fs))
  {
    hide Tally, Fits, Full, Miscounted;
    NeverMiscounted(CurrentTimestamp, true, fs);
    var t1 := PassStops(CurrentTimestamp, fs);
    NeverMiscounted(CurrentDate, true, t1);
    var t2 := PassStops(CurrentDate, t1);
    Fewer(t1, t2);
    var rest := PASSES[2..];
    assert PASSES[1..][1..] == rest && PASSES[1..][0] == CurrentDate;
    assert ExpandAll(PASSES, Print(fs)) == ExpandAll(PASSES[1..], Print(t1)) == ExpandAll(rest, Print(t2));
    forall k
      ensures Tally(Miscount(k, false), t2) == Tally(Miscount(k, false), fs)
    {
      assert Tally(Miscount(k, false), t2) == Tally(Miscount(k, false), t1);
    }
    var t := LaterPasses(rest, t2);
    InRest();
    if Miscounted(fs) {
      var k := TallyMiscounted(fs);
      assert k in rest && Tally(Miscount(k, false), t2) > 0;
    } else {
      forall k
        ensures Tally(Miscount(k, false), t2) == 0
      {
        MiscountedTally(fs, k);
      }
      Fewer(t2, t);
      NothingLeft(t);
      NoCallsFull(t);
    }
  }

  lemma InRest()
    ensures forall k: Marker :: k in PASSES[2..] <==> !Discards(k)
  {
    var r := PASSES[2..];
    assert r == [ToVariant, ParseJson, Nvl2, DateAdd, DateDiff];
    assert r[0] == ToVariant && r[1] == ParseJson && r[2] == Nvl2 && r[3] == DateAdd && r[4] == DateDiff;
  }
}
