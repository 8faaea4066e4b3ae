/** Stored decimals are shown exactly as long as the browser writes their numbers as digits, so
    sorting what is shown sorts what is stored. */
module DecimalDisplay {
  import opened Text
  import opened Decimals
  import opened DecimalMeaning
  import DecimalTexts

  /** The number stored as an integer and a scale: value / 10^scale. */
  function Stored(value: int, scale: int): real {
    if value < 0 then -Scaled(Magnitude(value), -scale) else Scaled(Magnitude(value), -scale)
  }

  /** The browser writes numbers below 10^21 as digits. */
  predicate PlainText(shown: string) { shown != "" && AllDigits(shown) && |shown| <= MAX_SAFE }

  function Number(negative: bool, shown: string): int
    requires AllDigits(shown)
  {
    if negative then -(Value(shown) as int) else Value(shown)
  }

  // ------------------------------------------------------------- reading what is shown

  function Minus(negative: bool): string { if negative then "-" else "" }

  lemma ShownTrimmed(t: string)
    requires t != "" && (Digit(t[0]) || t[0] == '-') && Digit(t[|t| - 1])
    ensures Trim(t) == t
  {
    TrimPadded("", t, "");
    assert "" + t + "" == t;
  }

  lemma ReadPlain(negative: bool, w: string)
    requires AllDigits(w) && w != ""
    ensures Read(Minus(negative) + w) == Some(Parts(negative, w, "", 0))
  {
    var d := DecimalTexts.Written(Minus(negative), w, false, "", DecimalTexts.NoPower);
    NoDigits();
    assert "" + DecimalTexts.Print(d) + "" == Minus(negative) + w;
    hide Read, DecimalTexts.Print, AllDigits;
    DecimalTexts.ReadPrinted("", d, "");
  }

  lemma ReadPoint(negative: bool, w: string, f: string)
    requires AllDigits(w) && w != "" && AllDigits(f) && f != ""
    ensures Read(Minus(negative) + w + "." + f) == Some(Parts(negative, w, f, 0))
  {
    var d := DecimalTexts.Written(Minus(negative), w, true, f, DecimalTexts.NoPower);
    var m := Minus(negative) + w;
    ConcatAssociates(m, ".", f);
    assert "" + DecimalTexts.Print(d) + "" == m + ("." + f);
    hide Read, DecimalTexts.Print, AllDigits;
    DecimalTexts.ReadPrinted("", d, "");
  }

  lemma {:induction false} ZerosValue(n: nat, d: string)
    requires AllDigits(d)
    ensures AllDigits(Zeros(n) + d) && Value(Zeros(n) + d) == Value(d)
    decreases n
  {
    if n == 0 {
      assert Zeros(0) + d == d;
    } else {
      var z := Zeros(n) + d;
      assert z[0] == '0' && z[1..] == Zeros(n - 1) + d;
      ZerosValue(n - 1, d);
      ValueSplit(z);
    }
  }

  lemma PadStartMeans(d: string, n: nat)
    requires AllDigits(d)
    ensures AllDigits(PadStart(d, n)) && Value(PadStart(d, n)) == Value(d)
    ensures |PadStart(d, n)| == if |d| < n then n else |d|
  {
    hide Value;
    if |d| < n { ZerosValue(n - |d|, d); }
  }

  /** The parts a stored decimal is shown as. */
  lemma ShownParts(negative: bool, shown: string, scale: int)
    requires PlainText(shown)
    ensures var r := Read(FormatDecimal(negative, shown, scale));
            && r.Some? && r.value.exponent == 0 && r.value.negative == negative
            && |r.value.fraction| == (if scale <= 0 then 0 else scale)
            && AllDigits(r.value.whole + r.value.fraction) && Value(r.value.whole + r.value.fraction) == Value(shown)
            && |r.value.whole| <= |shown|
  {
    if scale <= 0 {
      ReadPlain(negative, shown);
      hide Read, Value;
      assert shown + "" == shown;
    } else {
      ShownPoint(negative, shown, scale);
    }
  }

  lemma ShownPoint(negative: bool, shown: string, scale: int)
    requires PlainText(shown) && scale > 0
    ensures var r := Read(FormatDecimal(negative, shown, scale));
            && r.Some? && r.value.exponent == 0 && r.value.negative == negative && |r.value.fraction| == scale
            && AllDigits(r.value.whole + r.value.fraction) && Value(r.value.whole + r.value.fraction) == Value(shown)
            && |r.value.whole| <= |shown|
  {
    var digits := PadStart(shown, scale + 1);
    PadStartMeans(shown, scale + 1);
    var cut := |digits| - scale;
    PointFormat(negative, shown, scale, digits, cut);
    CutDigits(digits, cut);
    var w, f := digits[..cut], digits[cut..];
    hide Read, Value, PadStart, FormatDecimal, Minus, AllDigits;
    ReadPoint(negative, w, f);
  }

  lemma CutDigits(digits: string, cut: nat)
    requires AllDigits(digits) && cut <= |digits|
    ensures AllDigits(digits[..cut]) && AllDigits(digits[cut..]) && digits[..cut] + digits[cut..] == digits
  {
  }

  lemma PointFormat(negative: bool, shown: string, scale: int, digits: string, cut: nat)
    requires scale > 0 && digits == PadStart(shown, scale + 1) && cut + scale == |digits|
    ensures FormatDecimal(negative, shown, scale) == Minus(negative) + digits[..cut] + "." + digits[cut..]
  {
    hide PadStart;
  }

  // ------------------------------------------------------------- what is shown denotes what is stored

  lemma ScaleApart(v: nat, scale: int)
    requires scale < 0
    ensures Scaled(v, 0) == Scaled(v, -scale) <==> v == 0
  {
    Pow10Monotone(1, -scale);
    var t := Pow10(-scale);
    assert t >= 10.0;
    hide Pow10;
    OneIsNot(v as real, t);
    assert Pow10(0) == 1.0 by { PowZero(); }
  }

  lemma PowZero()
    ensures Pow10(0) == 1.0
  {
  }

  lemma OneIsNot(v: real, t: real)
    requires t >= 10.0 && v >= 0.0
    ensures v * 1.0 == v * t <==> v == 0.0
  {
    if v > 0.0 { assert v * t >= v * 10.0; }
  }

  /** What is shown denotes value / 10^scale, unless the scale is negative and the value is not
      zero. */
  lemma FormatDenotes(negative: bool, shown: string, scale: int)
    requires PlainText(shown)
    ensures var r := Read(FormatDecimal(negative, shown, scale));
            r.Some? && (Denoted(r.value) == Stored(Number(negative, shown), scale) <==> scale >= 0 || Value(shown) == 0)
  {
    ShownParts(negative, shown, scale);
    hide Read, FormatDecimal, Value, Denoted, Stored, Number, AllDigits;
    PartsDenote(Read(FormatDecimal(negative, shown, scale)).value, negative, shown, scale);
  }

  lemma PartsDenote(p: Parts, negative: bool, shown: string, scale: int)
    requires AllDigits(p.whole) && AllDigits(p.fraction) && AllDigits(p.whole + p.fraction) && AllDigits(shown)
    requires p.exponent == 0 && p.negative == negative && Value(p.whole + p.fraction) == Value(shown)
    requires |p.fraction| == if scale <= 0 then 0 else scale
    ensures Denoted(p) == Stored(Number(negative, shown), scale) <==> scale >= 0 || Value(shown) == 0
  {
    hide Value, Scaled, Denoted, Stored, Number, AllDigits;
    DenotedSigned(p);
    StoredSigned(negative, shown, scale);
    if scale < 0 { ScaleApart(Value(shown), scale); }
  }

  function Signed(negative: bool, v: real): real { if negative then -v else v }

  lemma DenotedSigned(p: Parts)
    requires AllDigits(p.whole) && AllDigits(p.fraction)
    ensures AllDigits(p.whole + p.fraction)
    ensures Denoted(p) == Signed(p.negative, Scaled(Value(p.whole + p.fraction), p.exponent - |p.fraction|))
  {
    hide Scaled, Value;
  }

  lemma StoredSigned(negative: bool, shown: string, scale: int)
    requires AllDigits(shown)
    ensures Stored(Number(negative, shown), scale) == Signed(negative, Scaled(Value(shown), -scale))
  {
    hide Value, Pow10;
  }

  lemma PlainParses(t: string, p: Parts)
    requires Read(t) == Some(p) && p.exponent == 0 && |p.whole| <= MAX_SAFE && |p.fraction| <= MAX_SAFE
    ensures ParseDecimal(t).Some? && ExactExponent(p)
  {
    hide Read, ToNumber, NearestDouble;
    ZeroIsFinite();
    AllDigitsConcat(p.whole, p.fraction);
    PowerExact(|SkipZeros(p.whole + p.fraction)| - |p.fraction|);
  }

  lemma ZeroIsFinite()
    ensures ToNumber(0) == Some(0)
  {
    SmallIsFinite(0);
  }

  /** What is shown is read back without rounding. */
  lemma ShownIsRead(negative: bool, shown: string, scale: Safe)
    requires PlainText(shown)
    ensures var t := FormatDecimal(negative, shown, scale);
            ParseDecimal(t).Some? && Read(t).Some? && ExactExponent(Read(t).value)
  {
    hide Read, FormatDecimal, Value, ParseDecimal, ExactExponent;
    ShownParts(negative, shown, scale);
    PlainParses(FormatDecimal(negative, shown, scale), Read(FormatDecimal(negative, shown, scale)).value);
  }

  datatype Row = Row(negative: bool, shown: string, scale: Safe)

  predicate RowFits(r: Row) { PlainText(r.shown) && r.scale >= 0 }

  function Format(r: Row): string { FormatDecimal(r.negative, r.shown, r.scale) }

  function StoredRow(r: Row): real
    requires RowFits(r)
  {
    Stored(Number(r.negative, r.shown), r.scale)
  }

  /** Comparing what is shown gives the order of what is stored, whatever the two scales. */
  lemma ShownOrder(a: Row, b: Row, locale: (string, string) -> int)
    requires RowFits(a) && RowFits(b)
    ensures Sign(CompareValues(Shown(Format(a)), Shown(Format(b)), true, locale)) == SignOf(StoredRow(a) - StoredRow(b))
  {
    hide FormatDecimal, Read, ParseDecimal, Denoted, Stored, CompareValues, ExactExponent, AllDigits, PlainText;
    ShownIsRead(a.negative, a.shown, a.scale);
    ShownIsRead(b.negative, b.shown, b.scale);
    FormatDenotes(a.negative, a.shown, a.scale);
    FormatDenotes(b.negative, b.shown, b.scale);
    ComparisonIsExact(Shown(Format(a)), Shown(Format(b)), locale);
  }

  function Cells(rows: seq<Row>): seq<Cell> { seq(|rows|, i requires 0 <= i < |rows| => Shown(Format(rows[i]))) }

  predicate SortedShown(cells: seq<Cell>, locale: (string, string) -> int) {
    forall i, j :: 0 <= i < j < |cells| ==> CompareValues(cells[i], cells[j], true, locale) <= 0
  }

  predicate SortedStored(rows: seq<Row>)
    requires forall i :: 0 <= i < |rows| ==> RowFits(rows[i])
  {
    forall i, j :: 0 <= i < j < |rows| ==> StoredRow(rows[i]) <= StoredRow(rows[j])
  }

  /** A column is sorted as it is shown exactly when it is sorted as it is stored. */
  lemma SortingShown(rows: seq<Row>, locale: (string, string) -> int)
    requires forall i :: 0 <= i < |rows| ==> RowFits(rows[i])
    ensures SortedShown(Cells(rows), locale) <==> SortedStored(rows)
  {
    var cells := Cells(rows);
    hide Format, CompareValues, StoredRow, RowFits;
    forall i, j | 0 <= i < j < |rows|
      ensures CompareValues(cells[i], cells[j], true, locale) <= 0 <==> StoredRow(rows[i]) <= StoredRow(rows[j])
    {
      ShownOrder(rows[i], rows[j], locale);
    }
  }

  // ------------------------------------------------------------- numbers from 10^21 on

  /** What the browser writes for them: one digit, maybe a point and more, and a power of ten. */
  function PowerText(lead: string, rest: string, x: string): string {
    lead + (if rest == "" then "" else "." + rest) + "e+" + x
  }

  predicate PowerFits(lead: string, rest: string, x: string) {
    |lead| == 1 && AllDigits(lead) && lead != "0" && AllDigits(rest) && AllDigits(x) && x != ""
  }

  /** A text that is read has at most one point, and none after its e. */
  lemma {:induction false} OnePoint(s: string, i: nat, j: nat)
    requires Read(s).Some? && i < j < |Trim(s)| && Trim(s)[j] == '.'
    ensures Trim(s)[i] != '.' && Trim(s)[i] != 'e'
  {
    var t := Trim(s);
    hide Trim;
    var a := SignEnd(t, 0);
    var b := DigitsEnd(t, a);
    var pointed := b < |t| && t[b] == '.';
    var k := if pointed then DigitsEnd(t, b + 1) else b;
    assert ReadExponent(t, k).Some?;
    hide Read;
    DigitsOnly(t, a, b);
    if j >= k {
      NoPointAfter(t, k, j);
    } else if pointed && j > b {
      DigitsOnly(t, b + 1, k);
    } else {
      assert i < a || Digit(t[i]);
    }
  }

  lemma DigitsOnly(t: string, i: nat, j: nat)
    requires i <= |t| && j == DigitsEnd(t, i)
    ensures forall k :: i <= k < j ==> Digit(t[k])
  {
    forall k | i <= k < j
      ensures Digit(t[k])
    {
      assert t[i..j][k - i] == t[k];
    }
  }

  lemma NoPointAfter(t: string, k: nat, j: nat)
    requires k <= |t| && ReadExponent(t, k).Some? && k <= j < |t|
    ensures t[j] != '.'
  {
    if j > k {
      var i := SignEnd(t, k + 1);
      DigitsOnly(t, i, DigitsEnd(t, i));
    }
  }

  /** Digits, maybe a point and more digits, and a power of ten. */
  function Pointed(w: string, point: bool, f: string): string { w + (if point then "." + f else "") }

  lemma ReadPower(negative: bool, w: string, point: bool, f: string, x: string)
    requires AllDigits(w) && w != "" && AllDigits(f) && AllDigits(x) && x != "" && (!point ==> f == "")
    ensures Read(Minus(negative) + Pointed(w, point, f) + "e+" + x) == Some(Parts(negative, w, f, Value(x)))
  {
    var d := DecimalTexts.Written(Minus(negative), w, point, f, DecimalTexts.Power('e', "+", x));
    PowerWritten(Minus(negative), w, point, f, x);
    hide Read, DecimalTexts.Print, AllDigits, Value;
    DecimalTexts.ReadPrinted("", d, "");
  }

  lemma NoDigits()
    ensures AllDigits("")
  {
  }

  lemma PowerWritten(m: string, w: string, point: bool, f: string, x: string)
    ensures "" + DecimalTexts.Print(DecimalTexts.Written(m, w, point, f, DecimalTexts.Power('e', "+", x))) + ""
         == m + Pointed(w, point, f) + "e+" + x
  {
    var g := if point then "." + f else "";
    ConcatAssociates(m, w, g);
    assert ['e'] + "+" + x == "e+" + x;
    ConcatAssociates(m + Pointed(w, point, f), "e+", x);
  }

  /** The text is shown as it is. */
  lemma PowerUnscaled(negative: bool, lead: string, rest: string, x: string, scale: int)
    requires PowerFits(lead, rest, x) && scale <= 0
    ensures Read(FormatDecimal(negative, PowerText(lead, rest, x), scale)) == Some(Parts(negative, lead, rest, Value(x)))
  {
    hide Read, Value;
    SameText(negative, lead, rest, x);
    ReadPower(negative, lead, rest != "", rest, x);
  }

  lemma SameText(negative: bool, lead: string, rest: string, x: string)
    ensures Minus(negative) + PowerText(lead, rest, x) == Minus(negative) + Pointed(lead, rest != "", rest) + "e+" + x
  {
    var m, a := Minus(negative), Pointed(lead, rest != "", rest);
    assert PowerText(lead, rest, x) == a + "e+" + x;
    hide Minus, Pointed, PowerText;
    assert m + (a + "e+" + x) == m + a + "e+" + x;
  }

  /** The text after padding: where its last character, its e and its points are. */
  lemma PaddedPower(lead: string, rest: string, x: string, scale: int, d: string, z: nat)
    requires PowerFits(lead, rest, x) && scale > 0
    requires var t := PowerText(lead, rest, x); d == PadStart(t, scale + 1) && z == (if |t| < scale + 1 then scale + 1 - |t| else 0)
    ensures d == Zeros(z) + PowerText(lead, rest, x) && |d| > scale && Digit(d[0]) && Digit(d[|d| - 1])
    ensures |d| == z + |lead| + (if rest == "" then 0 else 1 + |rest|) + 2 + |x| && (rest != "" ==> d[z + 1] == '.') && (rest == "" ==> d[z + 1] == 'e')
  {
    var t := PowerText(lead, rest, x);
    assert t[0] == lead[0] && t[|t| - 1] == x[|x| - 1];
    assert rest != "" ==> t[1] == '.';
    assert rest == "" ==> t[1] == 'e';
    assert z == 0 ==> Zeros(z) + t == t;
    assert d[z] == t[0] && d[z + 1] == t[1] && d[|d| - 1] == t[|t| - 1];
  }

  /** With a point put into it, at a place before another or after the e, it is not read. */
  lemma PointSpoils(negative: bool, d: string, cut: nat, q: nat)
    requires 0 < cut < |d| && Digit(d[0]) && Digit(d[|d| - 1]) && q < |d|
    requires d[q] == '.' || (d[q] == 'e' && q < cut)
    ensures Read(Minus(negative) + d[..cut] + "." + d[cut..]) == None
  {
    var t := Minus(negative) + d[..cut] + "." + d[cut..];
    var i := |Minus(negative)|;
    SpoilLayout(negative, d, cut, q, t, i);
    hide Trim, Read, Digit, Minus;
    if q < cut { NotRead(t, i + q, i + cut); } else { NotRead(t, i + cut, i + q + 1); }
  }

  lemma NotRead(t: string, p: nat, q: nat)
    requires Trim(t) == t && p < q < |t| && t[q] == '.' && (t[p] == '.' || t[p] == 'e')
    ensures Read(t) == None
  {
    hide Trim, Read;
    if Read(t).Some? { OnePoint(t, p, q); }
  }

  lemma SpoilLayout(negative: bool, d: string, cut: nat, q: nat, t: string, i: nat)
    requires 0 < cut < |d| && Digit(d[0]) && Digit(d[|d| - 1]) && q < |d|
    requires t == Minus(negative) + d[..cut] + "." + d[cut..] && i == |Minus(negative)|
    ensures |t| == i + |d| + 1 && t[i + cut] == '.' && Trim(t) == t && if q < cut then t[i + q] == d[q] else t[i + q + 1] == d[q]
  {
    assert t[i] == d[0] && t[|t| - 1] == d[|d| - 1];
    assert t[0] == d[0] || t[0] == '-';
    hide Digit, Trim;
    DigitEnds(t, d);
  }

  lemma DigitEnds(t: string, d: string)
    requires t != "" && d != "" && Digit(d[0]) && Digit(d[|d| - 1]) && (t[0] == d[0] || t[0] == '-') && t[|t| - 1] == d[|d| - 1]
    ensures Trim(t) == t
  {
    ShownTrimmed(t);
  }

  /** What is read of the text with a point put into it, if anything is. */
  function ScaledParts(negative: bool, lead: string, x: string, scale: int): Parts
    requires AllDigits(x) && scale >= |x| + 2
  {
    if scale == |x| + 2 then Parts(negative, lead, "", Value(x))
    else Parts(negative, "0", Zeros(scale - |x| - 3) + lead, Value(x))
  }

  lemma PowerScaled(negative: bool, lead: string, rest: string, x: string, scale: int)
    requires PowerFits(lead, rest, x) && scale > 0
    ensures var r := Read(FormatDecimal(negative, PowerText(lead, rest, x), scale));
            r.Some? ==> rest == "" && scale >= |x| + 2 && r.value == ScaledParts(negative, lead, x, scale)
  {
    var t := PowerText(lead, rest, x);
    var d := PadStart(t, scale + 1);
    var z := if |t| < scale + 1 then scale + 1 - |t| else 0;
    var cut := |d| - scale;
    PaddedPower(lead, rest, x, scale, d, z);
    PointFormat(negative, t, scale, d, cut);
    hide Read, FormatDecimal, PadStart, Value, PowerText;
    if rest != "" || cut > z + 1 {
      PointSpoils(negative, d, cut, z + 1);
    } else {
      SplitRead(negative, lead, x, scale, z, d, cut);
    }
  }

  lemma SplitRead(negative: bool, lead: string, x: string, scale: int, z: nat, d: string, cut: nat)
    requires PowerFits(lead, "", x) && scale > 0 && d == Zeros(z) + PowerText(lead, "", x) && cut == |d| - scale && 0 < cut <= z + 1
    requires z == if |x| + 3 < scale + 1 then scale - |x| - 2 else 0
    ensures scale >= |x| + 2
    ensures Read(Minus(negative) + d[..cut] + "." + d[cut..]) == Some(ScaledParts(negative, lead, x, scale))
  {
    hide Read, Value;
    var m := Minus(negative);
    assert |d| == z + 3 + |x| && cut == 1;
    var w, f := if z == 0 then lead else "0", if z == 0 then "" else Zeros(z - 1) + lead;
    SplitText(lead, x, z, d, w, f);
    var a := d[..cut] + "." + d[cut..];
    assert m + d[..cut] + "." + d[cut..] == m + a;
    assert m + a == m + Pointed(w, true, f) + "e+" + x;
    ReadPower(negative, w, true, f, x);
  }

  lemma SplitText(lead: string, x: string, z: nat, d: string, w: string, f: string)
    requires |lead| == 1 && d == Zeros(z) + PowerText(lead, "", x)
    requires w == (if z == 0 then lead else "0") && f == if z == 0 then "" else Zeros(z - 1) + lead
    ensures |d| > 0 && d[..1] + "." + d[1..] == Pointed(w, true, f) + "e+" + x
  {
    assert PowerText(lead, "", x) == lead + ("e+" + x);
    if z == 0 {
      assert d == lead + ("e+" + x);
      assert d[..1] == lead && d[1..] == "e+" + x;
    } else {
      assert Zeros(z) == "0" + Zeros(z - 1);
      assert d == "0" + (f + ("e+" + x));
      assert d[..1] == "0" && d[1..] == f + ("e+" + x);
    }
  }

  lemma PowersDiffer(v: nat, a: int, b: int)
    requires v > 0 && a != b
    ensures Scaled(v, a) != Scaled(v, b)
  {
    if a < b { PowersGrow(v, a, b); } else { PowersGrow(v, b, a); }
  }

  lemma PowersGrow(v: nat, a: int, b: int)
    requires v > 0 && a < b
    ensures Scaled(v, a) < Scaled(v, b)
  {
    hide Pow10;
    PowGap(a, b);
    LargerProduct(v as real, Pow10(a), Pow10(b));
  }

  lemma PowGap(a: int, b: int)
    requires a < b
    ensures 0.0 < 10.0 * Pow10(a) <= Pow10(b)
  {
    Pow10Monotone(a + 1, b);
    Pow10Next(a);
  }

  lemma LargerProduct(v: real, a: real, b: real)
    requires v > 0.0 && 0.0 < a && 10.0 * a <= b
    ensures v * a < v * b
  {
    var c := b - a;
    assert c > 0.0;
    Positive(v, c);
    Spread(v, a, c);
    assert a + c == b;
  }

  lemma Positive(v: real, c: real)
    requires v > 0.0 && c > 0.0
    ensures v * c > 0.0
  {
  }

  lemma Spread(v: real, a: real, c: real)
    ensures v * (a + c) == v * a + v * c
  {
  }

  lemma LeadValue(lead: string, n: nat)
    requires |lead| == 1 && AllDigits(lead) && lead != "0"
    ensures Value(lead) > 0 && AllDigits("0" + (Zeros(n) + lead)) && Value("0" + (Zeros(n) + lead)) == Value(lead)
  {
    hide Value, AllDigits;
    LeadFirst(lead, "");
    assert lead + "" == lead;
    MoreZeros(n, lead);
    ZerosValue(n + 1, lead);
  }

  lemma MoreZeros(n: nat, lead: string)
    ensures "0" + (Zeros(n) + lead) == Zeros(n + 1) + lead
  {
    assert Zeros(n + 1) == "0" + Zeros(n);
    hide Zeros;
    ConcatAssociates("0", Zeros(n), lead);
  }

  /** From 10^21 on, what is shown denotes value / 10^scale exactly when the scale is zero. */
  lemma PowerDenotesIff(negative: bool, lead: string, rest: string, x: string, scale: int)
    requires PowerFits(lead, rest, x)
    ensures AllDigits(lead + rest)
    ensures var r := Read(FormatDecimal(negative, PowerText(lead, rest, x), scale));
            r.Some? && Denoted(r.value) == Signed(negative, Scaled(Value(lead + rest), Value(x) - |rest| - scale)) <==> scale == 0
  {
    hide Read, Value, Scaled, FormatDecimal, PowerText, Denoted, Zeros, Signed;
    LeadFirst(lead, rest);
    if scale <= 0 {
      PowerUnscaled(negative, lead, rest, x, scale);
      UnscaledIff(negative, lead, rest, x, scale);
    } else {
      PowerScaled(negative, lead, rest, x, scale);
      if rest == "" && scale >= |x| + 2 {
        assert lead + rest == lead;
        ScaledWrong(negative, lead, x, scale);
      }
    }
  }

  lemma UnscaledIff(negative: bool, lead: string, rest: string, x: string, scale: int)
    requires AllDigits(lead) && AllDigits(rest) && AllDigits(lead + rest) && AllDigits(x) && Value(lead + rest) > 0
    ensures Denoted(Parts(negative, lead, rest, Value(x))) == Signed(negative, Scaled(Value(lead + rest), Value(x) - |rest| - scale)) <==> scale == 0
  {
    hide Value, Scaled, Denoted, AllDigits;
    PowersDifferIf(Value(lead + rest), Value(x) - |rest|, scale);
    DenotedSigned(Parts(negative, lead, rest, Value(x)));
  }

  lemma PowersDifferIf(v: nat, e: int, scale: int)
    requires v > 0
    ensures Scaled(v, e) == Scaled(v, e - scale) <==> scale == 0
  {
    hide Scaled;
    if scale != 0 { PowersDiffer(v, e, e - scale); }
  }

  lemma LeadFirst(lead: string, rest: string)
    requires |lead| == 1 && AllDigits(lead) && lead != "0" && AllDigits(rest)
    ensures AllDigits(lead + rest) && Value(lead + rest) > 0
  {
    var d := lead + rest;
    assert d[0] == lead[0] && lead == [lead[0]];
    ValueAtLeast(d);
    TenToIs(|d| - 1);
  }

  lemma ScaledWrong(negative: bool, lead: string, x: string, scale: int)
    requires PowerFits(lead, "", x) && scale >= |x| + 2
    ensures var p := ScaledParts(negative, lead, x, scale);
            && AllDigits(p.whole) && AllDigits(p.fraction)
            && Denoted(p) != Signed(negative, Scaled(Value(lead), Value(x) - scale))
  {
    hide Value, Scaled, Denoted, AllDigits;
    var p := ScaledParts(negative, lead, x, scale);
    ScaledReads(negative, lead, x, scale);
    DenotedSigned(p);
    PowersDiffer(Value(lead), Value(x) - |p.fraction|, Value(x) - scale);
  }

  /** The same digits, and fewer places than the scale. */
  lemma ScaledReads(negative: bool, lead: string, x: string, scale: int)
    requires PowerFits(lead, "", x) && scale >= |x| + 2
    ensures var p := ScaledParts(negative, lead, x, scale);
            && AllDigits(p.whole) && AllDigits(p.fraction) && p.exponent == Value(x) && p.negative == negative
            && AllDigits(p.whole + p.fraction) && Value(p.whole + p.fraction) == Value(lead) > 0 && |p.fraction| < scale
  {
    hide Value;
    LeadValue(lead, 0);
    if scale > |x| + 2 {
      LeadValue(lead, scale - |x| - 3);
    } else {
      assert lead + "" == lead;
    }
  }

  /** 10^21 at scale 2. */
  lemma PointInPower()
    ensures PowerText("1", "", "21") == "1e+21"
    ensures FormatDecimal(false, "1e+21", 2) == "1e+.21" && Read("1e+.21") == None
  {
    assert PowerText("1", "", "21") == "1" + "e+21" == "1e+21";
    PointPut();
    hide Read, FormatDecimal, PadStart, PowerText;
    PointSpoils(false, "1e+21", 3, 1);
    PointFormat(false, "1e+21", 2, "1e+21", 3);
  }

  lemma PointPut()
    ensures PadStart("1e+21", 3) == "1e+21"
    ensures Minus(false) + "1e+21"[..3] + "." + "1e+21"[3..] == "1e+.21"
  {
    var d := "1e+21";
    assert d[..3] == "1e+" && d[3..] == "21";
    assert "" + "1e+" + "." + "21" == "1e+.21";
  }
}
