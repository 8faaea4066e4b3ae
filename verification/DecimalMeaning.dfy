/** What decimal texts denote, and that comparing and showing them is exact. */
module DecimalMeaning {
  import opened Text
  import opened Decimals

  // ------------------------------------------------------------- powers of ten

  function Pow10(e: int): (r: real)
    ensures r > 0.0
    decreases Magnitude(e)
  {
    if e == 0 then 1.0 else if e > 0 then 10.0 * Pow10(e - 1) else Pow10(e + 1) / 10.0
  }

  lemma Pow10Next(e: int)
    ensures Pow10(e + 1) == 10.0 * Pow10(e)
  {
  }

  lemma {:induction false} Pow10Add(a: int, n: nat)
    ensures Pow10(a + n) == Pow10(a) * Pow10(n)
    decreases n
  {
    if n > 0 {
      Pow10Add(a, n - 1);
      Pow10Next(a + n - 1);
      Pow10Next(n - 1);
      hide Pow10;
      TenTimes(Pow10(a), Pow10(n - 1));
    } else {
      assert Pow10(n) == 1.0;
    }
  }

  lemma TenTimes(x: real, y: real)
    ensures 10.0 * (x * y) == x * (10.0 * y)
  {
  }

  lemma {:induction false} Pow10Monotone(a: int, b: int)
    requires a <= b
    ensures Pow10(a) <= Pow10(b)
    decreases b - a
  {
    if a < b {
      Pow10Monotone(a, b - 1);
      Pow10Next(b - 1);
    }
  }

  /** v * 10^e. */
  function Scaled(v: nat, e: int): real { v as real * Pow10(e) }

  /** The number a decimal text denotes. */
  function Denoted(p: Parts): real
    requires AllDigits(p.whole) && AllDigits(p.fraction)
  {
    AllDigitsConcat(p.whole, p.fraction);
    var v := Scaled(Value(p.whole + p.fraction), p.exponent - |p.fraction|);
    if p.negative then -v else v
  }

  /** The same for the parsed form: sign * 0.digits * 10^power. */
  function Size(d: Decimal): real
    requires AllDigits(d.digits)
  {
    Scaled(Value(d.digits), d.power - |d.digits|)
  }

  function SignOf(x: real): int { if x < 0.0 then -1 else if x > 0.0 then 1 else 0 }

  // ------------------------------------------------------------- digits

  lemma {:induction false} ValueSplit(d: string)
    requires AllDigits(d) && d != ""
    ensures Value(d) == DigitValue(d[0]) * TenTo(|d| - 1) + Value(d[1..])
    decreases |d|
  {
    if |d| > 1 {
      var front := d[..|d| - 1];
      ValueSplit(front);
      assert front[1..] == d[1..][..|d| - 2];
      Tens(DigitValue(d[0]), TenTo(|d| - 2));
    }
  }

  lemma Tens(x: nat, y: nat)
    ensures 10 * (x * y) == x * (10 * y)
  {
  }

  function TenTo(n: nat): (r: nat)
    ensures r >= 1
  {
    if n == 0 then 1 else 10 * TenTo(n - 1)
  }

  lemma {:induction false} TenToIs(n: nat)
    ensures TenTo(n) as real == Pow10(n)
  {
    if n > 0 { TenToIs(n - 1); }
  }

  lemma {:induction false} ValueBelow(d: string)
    requires AllDigits(d)
    ensures Value(d) < TenTo(|d|)
    decreases |d|
  {
    if d != "" { ValueBelow(d[..|d| - 1]); }
  }

  lemma ValueAtLeast(d: string)
    requires AllDigits(d) && d != "" && d[0] != '0'
    ensures TenTo(|d| - 1) <= Value(d)
  {
    ValueSplit(d);
    assert DigitValue(d[0]) >= 1;
    hide Value, TenTo, DigitValue;
    TimesMonotone(1, DigitValue(d[0]), TenTo(|d| - 1));
  }

  lemma TimesMonotone(a: nat, b: nat, t: nat)
    requires a <= b
    ensures a * t <= b * t
  {
  }

  lemma {:induction false} SkipZerosValue(d: string)
    requires AllDigits(d)
    ensures Value(SkipZeros(d)) == Value(d)
    decreases |d|
  {
    if d != "" && d[0] == '0' {
      ValueSplit(d);
      SkipZerosValue(d[1..]);
    }
  }

  lemma {:induction false} PaddedValue(d: string, n: nat)
    requires AllDigits(d)
    ensures AllDigits(d + Zeros(n)) && Value(d + Zeros(n)) == Value(d) * TenTo(n)
    decreases n
  {
    if n == 0 {
      assert d + Zeros(0) == d;
    } else {
      PaddedValue(d, n - 1);
      var z := d + Zeros(n);
      assert z[..|z| - 1] == d + Zeros(n - 1);
      Tens(Value(d), TenTo(n - 1));
    }
  }

  lemma DigitsDiffer(c: char, d: char)
    requires Digit(c) && Digit(d)
    ensures (c == d <==> DigitValue(c) == DigitValue(d)) && (c < d <==> DigitValue(c) < DigitValue(d))
  {
  }

  lemma Carry(a: nat, b: nat, t: nat)
    requires a < b
    ensures a * t + t <= b * t
  {
    TimesMonotone(a + 1, b, t);
  }

  /** Digit strings of one length compare as the numbers they are. */
  lemma {:induction false} LexIsNumeric(x: string, y: string)
    requires AllDigits(x) && AllDigits(y) && |x| == |y|
    ensures LexCompare(x, y) == Sign(Value(x) - Value(y))
    decreases |x|
  {
    if x != "" {
      ValueSplit(x);
      ValueSplit(y);
      ValueBelow(x[1..]);
      ValueBelow(y[1..]);
      DigitsDiffer(x[0], y[0]);
      var a, b, t := DigitValue(x[0]), DigitValue(y[0]), TenTo(|x| - 1);
      hide Value, TenTo, DigitValue;
      if a == b {
        LexIsNumeric(x[1..], y[1..]);
      } else if a < b {
        Carry(a, b, t);
      } else {
        Carry(b, a, t);
      }
    }
  }

  // ------------------------------------------------------------- doubles

  lemma {:induction false} DoublesAreExact(n: nat, u: nat)
    requires u >= 1 && n <= TWO_53
    ensures NearestDouble(n, 1) == n
  {
    assert n / 1 == n && n % 1 == 0;
  }

  /** Rounding does not come back below 2^53. */
  lemma {:induction false} RoundedStaysLarge(n: nat, u: nat)
    requires u >= 1 && n >= TWO_53 && (u == 1 || n > TWO_53 / 2 * u)
    ensures NearestDouble(n, u) >= TWO_53
    decreases if n >= u then n - u else 0
  {
    if n <= TWO_53 * u {
      MultipleStaysLarge(n, u);
    } else {
      RoundedStaysLarge(n, 2 * u);
    }
  }

  lemma MultipleStaysLarge(n: nat, u: nat)
    requires u >= 1 && n >= TWO_53 && (u == 1 || n > TWO_53 / 2 * u)
    ensures NearestMultiple(n, u) >= TWO_53
  {
    var k := if u == 1 then TWO_53 else TWO_53 / 2;
    var q := n / u;
    QuotientAtLeast(n, u, k);
    TimesMonotone(k, q, u);
    TimesMonotone(q, q + 1, u);
    assert k * u >= TWO_53;
    MultipleAtLeast(n, u, q);
  }

  lemma MultipleAtLeast(n: nat, u: nat, q: nat)
    requires u >= 1 && q == n / u && q * u <= (q + 1) * u
    ensures NearestMultiple(n, u) >= q * u
  {
  }

  lemma QuotientAtLeast(n: nat, u: nat, k: nat)
    requires u >= 1 && n >= k * u
    ensures n / u >= k
  {
    var q := n / u;
    Quotient(n, u, q);
    if q < k {
      TimesMonotone(q + 1, k, u);
      assert false;
    }
  }

  lemma Quotient(n: nat, u: nat, q: nat)
    requires u >= 1 && q == n / u
    ensures n < (q + 1) * u
  {
    assert n == q * u + n % u;
  }

  /** A sum that is a safe integer is computed exactly, and any other is refused. */
  lemma PowerExact(n: int)
    ensures Magnitude(n) <= MAX_SAFE ==> Rounded(n) == n
    ensures Magnitude(n) > MAX_SAFE ==> Magnitude(Rounded(n)) > MAX_SAFE
  {
    if Magnitude(n) <= MAX_SAFE {
      DoublesAreExact(Magnitude(n), 1);
    } else {
      RoundedStaysLarge(Magnitude(n), 1);
    }
  }

  lemma SmallIsFinite(n: int)
    requires Magnitude(n) <= TWO_53
    ensures ToNumber(n) == Some(n)
  {
    DoublesAreExact(Magnitude(n), 1);
    TwoToMonotone(54, 1024);
    assert TwoTo(54) > TWO_53 by { TwoTo54(); }
  }

  lemma {:induction false} TwoToMonotone(a: nat, b: nat)
    requires a <= b
    ensures TwoTo(a) <= TwoTo(b)
    decreases b
  {
    if a < b { TwoToMonotone(a, b - 1); }
  }

  lemma TwoTo54()
    ensures TwoTo(54) > TWO_53
  {
    TwoTo9();
    hide TwoTo;
    TwoToAdd(9, 9);
    TwoToAdd(9, 18);
    TwoToAdd(27, 27);
  }

  lemma TwoTo9()
    ensures TwoTo(9) == 512
  {
    TwoToAdd(4, 5);
    assert TwoTo(4) == 16 && TwoTo(5) == 32;
  }

  lemma {:induction false} TwoToAdd(a: nat, b: nat)
    ensures TwoTo(a + b) == TwoTo(a) * TwoTo(b)
    decreases b
  {
    if b > 0 {
      TwoToAdd(a, b - 1);
      assert 2 * (TwoTo(a) * TwoTo(b - 1)) == TwoTo(a) * (2 * TwoTo(b - 1));
    }
  }

  // ------------------------------------------------------------- the parsed form denotes the text

  /** The exponent is a number that a double can hold. */
  predicate ExactExponent(p: Parts) { ToNumber(p.exponent) == Some(p.exponent) }

  /** The parsed power is the true one exactly when the exponent is exact. */
  lemma PowerIff(s: string)
    requires ParseDecimal(s).Some?
    ensures Read(s).Some?
    ensures var p, d := Read(s).value, ParseDecimal(s).value;
            d.power == |d.digits| - |p.fraction| + p.exponent <==> ExactExponent(p)
  {
    hide Read, NearestDouble;
    var p := Read(s).value;
    var d := ParseDecimal(s).value;
    PowerExact(|d.digits| - |p.fraction| + ToNumber(p.exponent).value);
  }

  lemma DenotedIs(p: Parts, d: Decimal)
    requires AllDigits(p.whole) && AllDigits(p.fraction) && AllDigits(p.whole + p.fraction)
    requires d.digits == SkipZeros(p.whole + p.fraction) && d.power == |d.digits| - |p.fraction| + p.exponent
    requires d.sign == if d.digits == "" then 0 else if p.negative then -1 else 1
    ensures Denoted(p) == d.sign as real * Size(d)
  {
    SkipZerosValue(p.whole + p.fraction);
    if d.digits == "" { NoDigits(); }
    hide SkipZeros, Value, Pow10;
    if d.digits == "" { assert Size(d) == 0.0; }
    hide Scaled;
    SignTimes(d.sign, p.negative, Size(d));
  }

  lemma SignTimes(sign: int, negative: bool, v: real)
    requires v != 0.0 ==> sign == if negative then -1 else 1
    ensures sign as real * v == if negative then -v else v
  {
  }

  lemma NoDigits()
    ensures Value("") == 0
  {
  }

  // ------------------------------------------------------------- comparing is exact

  lemma ScaledShift(v: nat, k: nat, e: int)
    ensures Scaled(v * TenTo(k), e) == Scaled(v, e + k)
  {
    TenToIs(k);
    Pow10Add(e, k);
    hide TenTo, Pow10;
    ProductAsReal(v, TenTo(k));
    Reassociate(v as real, Pow10(e), Pow10(k));
  }

  lemma ProductAsReal(a: nat, b: nat)
    ensures (a * b) as real == a as real * b as real
  {
  }

  lemma Reassociate(v: real, t: real, k: real)
    ensures v * (t * k) == (v * k) * t
  {
  }

  lemma ScaledOrder(x: nat, y: nat, e: int)
    ensures SignOf(Scaled(x, e) - Scaled(y, e)) == Sign(x - y)
  {
    var t := Pow10(e);
    hide Pow10;
    Distribute(x as real, y as real, t);
  }

  lemma Distribute(x: real, y: real, t: real)
    requires t > 0.0
    ensures x * t - y * t == (x - y) * t
    ensures x < y ==> (x - y) * t < 0.0
    ensures x > y ==> (x - y) * t > 0.0
  {
  }

  lemma PowScaled(e: int, n: nat)
    ensures Pow10(e + n) == Scaled(TenTo(n), e)
  {
    TenToIs(n);
    Pow10Add(e, n);
    hide TenTo, Pow10;
  }

  lemma ScaledBounds(v: nat, n: nat, e: int)
    requires n > 0 && TenTo(n - 1) <= v < TenTo(n)
    ensures Pow10(e + n - 1) <= Scaled(v, e) < Pow10(e + n)
  {
    hide TenTo, Pow10, Scaled;
    PowScaled(e, n);
    PowScaled(e, n - 1);
    ScaledOrder(TenTo(n - 1), v, e);
    ScaledOrder(v, TenTo(n), e);
  }

  lemma SizeBounds(d: Decimal)
    requires AllDigits(d.digits) && d.digits != "" && d.digits[0] != '0'
    ensures Pow10(d.power - 1) <= Size(d) < Pow10(d.power)
  {
    hide Value, Pow10, TenTo, Scaled;
    ValueBelow(d.digits);
    ValueAtLeast(d.digits);
    ScaledBounds(Value(d.digits), |d.digits|, d.power - |d.digits|);
  }

  /** With one power of ten, the padded digits decide. */
  lemma SizePadded(d: Decimal, n: nat)
    requires AllDigits(d.digits) && |d.digits| <= n
    ensures var x := PadEnd(d.digits, n);
            AllDigits(x) && |x| == n && Size(d) == Scaled(Value(x), d.power - n)
  {
    hide Value, Pow10, TenTo, Scaled, Zeros;
    PaddedValue(d.digits, n - |d.digits|);
    PadEndIs(d.digits, n);
    ScaledShift(Value(d.digits), n - |d.digits|, d.power - n);
  }

  lemma PadEndIs(d: string, n: nat)
    requires |d| <= n
    ensures PadEnd(d, n) == d + Zeros(n - |d|) && |PadEnd(d, n)| == n
  {
    assert d + Zeros(0) == d;
  }

  predicate Normal(d: Decimal) {
    && AllDigits(d.digits) && (d.digits != "" ==> d.digits[0] != '0')
    && -1 <= d.sign <= 1 && (d.digits == "" <==> d.sign == 0)
  }

  /** Magnitudes compare as powers first and digits then. */
  lemma MagnitudeOrder(l: Decimal, r: Decimal)
    requires Normal(l) && Normal(r) && l.digits != "" && r.digits != ""
    ensures l.power != r.power ==> SignOf(Size(l) - Size(r)) == Sign(l.power - r.power)
    ensures l.power == r.power ==>
      var n := if |l.digits| > |r.digits| then |l.digits| else |r.digits|;
      SignOf(Size(l) - Size(r)) == LexCompare(PadEnd(l.digits, n), PadEnd(r.digits, n))
  {
    hide Value, Pow10, Size, Scaled;
    if l.power < r.power {
      SizeBounds(l);
      SizeBounds(r);
      Pow10Monotone(l.power, r.power - 1);
    } else if l.power > r.power {
      SizeBounds(l);
      SizeBounds(r);
      Pow10Monotone(r.power, l.power - 1);
    } else {
      var n := if |l.digits| > |r.digits| then |l.digits| else |r.digits|;
      SizePadded(l, n);
      SizePadded(r, n);
      var x, y := PadEnd(l.digits, n), PadEnd(r.digits, n);
      LexIsNumeric(x, y);
      ScaledOrder(Value(x), Value(y), l.power - n);
    }
  }

  lemma NoSize(e: int)
    ensures Scaled(0, e) == 0.0
  {
  }

  lemma SizePositive(d: Decimal)
    requires Normal(d)
    ensures d.digits != "" ==> Size(d) > 0.0
    ensures d.digits == "" ==> Size(d) == 0.0
  {
    hide Value, Pow10, Scaled;
    if d.digits != "" {
      SizeBounds(d);
    } else {
      NoDigits();
      NoSize(d.power);
    }
  }

  lemma CompareExact(l: Decimal, r: Decimal)
    requires Normal(l) && Normal(r)
    ensures Sign(CompareDecimals(l, r)) == SignOf(l.sign as real * Size(l) - r.sign as real * Size(r))
  {
    SizePositive(l);
    SizePositive(r);
    if l.sign == r.sign && l.sign != 0 {
      MagnitudeOrder(l, r);
      hide Size, LexCompare, PadEnd;
      LexIsSign(l, r);
    } else {
      hide Size;
    }
  }

  lemma LexIsSign(l: Decimal, r: Decimal)
    ensures var n := if |l.digits| > |r.digits| then |l.digits| else |r.digits|;
            -1 <= LexCompare(PadEnd(l.digits, n), PadEnd(r.digits, n)) <= 1
  {
    LexSmall(PadEnd(l.digits, if |l.digits| > |r.digits| then |l.digits| else |r.digits|),
             PadEnd(r.digits, if |l.digits| > |r.digits| then |l.digits| else |r.digits|));
  }

  lemma {:induction false} LexSmall(x: string, y: string)
    ensures -1 <= LexCompare(x, y) <= 1
    decreases |x|
  {
    if x != "" && y != "" && x[0] == y[0] { LexSmall(x[1..], y[1..]); }
  }

  // ------------------------------------------------------------- exactly when comparing is exact

  /** The digits from the first that is not zero. */
  function Significant(p: Parts): (d: string)
    requires AllDigits(p.whole) && AllDigits(p.fraction)
    ensures AllDigits(d) && (d != "" ==> d[0] != '0')
  {
    AllDigitsConcat(p.whole, p.fraction);
    SkipZeros(p.whole + p.fraction)
  }

  /** The number is 0.digits times ten to this power. */
  function TruePower(p: Parts): int
    requires AllDigits(p.whole) && AllDigits(p.fraction)
  {
    |Significant(p)| - |p.fraction| + p.exponent
  }

  function SignOfParts(p: Parts): int
    requires AllDigits(p.whole) && AllDigits(p.fraction)
  {
    if Significant(p) == "" then 0 else if p.negative then -1 else 1
  }

  /** By how much the power is off when the exponent is a double. */
  function Drift(p: Parts): int { Rounded(p.exponent) - p.exponent }

  /** Powers are compared first, and then the digits. */
  function PowersThenDigits(a: int, b: int, x: string, y: string): int {
    var n := if |x| > |y| then |x| else |y|;
    if a != b then Sign(a - b) else LexCompare(PadEnd(x, n), PadEnd(y, n))
  }

  /** The signs decide, or the powers as they are parsed decide like the true ones. */
  predicate OrderKept(p: Parts, q: Parts)
    requires AllDigits(p.whole) && AllDigits(p.fraction) && AllDigits(q.whole) && AllDigits(q.fraction)
  {
    var a, b, x, y := TruePower(p), TruePower(q), Significant(p), Significant(q);
    || SignOfParts(p) != SignOfParts(q) || SignOfParts(p) == 0
    || PowersThenDigits(a + Drift(p), b + Drift(q), x, y) == PowersThenDigits(a, b, x, y)
  }

  function Exactly(p: Parts): Decimal
    requires AllDigits(p.whole) && AllDigits(p.fraction)
  {
    Decimal(SignOfParts(p), TruePower(p), Significant(p))
  }

  lemma ParsedIs(s: string)
    requires ParseDecimal(s).Some?
    ensures Read(s).Some? && var p := Read(s).value;
            ParseDecimal(s).value == Decimal(SignOfParts(p), TruePower(p) + Drift(p), Significant(p))
  {
    hide Read, NearestDouble, Rounded, SkipZeros;
    var p := Read(s).value;
    PowerExact(|Significant(p)| - |p.fraction| + Rounded(p.exponent));
  }

  lemma ExactlyMeans(p: Parts)
    requires AllDigits(p.whole) && AllDigits(p.fraction)
    ensures Normal(Exactly(p)) && Denoted(p) == Exactly(p).sign as real * Size(Exactly(p))
  {
    AllDigitsConcat(p.whole, p.fraction);
    hide SkipZeros, Denoted, Size;
    DenotedIs(p, Exactly(p));
  }

  lemma ComparedIs(l: Decimal, r: Decimal)
    ensures Sign(CompareDecimals(l, r))
         == if l.sign != r.sign then Sign(l.sign - r.sign) else Sign(PowersThenDigits(l.power, r.power, l.digits, r.digits) * l.sign)
    ensures -1 <= PowersThenDigits(l.power, r.power, l.digits, r.digits) <= 1
  {
    LexIsSign(l, r);
    hide LexCompare, PadEnd;
  }

  /** For any two texts that the parser takes, the numeric comparison has the sign of the exact
      difference of the numbers they denote exactly when their signs decide, or the powers that
      were parsed, and then the digits, decide as the true powers do. */
  lemma ComparisonRightIff(a: Cell, b: Cell, locale: (string, string) -> int)
    requires a != Null && b != Null && ParseDecimal(TextOf(a)).Some? && ParseDecimal(TextOf(b)).Some?
    ensures Read(TextOf(a)).Some? && Read(TextOf(b)).Some?
    ensures var p, q := Read(TextOf(a)).value, Read(TextOf(b)).value;
            Sign(CompareValues(a, b, true, locale)) == SignOf(Denoted(p) - Denoted(q)) <==> OrderKept(p, q)
  {
    hide Read, ParseDecimal, AllDigits, TextOf, Denoted, OrderKept, CompareDecimals;
    ParsedIs(TextOf(a));
    ParsedIs(TextOf(b));
    RightIffKept(Read(TextOf(a)).value, Read(TextOf(b)).value);
  }

  lemma RightIffKept(p: Parts, q: Parts)
    requires AllDigits(p.whole) && AllDigits(p.fraction) && AllDigits(q.whole) && AllDigits(q.fraction)
    ensures var l := Decimal(SignOfParts(p), TruePower(p) + Drift(p), Significant(p));
            var r := Decimal(SignOfParts(q), TruePower(q) + Drift(q), Significant(q));
            Sign(CompareDecimals(l, r)) == SignOf(Denoted(p) - Denoted(q)) <==> OrderKept(p, q)
  {
    var l := Decimal(SignOfParts(p), TruePower(p) + Drift(p), Significant(p));
    var r := Decimal(SignOfParts(q), TruePower(q) + Drift(q), Significant(q));
    hide AllDigits, Denoted, CompareDecimals, PowersThenDigits, TruePower, Drift, Significant;
    ExactOrder(p, q);
    ComparedIs(Exactly(p), Exactly(q));
    ComparedIs(l, r);
    SameUpToSign(SignOfParts(p), PowersThenDigits(l.power, r.power, l.digits, r.digits),
                 PowersThenDigits(TruePower(p), TruePower(q), l.digits, r.digits));
  }

  lemma SameUpToSign(s: int, x: int, y: int)
    requires -1 <= s <= 1 && -1 <= x <= 1 && -1 <= y <= 1
    ensures Sign(x * s) == Sign(y * s) <==> s == 0 || x == y
  {
    if s == 0 {
      assert x * s == 0 && y * s == 0;
    } else if s == 1 {
      assert x * s == x && y * s == y;
    } else {
      assert x * s == -x && y * s == -y;
    }
  }

  lemma ExactOrder(p: Parts, q: Parts)
    requires AllDigits(p.whole) && AllDigits(p.fraction) && AllDigits(q.whole) && AllDigits(q.fraction)
    ensures Sign(CompareDecimals(Exactly(p), Exactly(q))) == SignOf(Denoted(p) - Denoted(q))
  {
    hide AllDigits, Denoted, Size, CompareDecimals, Normal, Exactly;
    ExactlyMeans(p);
    ExactlyMeans(q);
    CompareExact(Exactly(p), Exactly(q));
  }

  /** So for exponents that a double holds it always does. */
  lemma ComparisonIsExact(a: Cell, b: Cell, locale: (string, string) -> int)
    requires a != Null && b != Null && ParseDecimal(TextOf(a)).Some? && ParseDecimal(TextOf(b)).Some?
    requires Read(TextOf(a)).Some? && Read(TextOf(b)).Some?
    requires ExactExponent(Read(TextOf(a)).value) && ExactExponent(Read(TextOf(b)).value)
    ensures Sign(CompareValues(a, b, true, locale))
         == SignOf(Denoted(Read(TextOf(a)).value) - Denoted(Read(TextOf(b)).value))
  {
    hide Read, ParseDecimal, AllDigits, TextOf, Denoted, OrderKept, CompareValues, ExactExponent;
    ComparisonRightIff(a, b, locale);
    NoDrift(Read(TextOf(a)).value, Read(TextOf(b)).value);
  }

  lemma NoDrift(p: Parts, q: Parts)
    requires AllDigits(p.whole) && AllDigits(p.fraction) && AllDigits(q.whole) && AllDigits(q.fraction)
    requires ExactExponent(p) && ExactExponent(q)
    ensures OrderKept(p, q)
  {
    hide NearestDouble, Rounded, TwoTo, PowersThenDigits, TruePower, Significant, SignOfParts;
  }

  /** An exponent of at most 2^53 in magnitude is one that a double holds. */
  lemma SmallExponentsAreExact(p: Parts)
    requires Magnitude(p.exponent) <= TWO_53
    ensures ExactExponent(p)
  {
    SmallIsFinite(p.exponent);
  }

  // ------------------------------------------------------------- an exponent that is not exact

  /** 2^53 + 1 is no double: it becomes 2^53. */
  lemma BeyondDoubles()
    ensures ToNumber(9007199254740993) == Some(9007199254740992)
  {
    var n: nat := 9007199254740993;
    assert NearestDouble(n, 1) == NearestDouble(n, 2) == NearestMultiple(n, 2);
    assert n / 2 == 4503599627370496 && n % 2 == 1;
    TwoToMonotone(54, 1024);
    TwoTo54();
    SmallIsFinite(9007199254740992);
    hide NearestDouble, TwoTo;
  }

  /** So two numbers a factor of ten apart compare as equal. */
  lemma DifferentButEqual(locale: (string, string) -> int)
    ensures var x, y := "0.01e9007199254740993", "0.01e9007199254740992";
            && CompareValues(Shown(x), Shown(y), true, locale) == 0
            && Read(x).Some? && Read(y).Some? && Denoted(Read(x).value) == 10.0 * Denoted(Read(y).value)
  {
    var x, y := "0.01e9007199254740993", "0.01e9007199254740992";
    var l, r := Parts(false, "0", "01", 9007199254740993), Parts(false, "0", "01", 9007199254740992);
    TextsRead();
    hide Read, ToNumber, NearestDouble, TwoTo, Pow10, Value, Rounded, LexCompare, PadEnd;
    BeyondDoubles();
    SmallIsFinite(9007199254740992);
    ParsedSmall(x, l);
    ParsedSmall(y, r);
    hide ParseDecimal, SkipZeros, Denoted;
    CompareSame(Decimal(1, 9007199254740991, "1"));
    hide CompareDecimals;
    TenfoldDenoted(l, r);
  }

  lemma TextsRead()
    ensures Read("0.01e9007199254740993") == Some(Parts(false, "0", "01", 9007199254740993))
    ensures Read("0.01e9007199254740992") == Some(Parts(false, "0", "01", 9007199254740992))
  {
    ExponentsRead();
    hide Read, Value;
    assert "0.01e" + "9007199254740993" == "0.01e9007199254740993";
    assert "0.01e" + "9007199254740992" == "0.01e9007199254740992";
    TextRead("0.01e9007199254740993", "9007199254740993");
    TextRead("0.01e9007199254740992", "9007199254740992");
  }

  /** One digit more. */
  lemma MoreDigits(d: string, e: string, v: nat)
    requires AllDigits(d) && |e| == |d| + 1 && e[..|d|] == d && Digit(e[|d|]) && Value(d) == v
    ensures AllDigits(e) && Value(e) == 10 * v + DigitValue(e[|d|])
  {
  }

  lemma BeginningRead()
    ensures AllDigits("90071992") && Value("90071992") == 90071992
  {
    NoDigits();
    hide Value, DigitValue;
    DigitsAre();
    MoreDigits("", "9", 0);
    MoreDigits("9", "90", 9);
    MoreDigits("90", "900", 90);
    MoreDigits("900", "9007", 900);
    MoreDigits("9007", "90071", 9007);
    MoreDigits("90071", "900719", 90071);
    MoreDigits("900719", "9007199", 900719);
    MoreDigits("9007199", "90071992", 9007199);
  }

  lemma DigitsAre()
    ensures forall c :: '0' <= c <= '9' ==> DigitValue(c) == c as int - 48
  {
  }

  lemma CommonRead()
    ensures AllDigits("900719925474099") && Value("900719925474099") == 900719925474099
  {
    BeginningRead();
    hide Value, DigitValue;
    DigitsAre();
    MoreDigits("90071992", "900719925", 90071992);
    MoreDigits("900719925", "9007199254", 900719925);
    MoreDigits("9007199254", "90071992547", 9007199254);
    MoreDigits("90071992547", "900719925474", 90071992547);
    MoreDigits("900719925474", "9007199254740", 900719925474);
    MoreDigits("9007199254740", "90071992547409", 9007199254740);
    MoreDigits("90071992547409", "900719925474099", 90071992547409);
  }

  lemma ExponentsRead()
    ensures AllDigits("9007199254740993") && Value("9007199254740993") == 9007199254740993
    ensures AllDigits("9007199254740992") && Value("9007199254740992") == 9007199254740992
  {
    CommonRead();
    hide Value;
    MoreDigits("900719925474099", "9007199254740993", 900719925474099);
    MoreDigits("900719925474099", "9007199254740992", 900719925474099);
  }

  /** The text 0.01e followed by sixteen digits. */
  lemma TextRead(s: string, digits: string)
    requires |digits| == 16 && AllDigits(digits) && s == "0.01e" + digits
    ensures Read(s) == Some(Parts(false, "0", "01", Value(digits)))
  {
    hide Value;
    TextTrimmed(s, digits);
    TextDigits(s, digits);
    assert s[0..1] == "0" && s[2..4] == "01" && s[5..21] == digits;
    hide Trim, DigitsEnd;
    assert SignEnd(s, 5) == 5 && SignEnd(s, 0) == 0;
    assert ReadExponent(s, 4) == Some(Value(digits));
  }

  lemma TextTrimmed(s: string, digits: string)
    requires |digits| == 16 && AllDigits(digits) && s == "0.01e" + digits
    ensures Trim(s) == s
  {
    assert s[20] == digits[15] && Digit(digits[15]);
    assert "" + s + "" == s;
    TrimPadded("", s, "");
  }

  lemma TextDigits(s: string, digits: string)
    requires |digits| == 16 && AllDigits(digits) && s == "0.01e" + digits
    ensures s[0] == '0' && s[1] == '.' && s[4] == 'e' && Digit(s[5])
    ensures DigitsEnd(s, 0) == 1 && DigitsEnd(s, 2) == 4 && DigitsEnd(s, 5) == 21
  {
    assert s[5] == digits[0];
    assert DigitsEnd(s, 1) == 1 && DigitsEnd(s, 4) == 4 && DigitsEnd(s, 3) == 4;
    assert s[5..] == digits;
    AllToEnd(s, 5);
  }

  lemma {:induction false} AllToEnd(s: string, i: nat)
    requires i <= |s| && AllDigits(s[i..])
    ensures DigitsEnd(s, i) == |s|
    decreases |s| - i
  {
    if i < |s| {
      var t := s[i..];
      assert Digit(t[0]) && t[1..] == s[i + 1..];
      AllToEnd(s, i + 1);
    }
  }

  lemma CompareSame(d: Decimal)
    ensures CompareDecimals(d, d) == 0
  {
    hide LexCompare, PadEnd;
    LexSame(PadEnd(d.digits, |d.digits|));
  }

  /** Both texts parse to 0.1 times ten to the same power. */
  lemma ParsedSmall(s: string, p: Parts)
    requires Read(s) == Some(p) && p.whole == "0" && p.fraction == "01" && !p.negative
    requires ToNumber(p.exponent) == Some(9007199254740992)
    ensures ParseDecimal(s) == Some(Decimal(1, 9007199254740991, "1"))
  {
    hide Read, ToNumber, NearestDouble;
    var zeros := p.whole + p.fraction;
    assert zeros == "001" && zeros[1..] == "01" && zeros[1..][1..] == "1";
    assert SkipZeros("1") == "1" && SkipZeros("01") == "1" && SkipZeros("001") == "1";
    hide SkipZeros;
    PowerExact(9007199254740991);
  }

  lemma TenfoldDenoted(l: Parts, r: Parts)
    requires l == Parts(false, "0", "01", 9007199254740993) && r == Parts(false, "0", "01", 9007199254740992)
    ensures Denoted(l) == 10.0 * Denoted(r)
  {
    AllDigitsConcat("0", "01");
    hide Pow10, Value;
    Tenfold(Value("0" + "01"), 9007199254740990);
  }

  lemma Tenfold(v: nat, e: int)
    ensures Scaled(v, e + 1) == 10.0 * Scaled(v, e)
  {
    Pow10Next(e);
  }

  lemma {:induction false} LexSame(x: string)
    ensures LexCompare(x, x) == 0
  {
    if x != "" { LexSame(x[1..]); }
  }

  // ------------------------------------------------------------- the order of a column

  lemma NotANumber(t: string)
    requires t != "" && Trimmed(t) && !Digit(t[0]) && !Signed(t, 0) && t[0] != '.' && t[0] != 'e' && t[0] != 'E'
    ensures ParseDecimal(t) == None
  {
    TrimPadded("", t, "");
    assert "" + t + "" == t;
    assert SignEnd(t, 0) == 0 && DigitsEnd(t, 0) == 0 && ReadExponent(t, 0) == None;
    hide Trim, DigitsEnd, SignEnd, ReadExponent, SkipZeros;
  }

  lemma WordsAreNoDecimals()
    ensures ParseDecimal("true") == None && ParseDecimal("false") == None
  {
    hide ParseDecimal;
    NotANumber("true");
    NotANumber("false");
  }

  /** Missing values come last; false comes before true; in a numeric column two texts that both
      read as decimals compare as these; all others compare as the browser compares their texts. */
  lemma ColumnOrder(a: Cell, b: Cell, numeric: bool, locale: (string, string) -> int)
    ensures a == Null == b ==> CompareValues(a, b, numeric, locale) == 0
    ensures a == Null != b ==> CompareValues(a, b, numeric, locale) > 0
    ensures a != Null == b ==> CompareValues(a, b, numeric, locale) < 0
    ensures a == b == Truth(true) || a == b == Truth(false) ==> CompareValues(a, b, numeric, locale) == 0
    ensures a == Truth(false) && b == Truth(true) ==> CompareValues(a, b, numeric, locale) < 0
    ensures a == Truth(true) && b == Truth(false) ==> CompareValues(a, b, numeric, locale) > 0
    ensures a.Shown? && b.Shown? && numeric && ParseDecimal(a.text).Some? && ParseDecimal(b.text).Some? ==>
              CompareValues(a, b, numeric, locale) == CompareDecimals(ParseDecimal(a.text).value, ParseDecimal(b.text).value)
    ensures a.Shown? && b.Shown? && !(numeric && ParseDecimal(a.text).Some? && ParseDecimal(b.text).Some?) ==>
              CompareValues(a, b, numeric, locale) == locale(a.text, b.text)
    ensures a.Truth? && b.Shown? ==> CompareValues(a, b, numeric, locale) == locale(if a.value then "true" else "false", b.text)
    ensures a.Shown? && b.Truth? ==> CompareValues(a, b, numeric, locale) == locale(a.text, if b.value then "true" else "false")
  {
    WordsAreNoDecimals();
    hide ParseDecimal, CompareDecimals;
  }

  /** The multiple that is rounded to is at least as near as any other, and of two as near it is the
      even one. */
  lemma NearestAndEven(n: nat, u: nat, k: nat) returns (p: nat)
    requires u >= 1
    ensures var m := NearestMultiple(n, u);
            m == p * u && Magnitude(n - m) <= Magnitude(n - k * u) && (Magnitude(n - m) == Magnitude(n - k * u) && p != k ==> p % 2 == 0)
  {
    hide NearestMultiple;
    var q, r, m := DivideAndRound(n, u);
    var a, b, c := q * u, (q + 1) * u, k * u;
    Apart(q, k, u);
    p := NearestOf(n, u, q, r, k, a, b, c);
  }

  lemma Apart(q: nat, k: nat, u: nat)
    ensures (q + 1) * u == q * u + u
    ensures if k < q then k * u <= q * u - u else if k > q + 1 then k * u >= q * u + 2 * u else true
  {
    if k < q { MoreTimes(k + 1, q, u); }
    if k > q + 1 { MoreTimes(q + 2, k, u); }
  }

  lemma DivideAndRound(n: nat, u: nat) returns (q: nat, r: nat, m: nat)
    requires u >= 1
    ensures n == q * u + r && r < u && m == NearestMultiple(n, u)
    ensures m == if 2 * r < u || (2 * r == u && q % 2 == 0) then q * u else (q + 1) * u
  {
    q, r, m := n / u, n % u, NearestMultiple(n, u);
  }

  lemma NearestOf(n: nat, u: nat, q: nat, r: nat, k: nat, a: nat, b: nat, c: nat) returns (p: nat)
    requires n == a + r && r < u && b == a + u && a == q * u && b == (q + 1) * u
    requires if k < q then c <= a - u else if k == q then c == a else if k == q + 1 then c == b else c >= a + 2 * u
    ensures var m := if 2 * r < u || (2 * r == u && q % 2 == 0) then a else b;
            m == p * u && Magnitude(n - m) <= Magnitude(n - c) && (Magnitude(n - m) == Magnitude(n - c) && p != k ==> p % 2 == 0)
  {
    p := if 2 * r < u || (2 * r == u && q % 2 == 0) then q else q + 1;
  }

  lemma MoreTimes(a: nat, b: nat, u: nat)
    requires a <= b
    ensures a * u <= b * u
  {
  }
}
