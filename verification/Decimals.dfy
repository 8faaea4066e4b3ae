/** Decimal text in the console: how columns of numbers are compared and how stored decimals are
    shown (_web/src/table-sort.ts, _web/src/format.ts). */
module Decimals {
  import opened Text

  // ------------------------------------------------------------- numbers of the browser

  /** The largest integer up to which every integer is a double: 2^53 - 1. */
  const MAX_SAFE: int := 0x1F_FFFF_FFFF_FFFF

  const TWO_53: nat := 0x20_0000_0000_0000

  type Safe = n: int | -MAX_SAFE <= n <= MAX_SAFE

  function Magnitude(n: int): nat { if n < 0 then -n else n }

  function Sign(n: int): int { if n < 0 then -1 else if n > 0 then 1 else 0 }

  function TwoTo(n: nat): (r: nat)
    ensures r >= 1
  {
    if n == 0 then 1 else 2 * TwoTo(n - 1)
  }

  /** The multiple of u nearest to n, the even one of two. */
  function NearestMultiple(n: nat, u: nat): (m: nat)
    requires u >= 1
  {
    var q, r := n / u, n % u;
    if 2 * r < u || (2 * r == u && q % 2 == 0) then q * u else (q + 1) * u
  }

  /** The double nearest to n; u is the distance between doubles that is tried. */
  function NearestDouble(n: nat, u: nat): nat
    requires u >= 1
    decreases if n >= u then n - u else 0
  {
    if n <= TWO_53 * u then NearestMultiple(n, u) else NearestDouble(n, 2 * u)
  }

  function Rounded(n: int): int { Sign(n) * NearestDouble(Magnitude(n), 1) }

  datatype Option<T> = None | Some(value: T)

  /** Number(text) of an integer; very large ones are infinite. */
  function ToNumber(n: int): Option<int> {
    if NearestDouble(Magnitude(n), 1) >= TwoTo(1024) then None else Some(Rounded(n))
  }

  // ------------------------------------------------------------- reading decimals

  predicate Digit(c: char) { '0' <= c <= '9' }

  predicate AllDigits(d: string) { forall k :: 0 <= k < |d| ==> Digit(d[k]) }

  function DigitsEnd(s: string, i: nat): (j: nat)
    requires i <= |s|
    ensures i <= j <= |s| && (j < |s| ==> !Digit(s[j]))
    ensures AllDigits(s[i..j])
    decreases |s| - i
  {
    if i < |s| && Digit(s[i]) then
      var j := DigitsEnd(s, i + 1);
      assert s[i..j] == [s[i]] + s[i + 1..j];
      j
    else i
  }

  function DigitValue(c: char): (v: nat)
    requires Digit(c)
    ensures v <= 9
  {
    c as int - '0' as int
  }

  function Value(d: string): nat
    requires AllDigits(d)
  {
    if d == "" then 0 else 10 * Value(d[..|d| - 1]) + DigitValue(d[|d| - 1])
  }

  /** Sign, digits before and after the point, and power of ten. */
  datatype Parts = Parts(negative: bool, whole: string, fraction: string, exponent: int)

  predicate Signed(s: string, i: nat) { i < |s| && (s[i] == '+' || s[i] == '-') }

  function SignEnd(s: string, i: nat): (j: nat)
    requires i <= |s|
    ensures i <= j <= |s|
  {
    if Signed(s, i) then i + 1 else i
  }

  /** The exponent that stands from k to the end. */
  function ReadExponent(t: string, k: nat): Option<int>
    requires k <= |t|
  {
    if k == |t| then Some(0)
    else if t[k] != 'e' && t[k] != 'E' then None
    else
      var i := SignEnd(t, k + 1);
      var j := DigitsEnd(t, i);
      if j < |t| || i == j then None
      else Some(if i > k + 1 && t[k + 1] == '-' then -(Value(t[i..j]) as int) else Value(t[i..j]))
  }

  /** Digits with at most one point, a sign before and a power of ten after. */
  function Read(s: string): (r: Option<Parts>)
    ensures r.Some? ==> AllDigits(r.value.whole) && AllDigits(r.value.fraction)
  {
    var t := Trim(s);
    var i := SignEnd(t, 0);
    var j := DigitsEnd(t, i);
    var pointed := j < |t| && t[j] == '.';
    var k := if pointed then DigitsEnd(t, j + 1) else j;
    var fraction := if pointed then t[j + 1..k] else "";
    var e := ReadExponent(t, k);
    if e == None || (t[i..j] == "" && fraction == "") then None
    else Some(Parts(i > 0 && t[0] == '-', t[i..j], fraction, e.value))
  }

  function SkipZeros(d: string): (r: string)
    requires AllDigits(d)
    ensures AllDigits(r) && |r| <= |d| && (r != "" ==> r[0] != '0')
  {
    if d != "" && d[0] == '0' then SkipZeros(d[1..]) else d
  }

  /** A decimal is sign * 0.digits * 10^power; the digits do not begin with a zero. */
  datatype Decimal = Decimal(sign: int, power: int, digits: string)

  function ParseDecimal(s: string): (r: Option<Decimal>)
    ensures r.Some? ==> AllDigits(r.value.digits) && (r.value.digits != "" ==> r.value.digits[0] != '0')
  {
    match Read(s)
    case None => None
    case Some(p) =>
      AllDigitsConcat(p.whole, p.fraction);
      var digits := SkipZeros(p.whole + p.fraction);
      match ToNumber(p.exponent)
      case None => None
      case Some(e) =>
        var power := Rounded(|digits| - |p.fraction| + e);
        if Magnitude(power) > MAX_SAFE then None
        else Some(Decimal(if digits == "" then 0 else if p.negative then -1 else 1, power, digits))
  }

  lemma AllDigitsConcat(a: string, b: string)
    requires AllDigits(a) && AllDigits(b)
    ensures AllDigits(a + b)
  {
  }

  // ------------------------------------------------------------- comparing

  /** A cell that is no value, a truth value, or anything else as the text it shows. */
  datatype Cell = Null | Truth(value: bool) | Shown(text: string)

  function TextOf(c: Cell): string
    requires c != Null
  {
    match c
    case Truth(b) => if b then "true" else "false"
    case Shown(t) => t
  }

  function Zeros(n: nat): (z: string)
    ensures |z| == n && forall k :: 0 <= k < n ==> z[k] == '0'
  {
    seq(n, i => '0')
  }

  function PadEnd(d: string, n: nat): string { if |d| < n then d + Zeros(n - |d|) else d }

  /** Strings compare by their first difference. */
  function LexCompare(x: string, y: string): int {
    if x == "" && y == "" then 0
    else if x == "" then -1
    else if y == "" then 1
    else if x[0] != y[0] then (if x[0] < y[0] then -1 else 1)
    else LexCompare(x[1..], y[1..])
  }

  function CompareDecimals(l: Decimal, r: Decimal): int {
    if l.sign != r.sign then l.sign - r.sign
    else if l.sign == 0 then 0
    else if l.power != r.power then Sign(l.power - r.power) * l.sign
    else
      var n := if |l.digits| > |r.digits| then |l.digits| else |r.digits|;
      LexCompare(PadEnd(l.digits, n), PadEnd(r.digits, n)) * l.sign
  }

  function BoolNumber(b: bool): int { if b then 1 else 0 }

  /** Missing values come last. `locale` is the browser's comparison of texts. */
  function CompareValues(a: Cell, b: Cell, numeric: bool, locale: (string, string) -> int): int {
    if a == Null || b == Null then (if a == Null then (if b == Null then 0 else 1) else -1)
    else
      var l, r := ParseDecimal(TextOf(a)), ParseDecimal(TextOf(b));
      if numeric && l.Some? && r.Some? then CompareDecimals(l.value, r.value)
      else if a.Truth? && b.Truth? then BoolNumber(a.value) - BoolNumber(b.value)
      else locale(TextOf(a), TextOf(b))
  }

  // ------------------------------------------------------------- showing stored decimals

  function PadStart(d: string, n: nat): string { if |d| < n then Zeros(n - |d|) + d else d }

  /** `shown` is what the browser writes for the number without its sign. */
  function FormatDecimal(negative: bool, shown: string, scale: int): string {
    var sign := if negative then "-" else "";
    if scale <= 0 then sign + shown
    else
      var digits := PadStart(shown, scale + 1);
      var cut := |digits| - scale;
      sign + digits[..cut] + "." + digits[cut..]
  }
}
