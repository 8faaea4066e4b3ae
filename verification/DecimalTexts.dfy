/** Which texts a console column reads as decimals, and as which: the grammar of the pattern in
    _web/src/table-sort.ts, printed and read back. */
module DecimalTexts {
  import opened Text
  import opened Decimals

  /** How a power of ten is written: not at all, or a letter, a sign or none, and digits. */
  datatype Power = NoPower | Power(letter: char, sign: string, digits: string)

  /** A written decimal: sign or none, digits, and digits after a point if there is one. */
  datatype Written = Written(sign: string, whole: string, point: bool, fraction: string, power: Power)

  predicate IsSign(x: string) { x == "" || x == "+" || x == "-" }

  predicate WellWritten(d: Written) {
    && IsSign(d.sign) && AllDigits(d.whole) && AllDigits(d.fraction) && (!d.point ==> d.fraction == "")
    && (d.whole != "" || d.fraction != "")
    && (d.power.Power? ==> (d.power.letter == 'e' || d.power.letter == 'E') && IsSign(d.power.sign)
                           && AllDigits(d.power.digits) && d.power.digits != "")
  }

  function PrintFraction(d: Written): string { if d.point then "." + d.fraction else "" }

  function PrintPower(p: Power): string { if p.NoPower? then "" else [p.letter] + p.sign + p.digits }

  function Print(d: Written): string { d.sign + d.whole + PrintFraction(d) + PrintPower(d.power) }

  /** The exponent with its sign. */
  function Exponent(p: Power): int
    requires p.Power? ==> AllDigits(p.digits)
  {
    if p.NoPower? then 0 else if p.sign == "-" then -(Value(p.digits) as int) else Value(p.digits)
  }

  // ------------------------------------------------------------- printed texts are read

  lemma {:induction false} DigitsRun(t: string, i: nat, j: nat)
    requires i <= j <= |t| && AllDigits(t[i..j]) && (j < |t| ==> !Digit(t[j]))
    ensures DigitsEnd(t, i) == j
    decreases j - i
  {
    if i < j {
      assert t[i..j][0] == t[i] && t[i..j][1..] == t[i + 1..j];
      DigitsRun(t, i + 1, j);
    }
  }

  /** Where the parts of a printed decimal are. */
  lemma Places(d: Written, t: string, i: nat, j: nat, k: nat)
    requires WellWritten(d) && t == Print(d) && i == |d.sign| && j == i + |d.whole| && k == j + |PrintFraction(d)|
    ensures k <= |t| && t[..i] == d.sign && t[i..j] == d.whole && t[j..k] == PrintFraction(d) && t[k..] == PrintPower(d.power)
  {
    hide WellWritten, PrintFraction, PrintPower;
  }

  /** No part begins with a character that the part before it could take. */
  lemma Borders(d: Written, t: string, i: nat, j: nat, k: nat)
    requires WellWritten(d) && i <= j <= k <= |t| && t[..i] == d.sign && t[i..j] == d.whole
    requires t[j..k] == PrintFraction(d) && t[k..] == PrintPower(d.power)
    ensures SignEnd(t, 0) == i && (i > 0 && t[0] == '-' <==> d.sign == "-")
    ensures DigitsEnd(t, i) == j && (j < |t| && t[j] == '.' <==> d.point)
    ensures if d.point then j < k && t[j + 1..k] == d.fraction && DigitsEnd(t, j + 1) == k else k == j
  {
    hide PrintPower;
    PowerFirst(d.power);
    if k < |t| { assert t[k] == t[k..][0]; }
    if j < k { assert t[j] == t[j..k][0] == '.' && t[j + 1..k] == t[j..k][1..]; }
    if i < j { assert t[i] == t[i..j][0]; }
    if i > 0 { assert t[0] == t[..i][0]; }
    assert k == |t| ==> t[k..] == "";
    DigitsRun(t, i, j);
    if d.point { DigitsRun(t, j + 1, k); }
  }

  lemma PowerFirst(p: Power)
    requires p.Power? ==> p.letter == 'e' || p.letter == 'E'
    ensures PrintPower(p) == "" <==> p.NoPower?
    ensures p.Power? ==> PrintPower(p)[0] == p.letter && !Digit(p.letter)
  {
  }

  lemma PowerRead(p: Power, t: string, k: nat)
    requires k <= |t| && t[k..] == PrintPower(p)
    requires p.Power? ==> (p.letter == 'e' || p.letter == 'E') && IsSign(p.sign) && AllDigits(p.digits) && p.digits != ""
    ensures ReadExponent(t, k) == Some(Exponent(p))
  {
    hide Value, DigitsEnd;
    if p.Power? {
      var u, n := t[k..], |p.sign|;
      assert u == [p.letter] + p.sign + p.digits;
      assert u[0] == p.letter && u[1..1 + n] == p.sign && u[1 + n..] == p.digits;
      assert t[k] == u[0] && t[k + 1] == u[1] && t[k + 1 + n..] == u[1 + n..] && t[k + 1 + n..|t|] == p.digits;
      if n > 0 { assert u[1] == p.sign[0]; } else { assert u[1] == p.digits[0]; }
      DigitsRun(t, k + 1 + n, |t|);
    } else {
      assert t[k..] == "" && k == |t|;
    }
  }

  lemma TrimmedText(d: Written)
    requires WellWritten(d)
    ensures Trimmed(Print(d))
  {
    var t, i := Print(d), |d.sign|;
    var j := i + |d.whole|;
    var k := j + |PrintFraction(d)|;
    Places(d, t, i, j, k);
    NoSpaces(d);
    forall n | 0 <= n < |t|
      ensures !IsSpace(t[n])
    {
      if n < i { assert t[n] == t[..i][n]; }
      else if n < j { assert t[n] == t[i..j][n - i]; }
      else if n < k { assert t[n] == t[j..k][n - j]; }
      else { assert t[n] == t[k..][n - k]; }
    }
  }

  predicate Spaceless(x: string) { forall n :: 0 <= n < |x| ==> !IsSpace(x[n]) }

  lemma NoSpaces(d: Written)
    requires WellWritten(d)
    ensures Spaceless(d.sign) && Spaceless(d.whole) && Spaceless(PrintFraction(d)) && Spaceless(PrintPower(d.power))
  {
    var p := PrintPower(d.power);
    if d.power.Power? {
      forall n | 0 <= n < |p|
        ensures !IsSpace(p[n])
      {
        if n > |d.power.sign| { assert p[n] == d.power.digits[n - 1 - |d.power.sign|]; }
      }
    }
  }

  /** Every written decimal is read as its parts, with the sign of its exponent, whatever spaces
      stand around it. */
  lemma ReadPrinted(before: string, d: Written, after: string)
    requires WellWritten(d) && AllSpace(before, 0, |before|) && AllSpace(after, 0, |after|)
    ensures Read(before + Print(d) + after) == Some(Parts(d.sign == "-", d.whole, d.fraction, Exponent(d.power)))
  {
    hide Print, WellWritten, Exponent, Trim, AllSpace, DigitsEnd, ReadExponent, SignEnd, AllDigits;
    TrimmedText(d);
    TrimPadded(before, Print(d), after);
    ReadTrimmed(d, before + Print(d) + after, Print(d));
  }

  lemma ReadTrimmed(d: Written, s: string, t: string)
    requires WellWritten(d) && Trim(s) == t == Print(d)
    ensures Read(s) == Some(Parts(d.sign == "-", d.whole, d.fraction, Exponent(d.power)))
  {
    hide Print, Exponent, Trim, DigitsEnd, ReadExponent, SignEnd, PrintFraction, PrintPower, Value, WellWritten, Read;
    Digits(d);
    var i := |d.sign|;
    var j := i + |d.whole|;
    var k := j + |PrintFraction(d)|;
    Places(d, t, i, j, k);
    Borders(d, t, i, j, k);
    WellPowered(d);
    PowerRead(d.power, t, k);
    ReadIs(s, t, i, j, k, d.point, Exponent(d.power), d.fraction);
  }

  lemma Digits(d: Written)
    requires WellWritten(d)
    ensures AllDigits(d.whole) && AllDigits(d.fraction) && (d.whole != "" || d.fraction != "") && (!d.point ==> d.fraction == "")
  {
  }

  lemma WellPowered(d: Written)
    requires WellWritten(d)
    ensures d.power.Power? ==>
      (d.power.letter == 'e' || d.power.letter == 'E') && IsSign(d.power.sign) && AllDigits(d.power.digits) && d.power.digits != ""
  {
  }

  lemma ReadIs(s: string, t: string, i: nat, j: nat, k: nat, point: bool, e: int, f: string)
    requires t == Trim(s) && i == SignEnd(t, 0) && j == DigitsEnd(t, i) && (point <==> j < |t| && t[j] == '.')
    requires k == (if point then DigitsEnd(t, j + 1) else j) && ReadExponent(t, k) == Some(e)
    requires f == (if point then t[j + 1..k] else "") && !(t[i..j] == "" && f == "")
    ensures Read(s) == Some(Parts(i > 0 && t[0] == '-', t[i..j], f, e))
  {
    hide Trim, DigitsEnd, ReadExponent, SignEnd, AllDigits;
  }

  // ------------------------------------------------------------- nothing else is

  /** Whatever is read is a written decimal between spaces, read as its parts. */
  lemma OnlyPrintedIsRead(s: string) returns (d: Written)
    requires Read(s).Some?
    ensures WellWritten(d) && Trim(s) == Print(d)
    ensures Read(s) == Some(Parts(d.sign == "-", d.whole, d.fraction, Exponent(d.power)))
  {
    hide DigitsEnd, ReadExponent, SignEnd, PrintPower, Trim, Value, AllDigits, Exponent;
    var t := Trim(s);
    var i := SignEnd(t, 0);
    var j := DigitsEnd(t, i);
    var point := j < |t| && t[j] == '.';
    var k := if point then DigitsEnd(t, j + 1) else j;
    var p := OnlyPower(t, k);
    SignText(t);
    NoDigits();
    d := Written(t[..i], t[i..j], point, if point then t[j + 1..k] else "", p);
    FourPieces(t, i, j, k, PrintFraction(d), PrintPower(p));
  }

  lemma NoDigits()
    ensures AllDigits("")
  {
  }

  lemma FourPieces(t: string, i: nat, j: nat, k: nat, f: string, p: string)
    requires i <= j <= k <= |t| && t[k..] == p
    requires if j < |t| && t[j] == '.' then j < k && f == "." + t[j + 1..k] else k == j && f == ""
    ensures t == t[..i] + t[i..j] + f + p
  {
    assert t[j..k] == f;
  }

  lemma SignText(t: string)
    ensures var i := SignEnd(t, 0); IsSign(t[..i]) && (t[..i] == "-" <==> i > 0 && t[0] == '-')
  {
  }

  lemma OnlyPower(t: string, k: nat) returns (p: Power)
    requires k <= |t| && ReadExponent(t, k).Some?
    ensures p.Power? ==> (p.letter == 'e' || p.letter == 'E') && IsSign(p.sign) && AllDigits(p.digits) && p.digits != ""
    ensures t[k..] == PrintPower(p) && ReadExponent(t, k) == Some(Exponent(p))
  {
    hide Value, DigitsEnd;
    p := NoPower;
    if k < |t| {
      var i := SignEnd(t, k + 1);
      p := Power(t[k], t[k + 1..i], t[i..]);
      assert t[i..] == t[i..DigitsEnd(t, i)];
      assert t[k..] == [t[k]] + t[k + 1..i] + t[i..];
    }
  }
}
