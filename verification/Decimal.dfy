/**
 Decimal numerals: what `fmt`'s `%d` prints and what `strconv.ParseInt` reads
 in base 10 with 64 bits.
 */
module Decimal {
  import opened Wrappers
  import opened Bytes

  const MAX_INT64: int := 0x7fff_ffff_ffff_ffff
  const MIN_INT64: int := -0x8000_0000_0000_0000

  type Int64 = x: int | MIN_INT64 <= x <= MAX_INT64

  function DigitOf(d: int): char
    requires 0 <= d < 10
  {
    '0' + d as char
  }

  function DigitValue(c: char): (d: int)
    requires IsDigit(c)
    ensures 0 <= d < 10 && DigitOf(d) == c
  {
    c as int - '0' as int
  }

  /** The numeral `%d` prints for a natural number. */
  function Numeral(n: nat): (s: Bytes)
    ensures s != "" && AllDigits(s)
    ensures s[0] == '0' ==> n == 0
  {
    if n < 10 then [DigitOf(n)] else Numeral(n / 10) + [DigitOf(n % 10)]
  }

  /** The natural number a run of digits denotes; 0 for the empty run. */
  function NumeralValue(s: Bytes): nat
    requires AllDigits(s)
  {
    if s == "" then 0 else NumeralValue(s[..|s| - 1]) * 10 + DigitValue(s[|s| - 1])
  }

  lemma {:induction false} NumeralRoundTrip(n: nat)
    ensures NumeralValue(Numeral(n)) == n
  {
    var s := Numeral(n);
    if n < 10 {
      assert s[..0] == "";
      assert NumeralValue(s[..0]) == 0;
    } else {
      NumeralRoundTrip(n / 10);
      assert s[..|s| - 1] == Numeral(n / 10);
    }
  }

  predicate NoLeadingZero(s: Bytes) { s != "" && (s[0] != '0' || |s| == 1) }

  /** Printing the value of a digit string gives it back when nothing leads it. */
  lemma {:induction false} NumeralOfValue(s: Bytes)
    requires AllDigits(s) && NoLeadingZero(s)
    ensures Numeral(NumeralValue(s)) == s
  {
    var rest, last := s[..|s| - 1], s[|s| - 1];
    if |s| == 1 {
      assert rest == "";
      assert s == [last];
    } else {
      assert rest[0] == s[0];
      NumeralOfValue(rest);
      assert Numeral(0) == "0";
      assert NumeralValue(rest) > 0;
      assert s == rest + [last];
    }
  }

  /** A leading zero changes nothing but the length. */
  lemma {:induction false} LeadingZero(s: Bytes)
    requires AllDigits(s)
    ensures AllDigits("0" + s) && NumeralValue("0" + s) == NumeralValue(s)
  {
    var z := "0" + s;
    if s == "" {
      assert z[..0] == "" && NumeralValue(z[..0]) == 0;
    } else {
      LeadingZero(s[..|s| - 1]);
      assert z[..|z| - 1] == "0" + s[..|s| - 1];
    }
  }

  /** A positive value printed back is never longer, and shorter exactly after a leading zero. */
  lemma {:induction false} NumeralLength(s: Bytes)
    requires AllDigits(s) && NumeralValue(s) > 0
    ensures |Numeral(NumeralValue(s))| <= |s|
    ensures |Numeral(NumeralValue(s))| == |s| <==> s[0] != '0'
  {
    if s[0] != '0' {
      NumeralOfValue(s);
    } else {
      assert s == "0" + s[1..];
      LeadingZero(s[1..]);
      assert AllDigits(s[1..]);
      NumeralLength(s[1..]);
    }
  }

  predicate AllZeros(s: Bytes) { forall i | 0 <= i < |s| :: s[i] == '0' }

  lemma {:induction false} ZeroValue(s: Bytes)
    requires AllDigits(s)
    ensures NumeralValue(s) == 0 <==> AllZeros(s)
  {
    if s != "" {
      ZeroValue(s[..|s| - 1]);
      var last := s[|s| - 1];
      assert DigitValue(last) == 0 <==> last == '0';
      if AllZeros(s) { assert AllZeros(s[..|s| - 1]); }
      if AllZeros(s[..|s| - 1]) && last == '0' {
        forall i | 0 <= i < |s| ensures s[i] == '0' {
          if i < |s| - 1 { assert s[i] == s[..|s| - 1][i]; }
        }
      }
    }
  }

  /** `%d`. */
  function Print(n: int): Bytes { if n < 0 then "-" + Numeral(-n) else Numeral(n) }

  predicate IsSign(c: char) { c == '+' || c == '-' }

  /** The digits of an optionally signed numeral. */
  function Magnitude(s: Bytes): Bytes { if s != "" && IsSign(s[0]) then s[1..] else s }

  predicate Negative(s: Bytes) { s != "" && s[0] == '-' }

  predicate IsNumeral(s: Bytes) { Magnitude(s) != "" && AllDigits(Magnitude(s)) }

  function SignedValue(s: Bytes): int
    requires IsNumeral(s)
  {
    var m: int := NumeralValue(Magnitude(s));
    if Negative(s) then -m else m
  }

  datatype IntError = BadSyntax | OutOfRange

  /** `strconv.ParseInt(s, 10, 64)`. */
  function ParseInt(s: Bytes): Result<Int64, IntError> {
    if !IsNumeral(s) then Err(BadSyntax)
    else
      var v := SignedValue(s);
      if MIN_INT64 <= v <= MAX_INT64 then Ok(v) else Err(OutOfRange)
  }

  /** The limits of `int64`. */
  lemma Int64Limits()
    ensures MAX_INT64 == 9_223_372_036_854_775_807 && MIN_INT64 == -9_223_372_036_854_775_808
  {
  }

  /** The digits are those of base ten, the most significant first. */
  lemma DigitsInPlace(s: Bytes, c: char)
    requires AllDigits(s) && IsDigit(c)
    ensures c == "0123456789"[DigitValue(c)] && NumeralValue(s + [c]) == 10 * NumeralValue(s) + DigitValue(c)
  {
    assert (s + [c])[..|s|] == s;
  }

  /** A sign in front of digits: a minus negates their value, and a plus leaves it. */
  lemma SignedDigits(g: Bytes, d: Bytes)
    requires (g == "" || g == "+" || g == "-") && d != "" && AllDigits(d)
    ensures IsNumeral(g + d) && Magnitude(g + d) == d
    ensures SignedValue(g + d) == (if g == "-" then -(NumeralValue(d) as int) else NumeralValue(d))
  {
    assert IsDigit(d[0]) && (g != "" ==> (g + d)[1..] == d && (g + d)[0] == g[0]);
    assert g == "" ==> g + d == d;
  }

  lemma PrintShape(n: int)
    ensures IsNumeral(Print(n)) && SignedValue(Print(n)) == n
    ensures n >= 0 ==> AllDigits(Print(n))
    ensures n < 0 ==> Print(n)[0] == '-'
    ensures Negative(Print(n)) <==> n < 0
    ensures Magnitude(Print(n)) == Numeral(if n < 0 then -n else n)
  {
    var m := if n < 0 then -n else n;
    NumeralRoundTrip(m);
    if n < 0 {
      assert Magnitude(Print(n)) == Numeral(m);
    } else {
      assert IsDigit(Print(n)[0]);
    }
  }

  /** Every 64-bit integer survives printing and parsing. */
  lemma ParseIntRoundTrip(n: Int64)
    ensures ParseInt(Print(n)) == Ok(n)
  {
    PrintShape(n);
  }
}
