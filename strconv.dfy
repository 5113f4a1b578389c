/**
 * The two conversions of Go's `strconv` package that the request handlers
 * rely on: `Atoi`, including the value it returns beside an error (the
 * handlers discard the error with `page, _ := strconv.Atoi(...)`), and the
 * decimal printing of an integer that `fmt.Sprint` performs.
 */
module Strconv {
  import opened GoInt

  predicate IsDigit(c: char) { '0' <= c <= '9' }

  function DigitValue(c: char): nat
    requires IsDigit(c)
  {
    (c as int) - ('0' as int)
  }

  function DigitChar(d: nat): (c: char)
    requires d < 10
    ensures IsDigit(c) && DigitValue(c) == d
  {
    (('0' as int) + d) as char
  }

  /** Outcome of `ParseUint(s, 10, 64)` scanning its digits left to right. */
  datatype UintScan = Digits(n: nat) | SyntaxError | RangeError

  /**
   * Scans `s` with accumulator `acc`: a non-digit is a syntax error, and a
   * digit that takes the value past the largest uint64 stops the scan with a
   * range error before any later character is looked at.
   */
  function ScanUint(s: string, acc: nat): UintScan
    requires acc <= MaxUint64
    decreases |s|
  {
    if s == [] then Digits(acc)
    else if !IsDigit(s[0]) then SyntaxError
    else if acc * 10 + DigitValue(s[0]) > MaxUint64 then RangeError
    else ScanUint(s[1..], acc * 10 + DigitValue(s[0]))
  }

  /** The pair `(value, err == nil)` returned by `strconv.Atoi`. */
  datatype ParsedInt = ParsedInt(value: Int64, ok: bool)

  /**
   * `strconv.Atoi` on a 64-bit platform: an optional sign and one or more
   * decimal digits. A syntax error yields 0; a value out of the int64 range
   * yields the bound on that side, also with an error.
   */
  function Atoi(s: string): ParsedInt
  {
    if s == [] then ParsedInt(0, false)
    else
      var neg := s[0] == '-';
      var digits := if s[0] == '+' || s[0] == '-' then s[1..] else s;
      if digits == [] then ParsedInt(0, false)
      else match ScanUint(digits, 0)
        case SyntaxError => ParsedInt(0, false)
        case RangeError => ParsedInt(if neg then MinInt64 else MaxInt64, false)
        case Digits(u) =>
          if !neg && u > MaxInt64 then ParsedInt(MaxInt64, false)
          else if neg && u > -MinInt64 then ParsedInt(MinInt64, false)
          else var v: int := u; ParsedInt(if neg then -v else v, true)
  }

  /** Decimal digits of `n`, without leading zeros. */
  function NatToDecimal(n: nat): (r: string)
    ensures |r| >= 1
    ensures forall i :: 0 <= i < |r| ==> IsDigit(r[i])
  {
    if n < 10 then [DigitChar(n)] else NatToDecimal(n / 10) + [DigitChar(n % 10)]
  }

  /** `fmt.Sprint` of an integer: a minus sign for negatives, then the digits. */
  function Itoa(n: int): (r: string)
    ensures |r| >= 1
    ensures (r[0] == '-') <==> n < 0
  {
    if n < 0 then "-" + NatToDecimal(-n) else NatToDecimal(n)
  }

  /** Scanning one more character continues from where the prefix left off. */
  lemma {:induction false} ScanSnoc(s: string, c: char, acc: nat)
    requires acc <= MaxUint64
    ensures ScanUint(s + [c], acc) ==
      match ScanUint(s, acc)
      case Digits(v) =>
        if !IsDigit(c) then SyntaxError
        else if v * 10 + DigitValue(c) > MaxUint64 then RangeError
        else Digits(v * 10 + DigitValue(c))
      case other => other
    decreases |s|
  {
    if s == [] {
      assert s + [c] == [c];
    } else {
      assert (s + [c])[0] == s[0];
      assert (s + [c])[1..] == s[1..] + [c];
      if IsDigit(s[0]) && acc * 10 + DigitValue(s[0]) <= MaxUint64 {
        ScanSnoc(s[1..], c, acc * 10 + DigitValue(s[0]));
      }
    }
  }

  /** The digits `NatToDecimal` prints scan back to the same number. */
  lemma {:induction false} ScanDecimal(n: nat)
    requires n <= MaxUint64
    ensures ScanUint(NatToDecimal(n), 0) == Digits(n)
  {
    if n < 10 {
      var s := NatToDecimal(n);
      assert s[1..] == [];
    } else {
      ScanDecimal(n / 10);
      ScanSnoc(NatToDecimal(n / 10), DigitChar(n % 10), 0);
    }
  }

  /** Printing an int64 and parsing it back with `Atoi` gives the same number without error. */
  lemma AtoiItoa(n: Int64)
    ensures Atoi(Itoa(n)) == ParsedInt(n, true)
  {
    var s := Itoa(n);
    if n < 0 {
      var m: nat := -(n as int);
      assert s[1..] == NatToDecimal(m);
      ScanDecimal(m);
    } else {
      assert IsDigit(s[0]);
      ScanDecimal(n);
    }
  }

  /** Two int64 values print the same iff they are equal. */
  lemma ItoaInjective(m: Int64, n: Int64)
    ensures Itoa(m) == Itoa(n) <==> m == n
  {
    AtoiItoa(m);
    AtoiItoa(n);
  }
}
