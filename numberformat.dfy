/**
 * `formatNumber`: a float rendered with a fixed number of decimals, a
 * thousands separator between groups of three integer digits and a chosen
 * decimal separator.
 */
module NumberFormat {
  import opened Strings
  import opened Values

  /** `d` with `sep` inserted between groups of three characters, counted from the right. */
  function Grouped(d: string, sep: char): string
    decreases |d|
  {
    if |d| <= 3 then d else Grouped(d[..|d| - 3], sep) + [sep] + d[|d| - 3..]
  }

  /** `s` with every `sep` deleted. */
  function Ungroup(s: string, sep: char): string
  {
    if s == [] then []
    else Ungroup(s[..|s| - 1], sep) + (if s[|s| - 1] == sep then [] else [s[|s| - 1]])
  }

  /** How many separators the grouping of `n` digits holds. */
  function SeparatorCount(n: int): int
  {
    (n - 1) / 3
  }

  lemma {:induction false} GroupedLength(d: string, sep: char)
    requires |d| >= 1
    ensures |Grouped(d, sep)| == |d| + SeparatorCount(|d|)
    decreases |d|
  {
    if |d| > 3 {
      GroupedLength(d[..|d| - 3], sep);
    }
  }

  /** `GroupedCons` for a rest of at most three characters. */
  lemma GroupedConsShort(c: char, y: string, sep: char)
    requires |y| <= 3
    ensures Grouped([c] + y, sep) ==
      if |y| > 0 && |y| % 3 == 0 then [c, sep] + Grouped(y, sep) else [c] + Grouped(y, sep)
  {
    assert (|y| > 0 && |y| % 3 == 0) == (|y| == 3);
    var x := [c] + y;
    if |y| == 3 {
      assert x[..1] == [c] && x[1..] == y;
      assert Grouped(x, sep) == Grouped([c], sep) + [sep] + y;
    }
  }

  /** The step of `GroupedCons` for a rest of more than three characters: a prefix in front of the shorter grouping stays in front. */
  lemma GroupedConsLong(c: char, y: string, sep: char, p: string)
    requires |y| > 3
    requires Grouped([c] + y[..|y| - 3], sep) == p + Grouped(y[..|y| - 3], sep)
    ensures Grouped([c] + y, sep) == p + Grouped(y, sep)
  {
    var y' := y[..|y| - 3];
    var tail := y[|y| - 3..];
    GroupedConsUnfold(c, y, sep);
    assert Grouped(y, sep) == Grouped(y', sep) + [sep] + tail;
    Regroup(p, Grouped(y', sep), [sep], tail);
  }

  lemma Regroup(p: string, a: string, b: string, t: string)
    ensures p + a + b + t == p + (a + b + t)
  {
  }

  /** One unfolding of `Grouped` on a leading character and a rest of more than three characters. */
  lemma GroupedConsUnfold(c: char, y: string, sep: char)
    requires |y| > 3
    ensures Grouped([c] + y, sep) == Grouped([c] + y[..|y| - 3], sep) + [sep] + y[|y| - 3..]
  {
    var x := [c] + y;
    var n := |x| - 3;
    assert x[..n] == [c] + y[..|y| - 3];
    assert x[n..] == y[|y| - 3..];
    assert Grouped(x, sep) == Grouped(x[..n], sep) + [sep] + x[n..];
  }

  lemma ShiftByThree(n: int)
    requires n > 3
    ensures ((n - 3) > 0 && (n - 3) % 3 == 0) == (n > 0 && n % 3 == 0)
  {
  }

  /** Grouping one more leading character adds a separator exactly when the rest is a non-empty multiple of three. */
  lemma {:induction false} GroupedCons(c: char, y: string, sep: char)
    ensures Grouped([c] + y, sep) ==
      if |y| > 0 && |y| % 3 == 0 then [c, sep] + Grouped(y, sep) else [c] + Grouped(y, sep)
    decreases |y|
  {
    if |y| <= 3 {
      GroupedConsShort(c, y, sep);
    } else {
      var y' := y[..|y| - 3];
      GroupedCons(c, y', sep);
      ShiftByThree(|y|);
      GroupedConsLong(c, y, sep, if |y| % 3 == 0 then [c, sep] else [c]);
    }
  }

  lemma {:induction false} UngroupConcat(a: string, b: string, sep: char)
    ensures Ungroup(a + b, sep) == Ungroup(a, sep) + Ungroup(b, sep)
    decreases |b|
  {
    if b != [] {
      var b' := b[..|b| - 1];
      assert (a + b)[..|a + b| - 1] == a + b';
      UngroupConcat(a, b', sep);
    } else {
      assert a + b == a;
    }
  }

  lemma {:induction false} UngroupPlain(d: string, sep: char)
    requires sep !in d
    ensures Ungroup(d, sep) == d
    decreases |d|
  {
    if d != [] {
      UngroupPlain(d[..|d| - 1], sep);
      assert d[..|d| - 1] + [d[|d| - 1]] == d;
    }
  }

  lemma SplitJoin(d: string, k: nat)
    requires k <= |d|
    ensures d[..k] + d[k..] == d
  {
  }

  lemma ConsSlice(d: string, i: nat)
    requires i < |d|
    ensures [d[i]] + d[i + 1..] == d[i..]
  {
  }

  lemma UngroupDropSep(s: string, sep: char)
    ensures Ungroup(s + [sep], sep) == Ungroup(s, sep)
  {
    assert (s + [sep])[..|s|] == s;
  }

  /** Deleting the separators from a grouping gives back the digits. */
  lemma {:induction false} UngroupGrouped(d: string, sep: char)
    requires sep !in d
    ensures Ungroup(Grouped(d, sep), sep) == d
    decreases |d|
  {
    if |d| <= 3 {
      UngroupPlain(d, sep);
    } else {
      var init, last := d[..|d| - 3], d[|d| - 3..];
      var gi := Grouped(init, sep);
      assert sep !in init && sep !in last by {
        SplitJoin(d, |d| - 3);
      }
      UngroupGrouped(init, sep);
      assert Grouped(d, sep) == gi + [sep] + last;
      UngroupConcat(gi + [sep], last, sep);
      UngroupDropSep(gi, sep);
      UngroupPlain(last, sep);
      SplitJoin(d, |d| - 3);
    }
  }

  /** A grouping starts with the first digit. */
  lemma {:induction false} GroupedHead(d: string, sep: char)
    requires |d| >= 1
    ensures |Grouped(d, sep)| >= 1 && Grouped(d, sep)[0] == d[0]
    decreases |d|
  {
    if |d| > 3 {
      GroupedHead(d[..|d| - 3], sep);
    }
  }

  /** A separator stands exactly at the positions four, eight, … from the right end. */
  lemma {:induction false} GroupedShape(d: string, sep: char)
    requires sep !in d
    ensures forall k :: 0 <= k < |Grouped(d, sep)| ==>
      (Grouped(d, sep)[k] == sep <==> (|Grouped(d, sep)| - k) % 4 == 0)
    decreases |d|
  {
    var r := Grouped(d, sep);
    if |d| <= 3 {
      forall k | 0 <= k < |r|
        ensures r[k] != sep && (|r| - k) % 4 != 0
      {
        assert r[k] in d;
      }
    } else {
      var g := Grouped(d[..|d| - 3], sep);
      var last := d[|d| - 3..];
      GroupedShape(d[..|d| - 3], sep);
      assert r == g + [sep] + last;
      forall k | 0 <= k < |r|
        ensures r[k] == sep <==> (|r| - k) % 4 == 0
      {
        if k < |g| {
          assert r[k] == g[k];
          assert (|r| - k) % 4 == (|g| - k) % 4;
        } else if k > |g| {
          assert r[k] == last[k - |g| - 1];
          assert r[k] in d;
        }
      }
    }
  }

  /** The part before the first '.' of a formatted number. */
  function IntegerPart(s: string): string
  {
    Split(s, '.')[0]
  }

  /** The part after the first '.', or "" when there is none. */
  function FractionPart(s: string): string
  {
    var parts := Split(s, '.');
    if |parts| > 1 then parts[1] else ""
  }

  /** The integer part, the decimal separator and the fraction, the separator only with a fraction. */
  function Assemble(ip: string, fp: string, decSep: string): string
  {
    if fp != "" then ip + decSep + fp else ip
  }

  /** The grouping step as the loop performs it: every character of the integer part, a sign included, counts as a digit. */
  function GroupedAsWritten(ip: string, thouSep: string): string
  {
    if |ip| > 3 && thouSep != "" then Grouped(ip, thouSep[0]) else ip
  }

  /** Length of a leading sign of a formatted number. */
  function SignLength(ip: string): (k: nat)
    ensures k <= |ip|
  {
    if |ip| > 0 && (ip[0] == '-' || ip[0] == '+') then 1 else 0
  }

  /** The grouping step with a leading sign kept out of the digit count. */
  function GroupedSigned(ip: string, thouSep: string): string
  {
    var k := SignLength(ip);
    ip[..k] + GroupedAsWritten(ip[k..], thouSep)
  }

  /** `formatNumber` as written, on the text `strconv.FormatFloat` produced. */
  function FormattedNumberAsWritten(s: string, decSep: string, thouSep: string): string
  {
    Assemble(GroupedAsWritten(IntegerPart(s), thouSep), FractionPart(s), decSep)
  }

  /** `formatNumber` with the sign handled as evidently intended. */
  function FormattedNumber(s: string, decSep: string, thouSep: string): string
  {
    Assemble(GroupedSigned(IntegerPart(s), thouSep), FractionPart(s), decSep)
  }

  /** The loop's test for writing a separator before the character at `i` of `n`. */
  predicate SeparatorDue(n: int, i: int)
  {
    (n - i - 1) % 3 == 0 && i != n - 1
  }

  /** One step of the right-to-left fill: the grouping of `d[i..]` from that of `d[i + 1..]`. */
  lemma GroupedStep(d: string, i: nat, sep: char)
    requires i < |d|
    ensures Grouped(d[i..], sep) ==
      if SeparatorDue(|d|, i) then [d[i]] + ([sep] + Grouped(d[i + 1..], sep))
      else [d[i]] + Grouped(d[i + 1..], sep)
  {
    var rest := d[i + 1..];
    assert |rest| == |d| - i - 1;
    GroupedCons(d[i], rest, sep);
    ConsSlice(d, i);
    PairFront(d[i], sep, Grouped(rest, sep));
  }

  lemma PairFront(c: char, sep: char, x: string)
    ensures [c, sep] + x == [c] + ([sep] + x)
  {
  }

  /** What the fill has written once the characters from `i` on are placed, step by step as the loop places them. */
  function FilledFrom(d: string, i: nat, sep: char): string
    requires i <= |d|
    decreases |d| - i
  {
    if i == |d| then []
    else if SeparatorDue(|d|, i) then [d[i]] + ([sep] + FilledFrom(d, i + 1, sep))
    else [d[i]] + FilledFrom(d, i + 1, sep)
  }

  /** The step-by-step fill is the grouping of the remaining characters. */
  lemma {:induction false} FilledFromGrouped(d: string, i: nat, sep: char)
    requires i <= |d|
    ensures FilledFrom(d, i, sep) == Grouped(d[i..], sep)
    decreases |d| - i
  {
    if i < |d| {
      FilledFromGrouped(d, i + 1, sep);
      GroupedStep(d, i, sep);
    } else {
      assert d[i..] == [];
    }
  }

  /** The fill of a longer suffix is at least as long. */
  lemma {:induction false} FilledFromShorter(d: string, i: nat, sep: char)
    requires i <= |d|
    ensures |FilledFrom(d, i, sep)| <= |FilledFrom(d, 0, sep)|
    decreases i
  {
    if i > 0 {
      FilledFromShorter(d, i - 1, sep);
    }
  }

  /** The right-to-left fill of a byte buffer sized for the digits and their separators. */
  method GroupDigits(ip: string, sep: char) returns (g: string)
    requires |ip| > 3
    ensures g == Grouped(ip, sep)
  {
    var n := |ip|;
    var a := new char[n + SeparatorCount(n)];
    GroupedLength(ip, sep);
    FilledFromGrouped(ip, 0, sep);
    assert ip[0..] == ip;
    var j := a.Length - 1;
    var i := n - 1;
    ghost var done: string := [];
    while i >= 0
      invariant -1 <= i < n
      invariant done == FilledFrom(ip, i + 1, sep)
      invariant 0 <= j + 1 <= a.Length && j + 1 + |done| == a.Length
      invariant a[j + 1..] == done
    {
      FilledFromShorter(ip, i, sep);
      if SeparatorDue(n, i) {
        ghost var buf := a[..];
        a[j] := sep;
        WriteInFront(buf, j, sep);
        j := j - 1;
        done := [sep] + done;
      }
      ghost var buf := a[..];
      a[j] := ip[i];
      WriteInFront(buf, j, ip[i]);
      j := j - 1;
      done := [ip[i]] + done;
      i := i - 1;
    }
    g := a[..];
    assert a[..] == a[0..];
  }

  /** Writing at `j` puts the character in front of what already follows `j`. */
  lemma WriteInFront(buf: seq<char>, j: int, x: char)
    requires 0 <= j < |buf|
    ensures buf[j := x][j..] == [x] + buf[j + 1..]
  {
  }

  /** `formatNumber` as written: the sign of a negative number is grouped like a digit. */
  method FormatNumberAsWritten(rt: Runtime, n: Float64, decimals: int, decSep: string, thouSep: string)
    returns (out: string)
    ensures out == FormattedNumberAsWritten(rt.formatFloat(n, decimals), decSep, thouSep)
  {
    var s := rt.formatFloat(n, decimals);
    var parts := Split(s, '.');
    var integerPart := parts[0];
    var fractionalPart := "";
    if |parts| > 1 {
      fractionalPart := parts[1];
    }
    if |integerPart| > 3 && thouSep != "" {
      integerPart := GroupDigits(integerPart, thouSep[0]);
    }
    if fractionalPart != "" {
      return integerPart + decSep + fractionalPart;
    }
    return integerPart;
  }

  /** `formatNumber` with the leading sign kept out of the digit groups. */
  method FormatNumber(rt: Runtime, n: Float64, decimals: int, decSep: string, thouSep: string)
    returns (out: string)
    ensures out == FormattedNumber(rt.formatFloat(n, decimals), decSep, thouSep)
  {
    var s := rt.formatFloat(n, decimals);
    var parts := Split(s, '.');
    var integerPart := parts[0];
    var fractionalPart := "";
    if |parts| > 1 {
      fractionalPart := parts[1];
    }
    var k := SignLength(integerPart);
    var digits := integerPart[k..];
    if |digits| > 3 && thouSep != "" {
      digits := GroupDigits(digits, thouSep[0]);
    }
    integerPart := integerPart[..k] + digits;
    if fractionalPart != "" {
      return integerPart + decSep + fractionalPart;
    }
    return integerPart;
  }

  lemma SplitNegativeExample()
    ensures IntegerPart("-123.50") == "-123" && FractionPart("-123.50") == "50"
  {
    var s := "-123.50";
    assert s[4] == '.' && '.' !in s[..4];
    assert IndexOf(s, '.') == 4;
    assert s[5..] == "50";
    assert Split(s[5..], '.') == ["50"];
  }

  /** A negative number with three integer digits gets a separator right after its minus sign. */
  lemma SignGroupedAsDigit()
    ensures FormattedNumberAsWritten("-123.50", ",", ".") == "-.123,50"
    ensures FormattedNumber("-123.50", ",", ".") == "-123,50"
  {
    SplitNegativeExample();
    var ip := "-123";
    assert ip[..1] == "-" && ip[1..] == "123";
    assert Grouped(ip, '.') == "-" + "." + "123";
    assert GroupedSigned(ip, ".") == "-" + "123";
  }

  /**
   * The corrected grouping keeps the sign in front, never puts a separator
   * right after it, and deleting the separators gives back the integer part.
   */
  lemma SignedGrouping(ip: string, sep: char)
    requires sep !in ip
    ensures var r := GroupedSigned(ip, [sep]);
      && r[..SignLength(ip)] == ip[..SignLength(ip)]
      && (|r| > SignLength(ip) ==> r[SignLength(ip)] != sep)
      && Ungroup(r, sep) == ip
  {
    var k := SignLength(ip);
    var sign, digits := ip[..k], ip[k..];
    SplitJoin(ip, k);
    assert sep !in sign && sep !in digits;
    var gd := GroupedAsWritten(digits, [sep]);
    if |digits| > 3 {
      UngroupGrouped(digits, sep);
      GroupedHead(digits, sep);
    } else {
      UngroupPlain(digits, sep);
    }
    assert GroupedSigned(ip, [sep]) == sign + gd;
    PrefixOfConcat(sign, gd);
    UngroupConcat(sign, gd, sep);
    UngroupPlain(sign, sep);
  }

  lemma PrefixOfConcat(a: string, b: string)
    ensures (a + b)[..|a|] == a
  {
  }

  /** Without a sign the corrected and the as-written formatting agree. */
  lemma UnsignedAgrees(s: string, decSep: string, thouSep: string)
    requires SignLength(IntegerPart(s)) == 0
    ensures FormattedNumber(s, decSep, thouSep) == FormattedNumberAsWritten(s, decSep, thouSep)
  {
    var ip := IntegerPart(s);
    assert ip[..0] + GroupedAsWritten(ip[0..], thouSep) == GroupedAsWritten(ip, thouSep) by {
      assert ip[0..] == ip;
    }
  }

  /**
   * Separators only where due: an integer part of at most three digits, or
   * an empty thousands separator, leaves the integer part as it is, and the
   * decimal separator is added only in front of a non-empty fraction.
   */
  lemma SeparatorsOnlyWhereDue(s: string, decSep: string, thouSep: string)
    ensures var ip := IntegerPart(s);
      (|ip| - SignLength(ip) <= 3 || thouSep == "") ==>
        FormattedNumber(s, decSep, thouSep) == ip + (if FractionPart(s) != "" then decSep + FractionPart(s) else "")
    ensures '.' !in s ==> FormattedNumber(s, decSep, thouSep) == GroupedSigned(s, thouSep)
    ensures var ip := IntegerPart(s);
      (|ip| <= 3 || thouSep == "") ==>
        FormattedNumberAsWritten(s, decSep, thouSep) == ip + (if FractionPart(s) != "" then decSep + FractionPart(s) else "")
  {
    var ip := IntegerPart(s);
    assert ip[..SignLength(ip)] + ip[SignLength(ip)..] == ip;
  }
}
