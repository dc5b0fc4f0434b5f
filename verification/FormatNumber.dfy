/** The digits of a number (musl_fmtnum of editor/format.go). */
module FormatNumber {
  import FormatIso

  const TWO_64: nat := 0x1_0000_0000_0000_0000

  function DigitChar(d: nat, upper: bool): char
    requires d < 16
  {
    if d < 10 then '0' + d as char
    else if upper then 'A' + (d - 10) as char
    else 'a' + (d - 10) as char
  }

  function DigitValue(c: char): nat {
    if '0' <= c <= '9' then (c - '0') as nat
    else if 'a' <= c <= 'f' then (c - 'a') as nat + 10
    else if 'A' <= c <= 'F' then (c - 'A') as nat + 10
    else 0
  }

  /** v / base and v % base. */
  function Rest(v: nat, base: nat): nat
    requires base > 0
  {
    v / base
  }

  function Last(v: nat, base: nat): nat
    requires base > 0
  {
    v % base
  }

  function Times(v: nat, base: nat): nat {
    v * base
  }

  lemma Quotient(q: nat, r: nat, v: nat, base: nat)
    requires base >= 2 && q * base + r == v && r < base
    ensures v > 0 ==> q < v
    ensures q == 0 <==> v < base
    ensures v < base ==> r == v
  {
    AtLeastTwice(q, base);
  }

  lemma {:induction false} AtLeastTwice(q: nat, base: nat)
    requires base >= 2
    ensures q * base >= 2 * q && (q > 0 ==> q * base >= base)
  {
    if q > 0 {
      AtLeastTwice(q - 1, base);
      assert q * base == (q - 1) * base + base;
    }
  }

  lemma Splits(v: nat, base: nat)
    requires base >= 2
    ensures Times(Rest(v, base), base) + Last(v, base) == v && Last(v, base) < base
    ensures v > 0 ==> Rest(v, base) < v
    ensures Rest(v, base) == 0 <==> v < base
    ensures v < base ==> Last(v, base) == v
  {
    Quotient(v / base, v % base, v, base);
  }

  lemma Larger(q: nat, p: nat, base: nat)
    ensures q >= p ==> Times(q, base) >= Times(p, base)
  {
    if q >= p {
      assert (q - p) * base >= 0;
    }
  }

  lemma RestBelow(v: nat, base: nat, p: nat)
    requires base >= 2 && v < Times(p, base)
    ensures Rest(v, base) < p
  {
    Splits(v, base);
    Larger(Rest(v, base), p, base);
  }

  /** A number's digits in a base, no more than it needs. */
  function Digits(v: nat, base: nat, upper: bool): (r: string)
    requires 2 <= base <= 16
    ensures |r| >= 1
  {
    Splits(v, base);
    if v < base then [DigitChar(v, upper)]
    else Digits(Rest(v, base), base, upper) + [DigitChar(Last(v, base), upper)]
  }

  function Value(s: string, base: nat): nat {
    if s == [] then 0 else Times(Value(s[..|s| - 1], base), base) + DigitValue(s[|s| - 1])
  }

  predicate IsDigitChar(c: char) {
    '0' <= c <= '9' || 'a' <= c <= 'f' || 'A' <= c <= 'F'
  }

  lemma DigitReadsBack(d: nat, upper: bool)
    requires d < 16
    ensures DigitValue(DigitChar(d, upper)) == d
    ensures DigitChar(d, upper) == '0' <==> d == 0
    ensures IsDigitChar(DigitChar(d, upper))
  {
  }

  /** The digits say the number. */
  lemma {:induction false} ReadsBack(v: nat, base: nat, upper: bool)
    requires 2 <= base <= 16
    ensures Value(Digits(v, base, upper), base) == v
  {
    hide Times, Rest, Last, DigitChar, DigitValue;
    Splits(v, base);
    var s := Digits(v, base, upper);
    if v < base {
      DigitReadsBack(v, upper);
      assert s[..0] == [];
    } else {
      DigitReadsBack(Last(v, base), upper);
      ReadsBack(Rest(v, base), base, upper);
      assert s[..|s| - 1] == Digits(Rest(v, base), base, upper);
    }
  }

  /** And none is a leading zero, nor anything but a digit. */
  lemma {:induction false} OnlyDigits(v: nat, base: nat, upper: bool)
    requires 2 <= base <= 16
    ensures Digits(v, base, upper)[0] == '0' <==> v == 0
    ensures v == 0 ==> Digits(v, base, upper) == "0"
    ensures forall k :: 0 <= k < |Digits(v, base, upper)| ==>
              IsDigitChar(Digits(v, base, upper)[k])
  {
    hide Times, Rest, Last, DigitChar;
    Splits(v, base);
    if v < base {
      DigitReadsBack(v, upper);
    } else {
      DigitReadsBack(Last(v, base), upper);
      OnlyDigits(Rest(v, base), base, upper);
    }
  }

  function Power(base: nat, k: nat): nat {
    if k == 0 then 1 else Times(Power(base, k - 1), base)
  }

  lemma PowerOne(base: nat)
    ensures Power(base, 1) == base
  {
    assert Power(base, 0) == 1;
  }

  lemma {:induction false} FewDigits(v: nat, base: nat, upper: bool, k: nat)
    requires 2 <= base <= 16 && k >= 1 && v < Power(base, k)
    ensures |Digits(v, base, upper)| <= k
  {
    hide Times, Rest, Last, DigitChar;
    Splits(v, base);
    if v >= base {
      PowerOne(base);
      assert k > 1;
      RestBelow(v, base, Power(base, k - 1));
      FewDigits(Rest(v, base), base, upper, k - 1);
    }
  }

  lemma Grows(p: nat, q: nat, base: nat)
    requires p <= q && base >= 8
    ensures p * 8 <= q * base
  {
    assert q * 8 <= q * base;
  }

  lemma {:induction false} PowerGrows(base: nat, k: nat)
    requires base >= 8
    ensures Power(base, k) >= Power(8, k)
  {
    if k > 0 {
      PowerGrows(base, k - 1);
      Grows(Power(8, k - 1), Power(base, k - 1), base);
    }
  }

  lemma EightTo22()
    ensures Power(8, 22) == 0x4_0000_0000_0000_0000
  {
    assert Power(8, 4) == 0x1000;
    assert Power(8, 8) == 0x100_0000;
    assert Power(8, 12) == 0x10_0000_0000;
    assert Power(8, 16) == 0x1_0000_0000_0000;
    assert Power(8, 20) == 0x1000_0000_0000_0000;
  }

  /** The digits are the standard's numeral, the letters in its case. */
  lemma {:induction false} DigitsNumeral(v: nat, base: nat, upper: bool)
    requires 2 <= base <= 16
    ensures Digits(v, base, upper) == FormatIso.Numeral(v, base, upper)
  {
    Splits(v, base);
    if v < base {
      FigureIs(v, upper);
    } else {
      FormatIso.Shrinks(v, base);
      FigureIs(v % base, upper);
      DigitsNumeral(v / base, base, upper);
    }
  }

  lemma FigureIs(d: nat, upper: bool)
    requires d < 16
    ensures DigitChar(d, upper) == FormatIso.Figure(d, upper)
  {
  }

  lemma TwoTo64()
    ensures Power(2, 64) == TWO_64
  {
    assert Power(2, 8) == 0x100;
    assert Power(2, 16) == 0x1_0000;
    assert Power(2, 24) == 0x100_0000;
    assert Power(2, 32) == 0x1_0000_0000;
    assert Power(2, 40) == 0x100_0000_0000;
    assert Power(2, 48) == 0x1_0000_0000_0000;
    assert Power(2, 56) == 0x100_0000_0000_0000;
  }

  /** In base 2, at most 64. */
  lemma At64Digits(v: nat)
    requires v < TWO_64
    ensures |Digits(v, 2, false)| <= 64
  {
    TwoTo64();
    FewDigits(v, 2, false, 64);
  }

  /** A number of 64 bits has at most 22 digits in the bases of printf: with a sign and a NUL they are 24. */
  lemma At22Digits(v: nat, base: nat, upper: bool)
    requires v < TWO_64 && 8 <= base <= 16
    ensures |Digits(v, base, upper)| <= 22
  {
    EightTo22();
    PowerGrows(base, 22);
    FewDigits(v, base, upper, 22);
  }

  /** ^v + 1, in 64 bits. */
  function Negated(v: nat): nat
    requires v < TWO_64
  {
    (TWO_64 - v) % TWO_64
  }

  /** What is written: the sign, then the digits of the number or of its negation. */
  function Text(v: nat, base: nat, upper: bool, isneg: bool): string
    requires v < TWO_64 && 8 <= base <= 16
  {
    (if isneg then "-" else "") + Digits(if isneg then Negated(v) else v, base, upper)
  }

  /** A signed number, its minimum included: its magnitude's digits. */
  lemma SignedText(x: int)
    requires -0x8000_0000_0000_0000 <= x < 0x8000_0000_0000_0000
    ensures Text(x % TWO_64, 10, false, x < 0) == (if x < 0 then "-" else "") + Digits(if x < 0 then -x else x, 10, false)
  {
    hide Digits;
    assert x % TWO_64 == if x < 0 then x + TWO_64 else x;
  }

  /** The loop of musl_fmtnum that takes the digits off, the last first. */
  method TakeDigits(digits: array<char>, v: nat, base: nat, upper: bool) returns (n: nat)
    requires digits.Length == 24 && v < TWO_64 && 8 <= base <= 16
    modifies digits
    ensures n == |Digits(v, base, upper)| <= 22
    ensures forall k :: 0 <= k < n ==> digits[k] == Digits(v, base, upper)[n - 1 - k]
  {
    hide Rest, Last, Times, DigitChar;
    ghost var all := Digits(v, base, upper);
    At22Digits(v, base, upper);
    n := 0;
    var left := v;
    while true
      invariant n < |all| && all[..|all| - n] == Digits(left, base, upper)
      invariant forall k :: 0 <= k < n ==> digits[k] == all[|all| - 1 - k]
      decreases left
    {
      Splits(left, base);
      digits[n] := DigitChar(Last(left, base), upper);
      assert all[..|all| - n][|all| - n - 1] == all[|all| - n - 1];
      n := n + 1;
      if Rest(left, base) == 0 {
        return;
      }
      assert all[..|all| - n] == all[..|all| - n + 1][..|all| - n];
      left := Rest(left, base);
    }
  }

  /** musl_fmtnum. */
  method FmtNum(dest: array<char>, at: nat, v: nat, base: nat, upper: bool, isneg: bool) returns (out: nat)
    requires at + 24 <= dest.Length && v < TWO_64 && 8 <= base <= 16
    modifies dest
    ensures out == |Text(v, base, upper, isneg)| && out < 24
    ensures dest[at..at + out] == Text(v, base, upper, isneg)
    ensures dest[at + out] == '\0'
    ensures forall k :: 0 <= k < dest.Length && !(at <= k <= at + out) ==> dest[k] == old(dest[k])
  {
    var digits := new char[24];
    var value := if isneg then Negated(v) else v;
    var n := TakeDigits(digits, value, base, upper);
    ghost var text := Text(v, base, upper, isneg);
    out := 0;
    if isneg {
      dest[at] := '-';
      out := 1;
    }
    ghost var sign := out;
    for i := 0 to n
      invariant out == sign + i && out <= |text|
      invariant forall k :: 0 <= k < out ==> dest[at + k] == text[k]
      invariant forall k :: 0 <= k < dest.Length && !(at <= k < at + out) ==> dest[k] == old(dest[k])
      invariant forall k :: 0 <= k < n ==> digits[k] == Digits(value, base, upper)[n - 1 - k]
    {
      dest[at + out] := digits[n - 1 - i];
      out := out + 1;
    }
    dest[at + out] := '\0';
  }
}
