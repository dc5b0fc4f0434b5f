/** printf's integer conversions meet the C standard, but those with an 'h'. */
module FormatStandard {
  import opened Wrappers
  import opened FormatCut
  import opened FormatTypes
  import opened FormatNumber
  import opened FormatField
  import FormatIso

  predicate IsInteger(spec: char) {
    spec == 'd' || spec == 'u' || spec == 'o' || spec == 'x' || spec == 'X'
  }

  /** The conversions of numbers of the standard: %b and %B read the program's own type of 64 bits. */
  predicate IsNumeral(spec: char) {
    IsInteger(spec) || spec == 'b' || spec == 'B'
  }

  /** The value of an integer argument, as C reads it. */
  function ValueOf(spec: char, m: Modifier, a: Arg): int
    requires a.Integer?
  {
    if spec == 'b' || spec == 'B' then a.value % TWO_64
    else if spec == 'd' then
      match m
      case Plain => Wrap32(a.value)
      case Short => Wrap16(Wrap32(a.value))
      case _ => Wrap64(a.value)
    else
      match m
      case Plain => a.value % TWO_32
      case Short => a.value % TWO_32 % 0x10000
      case _ => a.value % TWO_64
  }

  /** It is the number of the argument's type that is congruent to what was passed: of d an int, a short, a long or a
      long long, of the others the unsigned one. */
  lemma ValueExact(spec: char, m: Modifier, a: Arg)
    requires a.Integer? && IsNumeral(spec)
    ensures var v, values := ValueOf(spec, m, a), TypeValues(spec, m);
            (a.value - v) % values == 0 && if spec == 'd' then -values <= 2 * v < values else 0 <= v < values
  {
    Twice(a.value, spec == 'd');
    Once(a.value);
    hide Wrap16, Wrap32, Wrap64;
  }

  lemma Once(x: int)
    ensures (x - Wrap32(x)) % 0x1_0000_0000 == 0 && -0x8000_0000 <= Wrap32(x) < 0x8000_0000
    ensures (x - Wrap64(x)) % 0x1_0000_0000_0000_0000 == 0 && -0x8000_0000_0000_0000 <= Wrap64(x) < 0x8000_0000_0000_0000
    ensures (x - x % 0x1_0000_0000) % 0x1_0000_0000 == 0
    ensures (x - x % 0x1_0000_0000_0000_0000) % 0x1_0000_0000_0000_0000 == 0
  {
    OnceInt(x);
    OnceLong(x);
  }

  lemma OnceInt(x: int)
    ensures (x - Wrap32(x)) % 0x1_0000_0000 == 0 && -0x8000_0000 <= Wrap32(x) < 0x8000_0000
    ensures (x - x % 0x1_0000_0000) % 0x1_0000_0000 == 0
  {
    var q, r := x / 0x1_0000_0000, x % 0x1_0000_0000;
    assert x == 0x1_0000_0000 * q + r;
    Ints(q);
    Ints(q + 1);
  }

  lemma Ints(k: int)
    ensures 0x1_0000_0000 * k % 0x1_0000_0000 == 0
  {
  }

  lemma OnceLong(x: int)
    ensures (x - Wrap64(x)) % 0x1_0000_0000_0000_0000 == 0 && -0x8000_0000_0000_0000 <= Wrap64(x) < 0x8000_0000_0000_0000
    ensures (x - x % 0x1_0000_0000_0000_0000) % 0x1_0000_0000_0000_0000 == 0
  {
    var q, r := x / 0x1_0000_0000_0000_0000, x % 0x1_0000_0000_0000_0000;
    assert x == 0x1_0000_0000_0000_0000 * q + r;
    Longs(q);
    Longs(q + 1);
  }

  lemma Longs(k: int)
    ensures 0x1_0000_0000_0000_0000 * k % 0x1_0000_0000_0000_0000 == 0
  {
  }

  /** How many numbers the type of an argument has. */
  function TypeValues(spec: char, m: Modifier): (n: int)
    ensures n > 0
  {
    if spec == 'b' || spec == 'B' then 0x1_0000_0000_0000_0000
    else if m.Plain? then 0x1_0000_0000
    else if m.Short? then 0x1_0000
    else 0x1_0000_0000_0000_0000
  }

  lemma Twice(x: int, signed: bool)
    ensures signed ==> (x - Wrap16(Wrap32(x))) % 0x1_0000 == 0 && -0x8000 <= Wrap16(Wrap32(x)) < 0x8000
    ensures !signed ==> (x - x % 0x1_0000_0000 % 0x1_0000) % 0x1_0000 == 0
  {
    var q := x / 0x1_0000_0000;
    var y := if signed then Wrap32(x) else x % 0x1_0000_0000;
    var k := if y == x % 0x1_0000_0000 then q else q + 1;
    assert x == 0x1_0000_0000 * k + y;
    var z := if signed then Wrap16(y) else y % 0x1_0000;
    var j := y / 0x1_0000 + if z == y % 0x1_0000 then 0 else 1;
    assert y == 0x1_0000 * j + z;
    assert x - z == 0x1_0000 * (0x1_0000 * k + j);
    hide Wrap;
    assert 0x1_0000 * (0x1_0000 * k + j) % 0x1_0000 == 0;
  }

  lemma ValueBounds(spec: char, m: Modifier, a: Arg)
    requires a.Integer? && IsNumeral(spec)
    ensures Abs(ValueOf(spec, m, a)) < TWO_64
    ensures spec != 'd' ==> ValueOf(spec, m, a) >= 0
  {
  }

  lemma Join(a: string, b: string, c: string)
    ensures (a + b) + c == a + (b + c)
  {
  }

  lemma RepeatJoin(a: nat, b: nat)
    ensures Repeat('0', a + b) == Repeat('0', a) + Repeat('0', b)
  {
  }

  lemma WrapSame(x: int)
    requires -0x8000_0000 <= x < 0x8000_0000
    ensures Wrap32(x) == x
  {
  }

  lemma ClipWhole(s: string)
    requires |s| < TWO_31
    ensures Clip(s) == s
  {
    hide Wrap32;
    WrapSame(|s|);
  }

  /** Nothing wraps in a field that is not too long. */
  lemma LaidShort(st: Style, zero: bool, prefix: string, zeros: nat, body: string)
    requires 0 <= st.width < TWO_31 && |prefix| + |body| + zeros < TWO_31
    ensures var missing := st.width - (|prefix| + |body| + zeros);
            var number := Repeat('0', zeros) + body;
            Laid(st, zero, prefix, zeros, body) ==
            if st.left then prefix + number + Repeat(' ', missing)
            else if zero then prefix + Repeat('0', missing) + number
            else Repeat(' ', missing) + prefix + number
  {
    hide Wrap, Wrap32, Clip, Repeat;
    var missing := st.width - (|prefix| + |body| + zeros);
    WrapSame(missing);
    WrapSame(zeros);
    ClipWhole(body);
    if missing > 0 {
      WrapSame(zeros + missing);
    }
    if st.left {
      Join(prefix, Repeat('0', zeros), body);
    } else if zero {
      if missing > 0 {
        RepeatJoin(missing, zeros);
        Join(prefix, Repeat('0', missing), Repeat('0', zeros));
      }
      Join(prefix + Repeat('0', missing), Repeat('0', zeros), body);
    } else {
      Join(Repeat(' ', missing) + prefix, Repeat('0', zeros), body);
    }
  }

  /** In a field of the least width, what is missing wraps, unless the field is empty. */
  lemma LaidLeast(st: Style, zero: bool, prefix: string, zeros: nat, body: string)
    requires st.left && st.width == -0x8000_0000 && |prefix| + |body| + zeros < TWO_31
    ensures var n := |prefix| + |body| + zeros;
            Laid(st, zero, prefix, zeros, body) ==
            prefix + (Repeat('0', zeros) + body) + Repeat(' ', if n == 0 then 0 else TWO_31 - n)
  {
    hide Clip, Repeat;
    var n := |prefix| + |body| + zeros;
    assert Wrap32(-0x8000_0000 - n) == if n == 0 then -0x8000_0000 else TWO_31 - n;
    NoneMissing(if n == 0 then -0x8000_0000 else TWO_31 - n);
    hide Wrap, Wrap32;
    WrapSame(zeros);
    ClipWhole(body);
    Join(prefix, Repeat('0', zeros), body);
  }

  lemma NoneMissing(n: int)
    ensures n <= 0 ==> Repeat(' ', n) == Repeat(' ', 0)
  {
  }

  lemma IsoDigitsZeros(st: Style, spec: char, value: int, digits: string)
    requires IsNumeral(spec)
    requires digits == if value == 0 && st.precision == Some(0) then "" else Digits(Abs(value), BaseOf(spec), spec == 'X')
    ensures IsoDigits(st, spec, value) == Repeat('0', Zeros(st, spec, digits)) + digits
  {
    hide Digits, FormatIso.Numeral;
    DigitsNumeral(Abs(value), BaseOf(spec), spec == 'X');
    var least := if st.precision.Some? then st.precision.value else 1;
    var number := Repeat('0', least - |digits|) + digits;
    if spec == 'o' && st.alternate && (number == "" || number[0] != '0') {
      assert least <= |digits|;
      assert "0" + number == Repeat('0', 1) + digits;
    }
  }

  lemma DigitsShort(st: Style, spec: char, n: Num, ed: Editor)
    requires IsNumeral(spec) && n.magnitude < TWO_64
    ensures |NumberDigits(st, spec, n, ed)| <= 64
  {
    if spec == 'b' || spec == 'B' {
      At64Digits(n.magnitude);
    } else {
      At22Digits(n.magnitude, BaseOf(spec), spec == 'X');
    }
  }

  /** A style that a conversion can have: a width below 2^31, or the one of a star whose argument is the least int,
      whose negative in 32 bits is itself. */
  predicate Ordinary(st: Style) {
    && (0 <= st.width < TWO_31 || (st.left && st.width == -0x8000_0000))
    && (st.precision.Some? ==> st.precision.value <= MAX_WIDTH)
  }

  lemma StarOrdinary(st: Style, w: int)
    requires st.width == 0 && st.precision.None? && -0x8000_0000 <= w < 0x8000_0000
    ensures Ordinary(WithWidth(st, w)) && WithWidth(st, w).precision.None?
  {
    if w == -0x8000_0000 {
      assert Wrap32(-w) == w;
    } else if w < 0 {
      WrapSame(-w);
    }
  }

  lemma FieldsSmall(fmt: string, i: nat)
    ensures var f := Width(fmt, i).field; f.Given? ==> f.value <= MAX_WIDTH
    ensures var f := Precision(fmt, i).field; f.Given? ==> f.value <= MAX_WIDTH
  {
  }

  /** Every conversion's style is one, whether the format gives its width and precision or int arguments do. */
  lemma StylesOrdinary(fmt: string, i: nat, w: int, p: int)
    requires -0x8000_0000 <= w < 0x8000_0000
    ensures var d := Cut(fmt, i);
            Ordinary(PrecisionStyle(WidthStyle(FlagStyle(d.flags), d.width.field, w), d.precision.field, p))
  {
    hide Flags, FlagsEnd, NamedAt, At, ModifierAt, ModifierSize, Width, Precision, WithWidth;
    var d := Cut(fmt, i);
    FieldsSmall(fmt, FlagsEnd(fmt, d.named.next));
    FieldsSmall(fmt, d.width.next);
    StarOrdinary(FlagStyle(d.flags), w);
  }

  /** The style with its width as the standard has it: the absolute value of the star's argument. */
  function Asked(st: Style): Style {
    if st.width < 0 then st.(width := -st.width) else st
  }

  /** The conversions d, u, o, x and X write what the standard says, with every flag, width and precision,
      for an int, a long and a long long; but a field of 2^31 with nothing in it is left out. */
  lemma MeetsStandard(st: Style, spec: char, m: Modifier, a: Arg, ed: Editor)
    requires ed.Valid() && IsNumeral(spec) && !m.Short? && a.Integer? && Ordinary(st)
    ensures var value := ValueOf(spec, m, a);
            Converted(st, spec, m, a, ed) == Some(IsoField(Asked(st), spec, value))
            <==> st.width >= 0 || IsoPrefix(st, spec, value) + IsoDigits(st, spec, value) != ""
  {
    hide Digits, Laid, Repeat, IsoDigits, IsoPrefix, IsoField, Numeric, Wrap, BaseOf;
    var value := ValueOf(spec, m, a);
    ValueBounds(spec, m, a);
    NumberRead(spec, m, a);
    if st.width >= 0 {
      NumericMeets(st, spec, value, ed);
    } else {
      LeastMeets(st, spec, value, ed);
    }
  }

  lemma NumberRead(spec: char, m: Modifier, a: Arg)
    requires IsNumeral(spec) && !m.Short? && a.Integer?
    ensures NumberOf(spec, m, a) == Some(SignedNum(ValueOf(spec, m, a), ValueOf(spec, m, a)))
  {
  }

  lemma PrefixMeets(st: Style, spec: char, value: int)
    requires IsNumeral(spec) && (spec != 'd' ==> value >= 0)
    ensures Prefix(st, spec, SignedNum(value, value)) == IsoPrefix(st, spec, value)
    ensures |IsoPrefix(st, spec, value)| <= 2
  {
  }

  lemma DigitsMeet(st: Style, spec: char, value: int, ed: Editor)
    requires IsNumeral(spec) && Abs(value) < TWO_64 && (st.precision.Some? ==> st.precision.value <= MAX_WIDTH)
    ensures var digits := NumberDigits(st, spec, SignedNum(value, value), ed);
            var zeros := Zeros(st, spec, digits);
            && |digits| <= 64 && zeros <= MAX_WIDTH + 23
            && IsoDigits(st, spec, value) == Repeat('0', zeros) + digits
  {
    hide Digits, IsoDigits, Repeat, BaseOf;
    var n := SignedNum(value, value);
    DigitsShort(st, spec, n, ed);
    IsoDigitsZeros(st, spec, value, NumberDigits(st, spec, n, ed));
  }

  lemma NumericMeets(st: Style, spec: char, value: int, ed: Editor)
    requires IsNumeral(spec) && Abs(value) < TWO_64 && (spec != 'd' ==> value >= 0)
    requires 0 <= st.width < TWO_31 && (st.precision.Some? ==> st.precision.value <= MAX_WIDTH)
    ensures Numeric(st, spec, SignedNum(value, value), ed) == IsoField(st, spec, value)
  {
    hide Digits, Laid, Repeat, IsoDigits, BaseOf, Prefix, IsoPrefix, Zeros, NumberDigits;
    var n := SignedNum(value, value);
    var digits := NumberDigits(st, spec, n, ed);
    var zeros := Zeros(st, spec, digits);
    var prefix := Prefix(st, spec, n);
    DigitsMeet(st, spec, value, ed);
    PrefixMeets(st, spec, value);
    LaidShort(st, st.zero && st.precision.None?, prefix, zeros, digits);
  }

  lemma LeastMeets(st: Style, spec: char, value: int, ed: Editor)
    requires IsNumeral(spec) && Abs(value) < TWO_64 && (spec != 'd' ==> value >= 0)
    requires Ordinary(st) && st.width < 0
    ensures Numeric(st, spec, SignedNum(value, value), ed) == IsoField(Asked(st), spec, value)
            <==> IsoPrefix(st, spec, value) + IsoDigits(st, spec, value) != ""
  {
    hide Digits, Laid, Repeat, IsoDigits, BaseOf, Prefix, IsoPrefix, Zeros, NumberDigits;
    var n := SignedNum(value, value);
    var digits := NumberDigits(st, spec, n, ed);
    var zeros := Zeros(st, spec, digits);
    var prefix := Prefix(st, spec, n);
    DigitsMeet(st, spec, value, ed);
    PrefixMeets(st, spec, value);
    AskedSame(st, spec, value);
    LaidLeast(st, st.zero && st.precision.None?, prefix, zeros, digits);
    var number := prefix + (Repeat('0', zeros) + digits);
    assert |number| == |prefix| + |digits| + zeros;
    if number == "" {
      assert |number + Repeat(' ', 0)| != |number + Repeat(' ', TWO_31)|;
    }
  }

  /** The width has no part in a number's characters. */
  lemma AskedSame(st: Style, spec: char, value: int)
    ensures IsoPrefix(Asked(st), spec, value) == IsoPrefix(st, spec, value)
    ensures IsoDigits(Asked(st), spec, value) == IsoDigits(st, spec, value)
  {
    hide Digits, Repeat;
  }
}
