/** What section 7.23.6.1 of ISO/IEC 9899:2024 says a printf conversion writes.

    Nothing here is the program's: the lemmas that compare the two are in FormatStandard and FormatMeets.
 */
module FormatIso {
  import opened Wrappers

  // ----- numerals

  function Base(spec: char): (b: nat)
    ensures 2 <= b <= 16
  {
    if spec == 'o' then 8
    else if spec == 'x' || spec == 'X' then 16
    else if spec == 'b' || spec == 'B' then 2
    else 10
  }

  /** A digit: of X the letters are ABCDEF, of x abcdef. */
  function Figure(d: nat, upper: bool): char
    requires d < 16
  {
    if upper then "0123456789ABCDEF"[d] else "0123456789abcdef"[d]
  }

  lemma Shrinks(v: nat, base: nat)
    requires base >= 2 && v >= base
    ensures v / base < v && v % base < base
  {
    var q := v / base;
    assert v == q * base + v % base;
    assert q * base == q * (base - 2) + 2 * q && q * (base - 2) >= 0;
  }

  function Numeral(v: nat, base: nat, upper: bool): string
    requires 2 <= base <= 16
  {
    if v < base then [Figure(v, upper)]
    else
      Shrinks(v, base);
      Numeral(v / base, base, upper) + [Figure(v % base, upper)]
  }

  // ----- values

  const INTS: nat := 0x1_0000_0000
  const LONGS: nat := 0x1_0000_0000_0000_0000

  /** The number of a signed type of so many values that an integer is congruent to. */
  function Signed(x: int, values: nat): int
    requires values > 0
  {
    x - values * ((x + values / 2) / values)
  }

  function Unsigned(x: int, values: nat): nat
    requires values > 0
  {
    x % values
  }

  // ----- conversions

  /** A conversion: its flags, its width and precision as written or as an argument gives them, and its specifier. */
  datatype Conversion = Conversion(flags: string, width: Option<int>, precision: Option<int>, spec: char)
  {
    /** A negative width is the flag '-' and a width. */
    predicate Left() {
      '-' in flags || (width.Some? && width.value < 0)
    }

    function Width(): nat {
      if width.None? then 0 else if width.value < 0 then -width.value else width.value
    }

    /** A negative precision is none. */
    predicate Precise() {
      precision.Some? && precision.value >= 0
    }

    /** The flag '0', with no precision and no '-'. */
    predicate ZeroFilled() {
      '0' in flags && !Left() && !Precise()
    }
  }

  function Copies(c: char, n: int): string {
    if n <= 0 then "" else seq(n, i => c)
  }

  /** The sign, or the prefix of '#'. */
  function Sign(c: Conversion, value: int): string {
    if c.spec == 'd' then if value < 0 then "-" else if '+' in c.flags then "+" else if ' ' in c.flags then " " else ""
    else if '#' in c.flags && value != 0 && c.spec in {'x', 'X', 'b', 'B'} then ['0', c.spec]
    else ""
  }

  function Magnitude(value: int): nat {
    if value < 0 then -value else value
  }

  /** The digits: at least as many as the precision, one if there is none; no digits for a zero with a precision
      of 0; with '#' an octal number begins with a zero. */
  function Figures(c: Conversion, value: int): string {
    var numeral :=
      if value == 0 && c.precision == Some(0) then "" else Numeral(Magnitude(value), Base(c.spec), c.spec == 'X');
    var number := Copies('0', (if c.Precise() then c.precision.value else 1) - |numeral|) + numeral;
    if c.spec == 'o' && '#' in c.flags && (number == "" || number[0] != '0') then "0" + number else number
  }

  /** A number's field: padded to the width with spaces, on the right with '-', or with zeros after the sign. */
  function Field(c: Conversion, value: int): string {
    var sign, number := Sign(c, value), Figures(c, value);
    var missing := c.Width() - |sign| - |number|;
    if c.Left() then sign + number + Copies(' ', missing)
    else if c.ZeroFilled() then sign + Copies('0', missing) + number
    else Copies(' ', missing) + sign + number
  }

  /** A text's: no more of it than the precision. */
  function TextField(c: Conversion, text: string): string {
    var shown := if c.Precise() && c.precision.value < |text| then text[..c.precision.value] else text;
    if c.Left() then shown + Copies(' ', c.Width() - |shown|) else Copies(' ', c.Width() - |shown|) + shown
  }
}
