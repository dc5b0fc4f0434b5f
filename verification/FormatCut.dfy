/** How a printf format is cut into text and conversions (editor/format.go).

    A format is a C string: its bytes are characters below 256 without a NUL, and a pointer into it is
    an index.  Both passes of vim_snprintf cut it; what they cut is one function, here.
 */
module FormatCut {
  import opened Wrappers

  /** A pointer's byte: the terminator, and what is past it, is NUL. */
  function At(fmt: string, i: nat): char {
    if i < |fmt| then fmt[i] else '\0'
  }

  ghost predicate NulFree(s: string) {
    forall i :: 0 <= i < |s| ==> s[i] != '\0'
  }

  predicate IsDigit(c: char) {
    '0' <= c <= '9'
  }

  predicate IsFlag(c: char) {
    c == '0' || c == '-' || c == '+' || c == ' ' || c == '#' || c == '\''
  }

  /** The largest width, precision or position that a format can give. */
  const MAX_WIDTH: nat := 1048576

  const TWO_32: nat := 0x1_0000_0000

  // ----- numbers

  datatype Number = Number(value: nat, next: nat)

  /** The digits from i, after a number v, until the limit is reached. */
  function Accumulate(fmt: string, i: nat, v: nat): (r: Number)
    ensures i <= r.next && (i <= |fmt| ==> r.next <= |fmt|)
    decreases |fmt| - i
  {
    if IsDigit(At(fmt, i)) && v < MAX_WIDTH
    then Accumulate(fmt, i + 1, 10 * v + (fmt[i] - '0') as nat)
    else Number(v, i)
  }

  /** The first byte less '0', in 32 bits. */
  function FirstDigit(c: char): nat {
    (c as int - '0' as int) % TWO_32
  }

  /** A number from i: the first byte whatever it is, then digits, and no more than the limit. */
  function Unsigned(fmt: string, i: nat): (r: Number)
    ensures i < r.next && r.value <= MAX_WIDTH && (i < |fmt| ==> r.next <= |fmt|)
  {
    var r := Accumulate(fmt, i + 1, FirstDigit(At(fmt, i)));
    Number(if r.value > MAX_WIDTH then MAX_WIDTH else r.value, r.next)
  }

  /** Where the digits from i end. */
  function DigitsEnd(fmt: string, i: nat): (r: nat)
    ensures i <= r && (i <= |fmt| ==> r <= |fmt|)
    decreases |fmt| - i
  {
    if IsDigit(At(fmt, i)) then DigitsEnd(fmt, i + 1) else i
  }

  function FlagsEnd(fmt: string, i: nat): (r: nat)
    ensures i <= r && (i <= |fmt| ==> r <= |fmt|)
    decreases |fmt| - i
  {
    if IsFlag(At(fmt, i)) then FlagsEnd(fmt, i + 1) else i
  }

  /** Where the text from i ends: the next '%', or the format's end. */
  function TextEnd(fmt: string, i: nat): (r: nat)
    requires i <= |fmt|
    ensures i <= r <= |fmt| && (r < |fmt| ==> fmt[r] == '%')
    decreases |fmt| - i
  {
    if i == |fmt| || fmt[i] == '%' then i else TextEnd(fmt, i + 1)
  }

  // ----- conversions

  /** A width or a precision. */
  datatype Field =
    | Absent
    | Given(value: nat)
    | Following                        // '*': the next argument
    | Position(arg: nat, star: nat)    // '*n$': argument n

  /** A field, where it ends, and whether the format may not say it so. */
  datatype Part = Part(field: Field, next: nat, bad: bool)

  function Star(fmt: string, i: nat): (r: Part)
    ensures i < r.next
  {
    if IsDigit(At(fmt, i + 1)) then
      var n := Unsigned(fmt, i + 1);
      Part(Position(n.value, i), n.next + 1, At(fmt, n.next) != '$')
    else Part(Following, i + 1, false)
  }

  function Width(fmt: string, i: nat): (r: Part)
    ensures i <= r.next
  {
    if At(fmt, i) == '*' then Star(fmt, i)
    else if IsDigit(At(fmt, i)) then
      var n := Unsigned(fmt, i);
      Part(Given(n.value), n.next, At(fmt, n.next) == '$')
    else Part(Absent, i, false)
  }

  /** A '.' alone is a precision of 0. */
  function Precision(fmt: string, i: nat): (r: Part)
    ensures i <= r.next
  {
    if At(fmt, i) != '.' then Part(Absent, i, false)
    else
      var w := Width(fmt, i + 1);
      if w.field.Absent? then w.(field := Given(0)) else w
  }

  datatype Modifier = Plain | Short | Long | LongLong

  function ModifierAt(fmt: string, i: nat): Modifier {
    if At(fmt, i) == 'h' then Short
    else if At(fmt, i) != 'l' then Plain
    else if At(fmt, i + 1) == 'l' then LongLong
    else Long
  }

  function ModifierSize(m: Modifier): nat {
    match m
    case Plain => 0
    case LongLong => 2
    case _ => 1
  }

  /** The argument a conversion names, 'n$'. */
  datatype Named = Named(pos: Option<nat>, next: nat, bad: bool)

  function NamedAt(fmt: string, i: nat): (r: Named)
    ensures i <= r.next
  {
    if At(fmt, DigitsEnd(fmt, i)) == '$' then
      var n := Unsigned(fmt, i);
      Named(Some(n.value), n.next + 1, At(fmt, i) == '0')
    else Named(None, i, false)
  }

  datatype Directive = Directive(
    named: Named,
    flags: string,
    width: Part,
    precision: Part,
    modifier: Modifier,
    spec: char,
    specAt: nat)
  {
    /** Where the argument's type begins: its modifier. */
    function TypeAt(): nat {
      precision.next
    }

    function Next(): nat {
      if spec == '\0' then specAt else specAt + 1
    }
  }

  function Flags(fmt: string, i: nat): string {
    if i <= |fmt| then fmt[i..FlagsEnd(fmt, i)] else ""
  }

  /** The conversion whose '%' is before i. */
  function Cut(fmt: string, i: nat): (d: Directive)
    ensures i <= d.specAt && d.spec == At(fmt, d.specAt)
  {
    var named := NamedAt(fmt, i);
    var width := Width(fmt, FlagsEnd(fmt, named.next));
    var precision := Precision(fmt, width.next);
    var modifier := ModifierAt(fmt, precision.next);
    var specAt := precision.next + ModifierSize(modifier);
    Directive(named, Flags(fmt, named.next), width, precision, modifier, At(fmt, specAt), specAt)
  }

  /** The conversions from i on, which is outside one. */
  function Directives(fmt: string, i: nat): seq<Directive>
    requires NulFree(fmt)
    decreases |fmt| - i
  {
    if i >= |fmt| then []
    else if fmt[i] != '%' then Directives(fmt, TextEnd(fmt, i + 1))
    else [Cut(fmt, i + 1)] + Directives(fmt, Cut(fmt, i + 1).Next())
  }

  // ----- the loops that cut

  method SkipDigits(fmt: string, i: nat) returns (r: nat)
    ensures r == DigitsEnd(fmt, i)
  {
    r := i;
    while IsDigit(At(fmt, r))
      invariant DigitsEnd(fmt, r) == DigitsEnd(fmt, i)
      decreases |fmt| - r
    {
      r := r + 1;
    }
  }

  method SkipText(fmt: string, i: nat) returns (r: nat)
    requires NulFree(fmt) && i <= |fmt|
    ensures r == TextEnd(fmt, i)
  {
    r := i;
    while At(fmt, r) != '\0' && At(fmt, r) != '%'
      invariant r <= |fmt| && TextEnd(fmt, r) == TextEnd(fmt, i)
      decreases |fmt| - r
    {
      r := r + 1;
    }
  }

  /** get_unsigned_int, which no caller asks to report a number too large: it is the limit. */
  method GetUnsignedInt(fmt: string, p: nat) returns (uj: nat, next: nat)
    ensures Number(uj, next) == Unsigned(fmt, p)
  {
    uj := FirstDigit(At(fmt, p));
    next := p + 1;
    while IsDigit(At(fmt, next)) && uj < MAX_WIDTH
      invariant Accumulate(fmt, next, uj) == Accumulate(fmt, p + 1, FirstDigit(At(fmt, p)))
      decreases |fmt| - next
    {
      uj := 10 * uj + (At(fmt, next) - '0') as nat;
      next := next + 1;
    }
    if uj > MAX_WIDTH {
      uj := MAX_WIDTH;
    }
  }
}
