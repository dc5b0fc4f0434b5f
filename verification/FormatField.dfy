/** What one conversion of a printf format writes (the second pass of editor/format.go, per conversion),
    and what the C standard asks of the integer conversions.
 */
module FormatField {
  import opened Wrappers
  import opened FormatCut
  import opened FormatTypes
  import opened FormatNumber
  import FormatIso

  // ----- arguments

  /** A Go argument: an integer of any width, a string (with the address that %p would print), a nil, or
      another pointer. */
  datatype Arg = Integer(value: int) | Text(text: string, address: nat) | Null | Address(pointer: nat)

  function Wrap(x: int, half: nat): int
    requires half > 0
  {
    var m := x % (2 * half);
    if m < half then m else m - 2 * half
  }

  const TWO_31: nat := 0x8000_0000

  function Wrap16(x: int): int { Wrap(x, 0x8000) }
  function Wrap32(x: int): int { Wrap(x, TWO_31) }
  function Wrap64(x: int): int { Wrap(x, 0x8000_0000_0000_0000) }

  // The va_arg of each type; None is a panic.

  function VaInt(a: Arg): Option<int> {
    if a.Integer? then Some(Wrap32(a.value)) else None
  }

  function VaUint(a: Arg): Option<nat> {
    if a.Integer? then Some(a.value % TWO_32) else None
  }

  function VaLong(a: Arg): Option<int> {
    if a.Integer? then Some(Wrap64(a.value)) else None
  }

  function VaUlong(a: Arg): Option<nat> {
    if a.Integer? then Some(a.value % TWO_64) else None
  }

  function VaPointer(a: Arg): nat {
    match a
    case Integer(v) => v % TWO_64
    case Text(_, address) => address % TWO_64
    case Null => 0
    case Address(v) => v % TWO_64
  }

  /** What of the editor printf calls: the length and the cells of a character with its composing ones,
      and the 16 digits of an address. */
  datatype Editor = Editor(len: (string, nat) -> nat, cells: (string, nat) -> nat, pointer: nat -> string)
  {
    ghost predicate Valid() {
      && (forall s: string, i: nat :: i < |s| ==> 1 <= len(s, i) <= |s| - i)
      && (forall v :: |pointer(v)| == 16)
    }
  }

  // ----- how a field is laid out

  datatype Style = Style(left: bool, zero: bool, plus: bool, space: bool, alternate: bool,
                         width: int, precision: Option<nat>)

  function FlagStyle(flags: string): Style {
    Style('-' in flags, '0' in flags, '+' in flags, ' ' in flags, '#' in flags, 0, None)
  }

  function AtMost(j: int): int {
    if j > MAX_WIDTH then MAX_WIDTH else j
  }

  /** A width that is an argument: a negative one is to the left. */
  function WithWidth(st: Style, j: int): Style {
    if AtMost(j) >= 0 then st.(width := AtMost(j)) else st.(width := Wrap32(-j), left := true)
  }

  /** A precision that is an argument: a negative one is none. */
  function WithPrecision(st: Style, j: int): Style {
    st.(precision := if AtMost(j) >= 0 then Some(AtMost(j)) else None)
  }

  predicate Argued(f: Field) {
    f.Following? || f.Position?
  }

  function WidthStyle(st: Style, f: Field, j: int): Style {
    match f
    case Absent => st
    case Given(n) => st.(width := n)
    case _ => WithWidth(st, j)
  }

  function PrecisionStyle(st: Style, f: Field, j: int): Style {
    match f
    case Absent => st
    case Given(n) => st.(precision := Some(n))
    case _ => WithPrecision(st, j)
  }

  function Repeat(c: char, n: int): (r: string)
    ensures |r| == if n > 0 then n else 0
  {
    if n <= 0 then "" else seq(n, i => c)
  }

  /** The bytes of a text that a signed 32-bit length counts. */
  function Clip(s: string): string {
    if 0 < Wrap32(|s|) <= |s| then s[..Wrap32(|s|)] else ""
  }

  /** A field: padded to the width on the left with zeros or spaces, or on the right with spaces; its
      zeros are between its prefix and its body. */
  function Laid(st: Style, zero: bool, prefix: string, zeros: nat, body: string): string {
    var n := Wrap32(st.width - (|prefix| + |body| + zeros));
    if st.left then prefix + Repeat('0', Wrap32(zeros)) + Clip(body) + Repeat(' ', n)
    else if zero then prefix + Repeat('0', Wrap32(zeros + if n > 0 then n else 0)) + Clip(body)
    else Repeat(' ', n) + prefix + Repeat('0', Wrap32(zeros)) + Clip(body)
  }

  // ----- numbers

  /** A number to write: its sign as read, and whether it is negative and its magnitude as written. */
  datatype Num = Num(sign: int, negative: bool, magnitude: nat)

  function Sign(x: int): int {
    if x > 0 then 1 else if x < 0 then -1 else 0
  }

  function Abs(x: int): nat {
    if x < 0 then -x else x
  }

  function SignedNum(read: int, written: int): Num {
    Num(Sign(read), written < 0, Abs(written))
  }

  predicate IsNumber(spec: char) {
    spec in {'d', 'u', 'b', 'B', 'o', 'x', 'X', 'p'}
  }

  /** The number that a conversion reads: 'h' narrows what is written, not what is tested. */
  function NumberOf(spec: char, m: Modifier, a: Arg): Option<Num> {
    if spec == 'p' then Some(SignedNum(VaPointer(a), VaPointer(a)))
    else if a.Integer? then
      Some(if spec == 'b' || spec == 'B' then SignedNum(VaUlong(a).value, VaUlong(a).value)
           else if spec == 'd' then
             (match m
              case Plain => SignedNum(VaInt(a).value, VaInt(a).value)
              case Short => SignedNum(VaInt(a).value, Wrap16(VaInt(a).value))
              case _ => SignedNum(VaLong(a).value, VaLong(a).value))
           else
             (match m
              case Plain => SignedNum(VaUint(a).value, VaUint(a).value)
              case Short => SignedNum(VaUint(a).value, VaUint(a).value % 0x10000)
              case _ => SignedNum(VaUlong(a).value, VaUlong(a).value)))
    else None
  }

  function BaseOf(spec: char): (b: nat)
    ensures 2 <= b <= 16
  {
    match spec
    case 'o' => 8
    case 'x' => 16
    case 'X' => 16
    case 'b' => 2
    case 'B' => 2
    case _ => 10
  }

  /** No digits for a zero with a precision of 0. */
  predicate NoDigits(st: Style, n: Num) {
    st.precision == Some(0) && n.sign == 0
  }

  function NumberDigits(st: Style, spec: char, n: Num, ed: Editor): string {
    if NoDigits(st, n) then ""
    else if spec == 'p' then ed.pointer(n.magnitude)
    else Digits(n.magnitude, BaseOf(spec), spec == 'X')
  }

  /** What is written before the digits apart from a '-' and an address's "0x". */
  function Lead(st: Style, spec: char, n: Num): string {
    if spec == 'd' then
      if (st.plus || st.space) && n.sign >= 0 then (if st.plus then "+" else " ") else ""
    else if st.alternate && n.sign != 0 && (spec == 'b' || spec == 'B' || spec == 'x' || spec == 'X') then ['0', spec]
    else ""
  }

  function Prefix(st: Style, spec: char, n: Num): string {
    Lead(st, spec, n)
    + if NoDigits(st, n) then "" else if spec == 'p' then "0x" else if spec == 'd' && n.negative then "-" else ""
  }

  /** The zeros that the precision asks for, and '#' of an octal number. */
  function Zeros(st: Style, spec: char, digits: string): nat {
    var asked := if st.precision.Some? then st.precision.value else 1;
    var least :=
      if st.alternate && spec == 'o' && !(|digits| > 0 && digits[0] == '0')
         && (st.precision.None? || asked < |digits| + 1)
      then |digits| + 1 else asked;
    if |digits| < least then least - |digits| else 0
  }

  function Numeric(st: Style, spec: char, n: Num, ed: Editor): string {
    var digits := NumberDigits(st, spec, n, ed);
    Laid(st, st.zero && st.precision.None?, Prefix(st, spec, n), Zeros(st, spec, digits), digits)
  }

  // ----- texts

  /** A text and its width in cells less its length. */
  datatype Shown = Shown(text: string, extra: int)

  /** Where %S ends, and the cells before: characters while the precision has room for their cells. */
  function CellsEnd(ed: Editor, s: string, i: nat, cells: nat, precision: Option<nat>): (r: (nat, nat))
    requires i <= |s| && ed.Valid()
    ensures i <= r.0 <= |s|
    decreases |s| - i
  {
    if i == |s| then (i, cells)
    else if precision.Some? && cells + ed.cells(s, i) > precision.value then (i, cells)
    else CellsEnd(ed, s, i + ed.len(s, i), cells + ed.cells(s, i), precision)
  }

  function StringOf(a: Arg): Option<string> {
    match a
    case Text(s, _) => Some(s)
    case Null => Some("[NULL]")
    case _ => None
  }

  function ShownOf(st: Style, spec: char, a: Arg, ed: Editor): Option<Shown>
    requires ed.Valid()
  {
    match StringOf(a)
    case None => None
    case Some(s) =>
      if spec == 's' then
        if a.Null? || st.precision.None? || |s| <= st.precision.value then Some(Shown(s, 0))
        else Some(Shown(s[..st.precision.value], 0))
      else
        var e := CellsEnd(ed, s, 0, 0, st.precision);
        Some(Shown(s[..e.0], e.0 - e.1))
  }

  /** %s and %S: the width of %S is in cells. */
  function Textual(st: Style, spec: char, a: Arg, ed: Editor): Option<string>
    requires ed.Valid()
  {
    match ShownOf(st, spec, a, ed)
    case None => None
    case Some(shown) =>
      Some(Laid(st.(width := if st.width != 0 then st.width + shown.extra else 0), st.zero, "", 0, shown.text))
  }

  // ----- conversions

  /** The specifiers for which the second pass reads an argument. */
  predicate Reads(spec: char) {
    IsNumber(spec) || spec == 'c' || spec == 's' || spec == 'S'
  }

  /** A conversion with an argument. */
  function Converted(st: Style, spec: char, m: Modifier, a: Arg, ed: Editor): Option<string>
    requires ed.Valid()
  {
    if spec == 'c' then
      if a.Integer? then Some(Laid(st, st.zero, "", 0, [(a.value % 256) as char])) else None
    else if spec == 's' || spec == 'S' then Textual(st, spec, a, ed)
    else
      match NumberOf(spec, m, a)
      case None => None
      case Some(n) => Some(Numeric(st, spec, n, ed))
  }

  /** A conversion without one: "%%", or a specifier that is not one, which is itself. */
  function Literal(st: Style, spec: char): string {
    if spec == '%' then Laid(st, st.zero, "", 0, "%")
    else if spec == '\0' then ""
    else [spec]
  }

  // ----- what the standard asks

  /** Section 7.23.6.1 of ISO/IEC 9899:2024 on d, u, o, x, X, b and B, the flags already told apart
      (FormatMeets has it of the format): the characters of the number apart from its width. */
  function IsoPrefix(st: Style, spec: char, value: int): string {
    if spec == 'd' then if value < 0 then "-" else if st.plus then "+" else if st.space then " " else ""
    else if st.alternate && value != 0 && spec in {'x', 'X', 'b', 'B'} then "0" + [spec]
    else ""
  }

  /** The precision is the least number of digits, 1 if none is given; a zero with a precision of 0 has
      none; '#' of an octal number makes the first digit a zero. */
  function IsoDigits(st: Style, spec: char, value: int): string {
    var digits :=
      if value == 0 && st.precision == Some(0) then ""
      else FormatIso.Numeral(Abs(value), FormatIso.Base(spec), spec == 'X');
    var least := if st.precision.Some? then st.precision.value else 1;
    var number := Repeat('0', least - |digits|) + digits;
    if spec == 'o' && st.alternate && (number == "" || number[0] != '0') then "0" + number else number
  }

  /** The field: padded to the width with spaces, on the left, or on the right with '-'; with '0', and
      no precision or '-', with zeros after the sign or prefix. */
  function IsoField(st: Style, spec: char, value: int): string {
    var prefix, number := IsoPrefix(st, spec, value), IsoDigits(st, spec, value);
    var missing := st.width - |prefix + number|;
    if st.left then prefix + number + Repeat(' ', missing)
    else if st.zero && st.precision.None? then prefix + Repeat('0', missing) + number
    else Repeat(' ', missing) + prefix + number
  }
}
