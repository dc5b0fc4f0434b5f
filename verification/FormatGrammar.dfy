/** Formats as they are written, by the grammar of the standard's section 7.23.6.1 and of POSIX's "n$", and that
    they are cut as they were written.
 */
module FormatGrammar {
  import opened Wrappers
  import opened FormatCut
  import opened FormatNumber
  import FormatIso

  /** A width or a precision: none, a number, the next argument, or argument n. */
  datatype Amount = Default | Decimal(n: nat) | Star | StarAt(n: nat)

  /** A conversion: of the next argument, or of argument n. */
  datatype Spec = Spec(named: Option<nat>, flags: string, width: Amount, precision: Option<Amount>, modifier: Modifier, spec: char)

  datatype Piece = Text(s: string) | Percent | Convert(c: Spec)

  function Numeral(n: nat): string {
    FormatIso.Numeral(n, 10, false)
  }

  function AmountText(a: Amount): string {
    match a
    case Default => ""
    case Decimal(n) => Numeral(n)
    case Star => "*"
    case StarAt(n) => "*" + Numeral(n) + "$"
  }

  function NamedText(n: Option<nat>): string {
    if n.Some? then Numeral(n.value) + "$" else ""
  }

  function PrecisionText(p: Option<Amount>): string {
    if p.Some? then "." + AmountText(p.value) else ""
  }

  function ModifierText(m: Modifier): string {
    match m
    case Plain => ""
    case Short => "h"
    case Long => "l"
    case LongLong => "ll"
  }

  /** What follows the '%'. */
  function SpecText(c: Spec): string {
    NamedText(c.named) + (c.flags + (AmountText(c.width) + (PrecisionText(c.precision) + (ModifierText(c.modifier) + [c.spec]))))
  }

  function Written(ps: seq<Piece>): string {
    if ps == [] then "" else PieceText(ps[0]) + Written(ps[1..])
  }

  function PieceText(p: Piece): string {
    match p
    case Text(s) => s
    case Percent => "%%"
    case Convert(c) => "%" + SpecText(c)
  }

  // ----- what may be written

  /** Numbers are read whole that are no more than the limit; a position is not zero. */
  predicate GoodAmount(a: Amount) {
    match a
    case Default => true
    case Decimal(n) => n <= MAX_WIDTH
    case Star => true
    case StarAt(n) => 0 < n <= MAX_WIDTH
  }

  predicate GoodFlags(flags: string) {
    forall k :: 0 <= k < |flags| ==> flags[k] in {'-', '+', ' ', '#', '0', '\''}
  }

  /** The specifier: not one of the characters that are something else before it. */
  predicate GoodSpec(c: char) {
    'A' <= c <= 'Z' || ('a' <= c <= 'z' && c != 'h' && c != 'l')
  }

  predicate Good(c: Spec) {
    && GoodFlags(c.flags) && GoodSpec(c.spec)
    && GoodAmount(c.width) && (c.width.Decimal? ==> c.width.n > 0)
    && (c.precision.Some? ==> GoodAmount(c.precision.value))
    && (c.named.Some? ==> 0 < c.named.value <= MAX_WIDTH)
  }

  predicate GoodPiece(p: Piece) {
    match p
    case Text(s) => forall k :: 0 <= k < |s| ==> s[k] != '%' && s[k] != '\0'
    case Percent => true
    case Convert(c) => Good(c)
  }

  // ----- texts in a format

  predicate Here(fmt: string, i: nat, t: string) {
    i + |t| <= |fmt| && fmt[i..i + |t|] == t
  }

  lemma HereSplit(fmt: string, i: nat, a: string, b: string)
    requires Here(fmt, i, a + b)
    ensures Here(fmt, i, a) && Here(fmt, i + |a|, b)
  {
    var whole := fmt[i..i + |a + b|];
    assert whole[..|a|] == a && whole[|a|..] == b;
  }

  lemma HereAt(fmt: string, i: nat, t: string, k: nat)
    requires Here(fmt, i, t) && k < |t|
    ensures At(fmt, i + k) == t[k]
  {
    assert fmt[i..i + |t|][k] == fmt[i + k];
  }

  // ----- numbers

  predicate AllDigits(t: string) {
    forall k :: 0 <= k < |t| ==> IsDigit(t[k])
  }

  lemma DigitIs(c: char)
    requires IsDigit(c)
    ensures DigitValue(c) == (c - '0') as nat == FirstDigit(c) <= 9
  {
  }

  /** The digits read so far. */
  lemma {:induction false} ReadsTo(fmt: string, i: nat, t: string, k: nat)
    requires Here(fmt, i, t) && AllDigits(t) && 1 <= k <= |t|
    requires forall j :: 1 <= j < k ==> Value(t[..j], 10) < MAX_WIDTH
    ensures Accumulate(fmt, i + 1, FirstDigit(At(fmt, i))) == Accumulate(fmt, i + k, Value(t[..k], 10))
  {
    HereAt(fmt, i, t, k - 1);
    DigitIs(t[k - 1]);
    assert t[..k][..k - 1] == t[..k - 1];
    if k == 1 {
      assert Value(t[..0], 10) == 0;
    } else {
      ReadsTo(fmt, i, t, k - 1);
    }
  }

  lemma {:induction false} Grows(t: string, j: nat, k: nat)
    requires j <= k <= |t|
    ensures Value(t[..j], 10) <= Value(t[..k], 10)
    ensures j < k ==> 10 * Value(t[..j], 10) <= Value(t[..k], 10)
  {
    if j < k {
      assert t[..k][..k - 1] == t[..k - 1];
      Grows(t, j, k - 1);
    }
  }

  /** The first place where the digits come to the limit. */
  lemma {:induction false} Reaches(t: string, k: nat) returns (j: nat)
    requires 1 <= k <= |t| && Value(t[..k], 10) >= MAX_WIDTH
    ensures 1 <= j <= k && Value(t[..j], 10) >= MAX_WIDTH
    ensures forall h :: 1 <= h < j ==> Value(t[..h], 10) < MAX_WIDTH
  {
    if h :| 1 <= h < k && Value(t[..h], 10) >= MAX_WIDTH {
      j := Reaches(t, h);
    } else {
      j := k;
    }
  }

  /** A number is read whole exactly when it is less than ten times the limit, and is then no more than the limit. */
  lemma UnsignedExact(fmt: string, i: nat, t: string)
    requires Here(fmt, i, t) && t != "" && AllDigits(t) && !IsDigit(At(fmt, i + |t|))
    ensures Unsigned(fmt, i).next == i + |t| <==> Value(t, 10) < 10 * MAX_WIDTH
    ensures Value(t, 10) < 10 * MAX_WIDTH ==>
              Unsigned(fmt, i).value == if Value(t, 10) < MAX_WIDTH then Value(t, 10) else MAX_WIDTH
  {
    hide Value;
    var n := |t|;
    assert t[..n] == t;
    LastDigit(t);
    if Value(t, 10) < 10 * MAX_WIDTH {
      forall j | 1 <= j < n
        ensures Value(t[..j], 10) < MAX_WIDTH
      {
        Grows(t, j, n);
      }
      ReadsTo(fmt, i, t, n);
    } else if n > 1 {
      var j := Reaches(t, n - 1);
      ReadsTo(fmt, i, t, j);
    }
  }

  lemma LastDigit(t: string)
    requires t != "" && AllDigits(t)
    ensures Value(t, 10) == 10 * Value(t[..|t| - 1], 10) + DigitValue(t[|t| - 1]) && DigitValue(t[|t| - 1]) <= 9
    ensures |t| == 1 ==> Value(t[..|t| - 1], 10) == 0
  {
    DigitIs(t[|t| - 1]);
  }

  lemma {:induction false} NumeralDigits(n: nat)
    ensures Numeral(n) != "" && AllDigits(Numeral(n)) && (Numeral(n)[0] == '0' <==> n == 0)
    ensures Value(Numeral(n), 10) == n
  {
    DigitsNumeral(n, 10, false);
    ReadsBack(n, 10, false);
    OnlyDigits(n, 10, false);
    DecimalDigits(n);
  }

  lemma {:induction false} DecimalDigits(n: nat)
    ensures AllDigits(Numeral(n))
  {
    if n >= 10 {
      FormatIso.Shrinks(n, 10);
      DecimalDigits(n / 10);
    }
  }

  lemma NumberAt(fmt: string, i: nat, n: nat)
    requires Here(fmt, i, Numeral(n)) && n <= MAX_WIDTH && !IsDigit(At(fmt, i + |Numeral(n)|))
    ensures Unsigned(fmt, i) == Number(n, i + |Numeral(n)|) && IsDigit(At(fmt, i)) && (At(fmt, i) == '0' <==> n == 0)
  {
    hide FormatIso.Numeral, Unsigned;
    NumeralDigits(n);
    UnsignedExact(fmt, i, Numeral(n));
    HereAt(fmt, i, Numeral(n), 0);
  }

  // ----- and cut

  /** The field that an amount is cut as. */
  function FieldOf(a: Amount, at: nat): Field {
    match a
    case Default => Absent
    case Decimal(n) => Given(n)
    case Star => Following
    case StarAt(n) => Position(n, at)
  }

  /** A character that ends an amount. */
  predicate Ends(c: char) {
    !IsDigit(c) && c != '*' && c != '$'
  }

  lemma WidthCut(fmt: string, i: nat, a: Amount)
    requires Here(fmt, i, AmountText(a)) && GoodAmount(a) && Ends(At(fmt, i + |AmountText(a)|))
    ensures Width(fmt, i) == Part(FieldOf(a, i), i + |AmountText(a)|, false)
  {
    hide Unsigned, FormatIso.Numeral, Here;
    match a
    case Default =>
    case Decimal(n) => NumberAt(fmt, i, n);
    case Star => HereAt(fmt, i, "*", 0);
    case StarAt(n) => StarCut(fmt, i, n);
  }

  lemma StarCut(fmt: string, i: nat, n: nat)
    requires Here(fmt, i, AmountText(StarAt(n))) && 0 < n <= MAX_WIDTH
    ensures At(fmt, i) == '*' && IsDigit(At(fmt, i + 1)) && At(fmt, i + 1 + |Numeral(n)|) == '$'
    ensures Unsigned(fmt, i + 1) == Number(n, i + 1 + |Numeral(n)|)
  {
    hide Unsigned, FormatIso.Numeral, Here;
    assert AmountText(StarAt(n)) == "*" + (Numeral(n) + "$");
    HereSplit(fmt, i, "*", Numeral(n) + "$");
    HereSplit(fmt, i + 1, Numeral(n), "$");
    HereAt(fmt, i, "*", 0);
    HereAt(fmt, i + 1 + |Numeral(n)|, "$", 0);
    NumberAt(fmt, i + 1, n);
  }

  /** A '.' alone is a precision of 0. */
  function PrecisionField(p: Option<Amount>, at: nat): Field {
    if p.None? then Absent else if p.value.Default? then Given(0) else FieldOf(p.value, at + 1)
  }

  lemma PrecisionCut(fmt: string, i: nat, p: Option<Amount>)
    requires Here(fmt, i, PrecisionText(p)) && (p.Some? ==> GoodAmount(p.value))
    requires Ends(At(fmt, i + |PrecisionText(p)|)) && At(fmt, i + |PrecisionText(p)|) != '.'
    ensures Precision(fmt, i) == Part(PrecisionField(p, i), i + |PrecisionText(p)|, false)
  {
    hide Width, AmountText;
    if p.Some? {
      HereSplit(fmt, i, ".", AmountText(p.value));
      HereAt(fmt, i, ".", 0);
      WidthCut(fmt, i + 1, p.value);
    }
  }

  lemma {:induction false} FlagsCut(fmt: string, i: nat, flags: string)
    requires Here(fmt, i, flags) && GoodFlags(flags) && !IsFlag(At(fmt, i + |flags|))
    ensures FlagsEnd(fmt, i) == i + |flags| && Flags(fmt, i) == flags
    decreases |flags|
  {
    if flags != "" {
      HereAt(fmt, i, flags, 0);
      assert flags == flags[..1] + flags[1..];
      HereSplit(fmt, i, flags[..1], flags[1..]);
      FlagsCut(fmt, i + 1, flags[1..]);
    }
  }

  lemma ModifierCut(fmt: string, i: nat, m: Modifier, spec: char)
    requires Here(fmt, i, ModifierText(m) + [spec]) && GoodSpec(spec)
    ensures ModifierAt(fmt, i) == m && ModifierSize(m) == |ModifierText(m)| && At(fmt, i + |ModifierText(m)|) == spec
  {
    var t := ModifierText(m) + [spec];
    HereAt(fmt, i, t, 0);
    HereAt(fmt, i, t, |t| - 1);
    if m.LongLong? || m.Long? {
      HereAt(fmt, i, t, 1);
    }
  }

  lemma {:induction false} DigitsStop(fmt: string, i: nat, k: nat)
    requires i <= k && !IsDigit(At(fmt, k))
    ensures i <= DigitsEnd(fmt, i) <= k && !IsDigit(At(fmt, DigitsEnd(fmt, i)))
    decreases k - i
  {
    if IsDigit(At(fmt, i)) {
      DigitsStop(fmt, i + 1, k);
    }
  }

  lemma {:induction false} DigitsRun(fmt: string, i: nat, k: nat)
    requires i <= k && !IsDigit(At(fmt, k)) && forall j :: i <= j < k ==> IsDigit(At(fmt, j))
    ensures DigitsEnd(fmt, i) == k
    decreases k - i
  {
    if i < k {
      DigitsRun(fmt, i + 1, k);
    }
  }

  /** A position is cut as it is written. */
  lemma NamedCut(fmt: string, i: nat, n: nat)
    requires Here(fmt, i, Numeral(n) + "$") && 0 < n <= MAX_WIDTH
    ensures NamedAt(fmt, i) == Named(Some(n), i + |Numeral(n) + "$"|, false)
  {
    hide FormatIso.Numeral, Unsigned, DigitsEnd;
    var t := Numeral(n);
    HereSplit(fmt, i, t, "$");
    HereAt(fmt, i + |t|, "$", 0);
    NumeralDigits(n);
    forall j | i <= j < i + |t|
      ensures IsDigit(At(fmt, j))
    {
      HereAt(fmt, i, t, j - i);
    }
    DigitsRun(fmt, i, i + |t|);
    NumberAt(fmt, i, n);
  }

  /** And a conversion without one is not taken to have one. */
  lemma UnnamedCut(fmt: string, i: nat, flags: string, a: Amount)
    requires Here(fmt, i, flags + AmountText(a)) && GoodFlags(flags) && GoodAmount(a)
    requires Ends(At(fmt, i + |flags + AmountText(a)|))
    ensures NamedAt(fmt, i) == Named(None, i, false)
  {
    hide FormatIso.Numeral, Unsigned, DigitsEnd, Ends, FirstDigit;
    HereSplit(fmt, i, flags, AmountText(a));
    var k := i + |flags| + if a.StarAt? then 0 else |AmountText(a)|;
    NotDollar(fmt, i, flags, a, k);
    DigitsStop(fmt, i, k);
  }

  lemma NotDollar(fmt: string, i: nat, flags: string, a: Amount, k: nat)
    requires Here(fmt, i, flags) && Here(fmt, i + |flags|, AmountText(a)) && GoodFlags(flags)
    requires k == i + |flags| + if a.StarAt? then 0 else |AmountText(a)|
    requires Ends(At(fmt, i + |flags| + |AmountText(a)|))
    ensures !IsDigit(At(fmt, k)) && forall j :: i <= j <= k ==> At(fmt, j) != '$'
  {
    hide Here, AmountText;
    StarFirst(a);
    if a.StarAt? {
      HereAt(fmt, i + |flags|, AmountText(a), 0);
    }
    forall j | i <= j <= k
      ensures At(fmt, j) != '$'
    {
      if j < i + |flags| {
        HereAt(fmt, i, flags, j - i);
      } else if j < i + |flags| + |AmountText(a)| {
        HereAt(fmt, i + |flags|, AmountText(a), j - i - |flags|);
        AmountNoDollar(a, j - i - |flags|);
      }
    }
  }

  lemma StarFirst(a: Amount)
    ensures a.Star? || a.StarAt? ==> AmountText(a) != "" && AmountText(a)[0] == '*'
  {
  }

  lemma AmountNoDollar(a: Amount, j: nat)
    requires j < |AmountText(a)| && (a.StarAt? ==> j == 0)
    ensures AmountText(a)[j] != '$'
  {
    hide FormatIso.Numeral;
    if a.Decimal? {
      NumeralDigits(a.n);
      assert IsDigit(Numeral(a.n)[j]);
    }
  }

  /** What comes after an amount: its precision, its modifier or its specifier. */
  lemma TailStarts(fmt: string, i: nat, p: Option<Amount>, m: Modifier, spec: char)
    requires Here(fmt, i, PrecisionText(p) + (ModifierText(m) + [spec])) && GoodSpec(spec)
    ensures Ends(At(fmt, i)) && !IsFlag(At(fmt, i))
    ensures var j := i + |PrecisionText(p)|;
            && Here(fmt, i, PrecisionText(p)) && Here(fmt, j, ModifierText(m) + [spec])
            && Ends(At(fmt, j)) && At(fmt, j) != '.'
  {
    hide AmountText, ModifierText, Here, Ends, IsFlag;
    var t := ModifierText(m) + [spec];
    HereSplit(fmt, i, PrecisionText(p), t);
    HereAt(fmt, i + |PrecisionText(p)|, t, 0);
    ModifierStarts(m, spec);
    PointStarts();
    if p.Some? {
      HereAt(fmt, i, PrecisionText(p), 0);
    }
  }

  lemma ModifierStarts(m: Modifier, spec: char)
    requires GoodSpec(spec)
    ensures var c := (ModifierText(m) + [spec])[0]; Ends(c) && !IsFlag(c) && c != '.'
  {
  }

  lemma PointStarts()
    ensures Ends('.') && !IsFlag('.')
  {
  }

  lemma AmountStarts(fmt: string, i: nat, a: Amount)
    requires Here(fmt, i, AmountText(a)) && (a.Decimal? ==> 0 < a.n <= MAX_WIDTH) && !IsFlag(At(fmt, i + |AmountText(a)|))
    ensures !IsFlag(At(fmt, i))
  {
    hide FormatIso.Numeral;
    if a.Decimal? {
      NumeralDigits(a.n);
    }
    if a != Default {
      HereAt(fmt, i, AmountText(a), 0);
    }
  }

  /** A conversion is cut as it is written: its parts, and where it ends. */
  lemma CutWritten(fmt: string, i: nat, c: Spec)
    requires Here(fmt, i, SpecText(c)) && Good(c)
    ensures var d := Cut(fmt, i);
            && d.named.pos == c.named && !d.named.bad && d.flags == c.flags && d.modifier == c.modifier && d.spec == c.spec
            && !d.width.bad && !d.precision.bad
            && (exists at :: d.width.field == FieldOf(c.width, at))
            && (exists at :: d.precision.field == PrecisionField(c.precision, at))
            && d.specAt + 1 == i + |SpecText(c)| == d.Next()
  {
    hide *;
    var from := i + |NamedText(c.named)|;
    var at := from + |c.flags|;
    var end := at + |AmountText(c.width)|;
    var last := end + |PrecisionText(c.precision)|;
    WrittenParts(fmt, i, c);
    NamedWritten(fmt, i, c);
    FlagsCut(fmt, from, c.flags);
    WidthCut(fmt, at, c.width);
    PrecisionCut(fmt, end, c.precision);
    ModifierCut(fmt, last, c.modifier, c.spec);
    CutOf(fmt, i);
    assert Cut(fmt, i).width.field == FieldOf(c.width, at);
    assert Cut(fmt, i).precision.field == PrecisionField(c.precision, end);
    NotNul(c);
  }

  lemma NotNul(c: Spec)
    requires Good(c)
    ensures c.spec != '\0'
  {
  }

  lemma CutOf(fmt: string, i: nat)
    ensures var d := Cut(fmt, i);
            && d.named == NamedAt(fmt, i) && d.flags == Flags(fmt, d.named.next)
            && d.width == Width(fmt, FlagsEnd(fmt, d.named.next)) && d.precision == Precision(fmt, d.width.next)
            && d.modifier == ModifierAt(fmt, d.precision.next) && d.specAt == d.precision.next + ModifierSize(d.modifier)
            && d.spec == At(fmt, d.specAt) && (d.spec != '\0' ==> d.Next() == d.specAt + 1)
  {
  }

  lemma WrittenParts(fmt: string, i: nat, c: Spec)
    requires Here(fmt, i, SpecText(c)) && Good(c)
    ensures var from := i + |NamedText(c.named)|;
            var at := from + |c.flags|;
            var end := at + |AmountText(c.width)|;
            var last := end + |PrecisionText(c.precision)|;
            && Here(fmt, i, NamedText(c.named)) && Here(fmt, from, c.flags) && Here(fmt, at, AmountText(c.width))
            && Here(fmt, end, PrecisionText(c.precision)) && Here(fmt, last, ModifierText(c.modifier) + [c.spec])
            && Ends(At(fmt, end)) && !IsFlag(At(fmt, at)) && Ends(At(fmt, last)) && At(fmt, last) != '.'
            && last + |ModifierText(c.modifier)| + 1 == i + |SpecText(c)|
            && GoodFlags(c.flags) && GoodSpec(c.spec) && GoodAmount(c.width) && (c.precision.Some? ==> GoodAmount(c.precision.value))
  {
    hide AmountText, PrecisionText, NamedText, ModifierText, Here, Ends, IsFlag;
    var tail := ModifierText(c.modifier) + [c.spec];
    var from := i + |NamedText(c.named)|;
    var at := from + |c.flags|;
    var end := at + |AmountText(c.width)|;
    HereSplit(fmt, i, NamedText(c.named), c.flags + (AmountText(c.width) + (PrecisionText(c.precision) + tail)));
    HereSplit(fmt, from, c.flags, AmountText(c.width) + (PrecisionText(c.precision) + tail));
    HereSplit(fmt, at, AmountText(c.width), PrecisionText(c.precision) + tail);
    TailStarts(fmt, end, c.precision, c.modifier, c.spec);
    AmountStarts(fmt, at, c.width);
  }

  lemma NamedWritten(fmt: string, i: nat, c: Spec)
    requires Here(fmt, i, NamedText(c.named)) && Good(c)
    requires var from := i + |NamedText(c.named)|;
             && Here(fmt, from, c.flags) && Here(fmt, from + |c.flags|, AmountText(c.width))
             && Ends(At(fmt, from + |c.flags| + |AmountText(c.width)|))
    ensures NamedAt(fmt, i) == Named(c.named, i + |NamedText(c.named)|, false)
  {
    hide NamedAt, AmountText;
    if c.named.Some? {
      NamedCut(fmt, i, c.named.value);
    } else {
      var t := c.flags + AmountText(c.width);
      assert fmt[i..i + |t|] == fmt[i..i + |c.flags|] + fmt[i + |c.flags|..i + |t|];
      UnnamedCut(fmt, i, c.flags, c.width);
    }
  }

  /** The second of two '%'s is a specifier. */
  lemma CutPercent(fmt: string, i: nat)
    requires Here(fmt, i, "%")
    ensures var d := Cut(fmt, i);
            && d.named.pos == None && !d.named.bad && d.flags == "" && d.modifier == Plain && d.spec == '%'
            && d.width.field == Absent && !d.width.bad && d.precision.field == Absent && !d.precision.bad
            && d.Next() == i + 1
  {
    HereAt(fmt, i, "%", 0);
  }
}
