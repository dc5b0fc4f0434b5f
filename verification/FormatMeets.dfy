/** printf against the standard, from the text of a format to what it writes: what a format says is told from its
    pieces alone, and both passes come to it.
 */
module FormatMeets {
  import opened Wrappers
  import opened FormatCut
  import opened FormatTypes
  import opened FormatNumber
  import opened FormatField
  import opened FormatStandard
  import opened FormatArgs
  import opened Format
  import opened G = FormatGrammar
  import I = FormatIso

  // ----- arguments

  /** The argument of an amount after `used` arguments. */
  function AmountIndex(a: Amount, used: nat): nat {
    if a.StarAt? && a.n > 0 then a.n - 1 else used
  }

  predicate Argument(a: Amount) {
    a.Star? || a.StarAt?
  }

  function AmountUsed(a: Amount, used: nat): nat {
    if a.Star? then used + 1 else used
  }

  /** An int that is neither the least, whose negative is none, nor above what a field may be. */
  predicate GoodInt(args: seq<Arg>, k: nat) {
    k < |args| && args[k].Integer? && -0x8000_0000 < I.Signed(args[k].value, I.INTS) <= MAX_WIDTH
  }

  function AmountValue(a: Amount, args: seq<Arg>, used: nat): Option<int>
    requires Argument(a) ==> GoodInt(args, AmountIndex(a, used))
  {
    match a
    case Default => None
    case Decimal(n) => Some(n)
    case Star => Some(I.Signed(args[used].value, I.INTS))
    case StarAt(_) => Some(I.Signed(args[AmountIndex(a, used)].value, I.INTS))
  }

  /** What its argument reads, and zero if it has none. */
  function AmountInt(a: Amount, args: seq<Arg>, used: nat): int
    requires Argument(a) ==> GoodInt(args, AmountIndex(a, used))
  {
    if Argument(a) then AmountValue(a, args, used).value else 0
  }

  function PrecisionAmount(c: Spec): Amount {
    if c.precision.Some? then c.precision.value else Default
  }

  /** Where a conversion's own argument is. */
  function OwnIndex(c: Spec, used: nat): nat {
    if c.named.Some? && c.named.value > 0 then c.named.value - 1
    else AmountUsed(PrecisionAmount(c), AmountUsed(c.width, used))
  }

  function SpecUsed(c: Spec, used: nat): nat {
    AmountUsed(PrecisionAmount(c), AmountUsed(c.width, used)) + if c.named.None? then 1 else 0
  }

  /** The conversions of which the standard is asked here. */
  predicate Standard(c: Spec) {
    && c.spec in {'d', 'i', 'u', 'o', 'x', 'X', 'b', 'B', 'c', 's'} && !c.modifier.Short?
    && (c.spec == 'c' || c.spec == 's' ==> '0' !in c.flags)
  }

  /** There is an argument for each use, of its type. */
  predicate Suits(c: Spec, args: seq<Arg>, used: nat) {
    && (Argument(c.width) ==> GoodInt(args, AmountIndex(c.width, used)))
    && (Argument(PrecisionAmount(c)) ==> GoodInt(args, AmountIndex(PrecisionAmount(c), AmountUsed(c.width, used))))
    && OwnIndex(c, used) < |args|
    && var a := args[OwnIndex(c, used)]; if c.spec == 's' then a.Text? && |a.text| < 0x4000_0000 else a.Integer?
  }

  // ----- what a conversion writes, by the standard

  function ConversionOf(c: Spec, args: seq<Arg>, used: nat): I.Conversion
    requires Suits(c, args, used)
  {
    I.Conversion(
      c.flags,
      AmountValue(c.width, args, used),
      if c.precision == Some(Default) then Some(0) else AmountValue(PrecisionAmount(c), args, AmountUsed(c.width, used)),
      if c.spec == 'i' then 'd' else c.spec)
  }

  function Numbers(m: Modifier): nat {
    if m.Plain? then I.INTS else I.LONGS
  }

  function Writes(c: Spec, args: seq<Arg>, used: nat): string
    requires Suits(c, args, used)
  {
    var conv, a := ConversionOf(c, args, used), args[OwnIndex(c, used)];
    if c.spec == 's' then I.TextField(conv, a.text)
    else if c.spec == 'c' then I.TextField(conv.(precision := None), [I.Unsigned(a.value, 256) as char])
    else if c.spec == 'd' || c.spec == 'i' then I.Field(conv, I.Signed(a.value, Numbers(c.modifier)))
    else if c.spec == 'b' || c.spec == 'B' then I.Field(conv, I.Unsigned(a.value, I.LONGS))
    else I.Field(conv, I.Unsigned(a.value, Numbers(c.modifier)))
  }

  predicate PieceSuits(p: Piece, args: seq<Arg>, used: nat) {
    p.Convert? ==> Standard(p.c) && Suits(p.c, args, used)
  }

  function PieceUsed(p: Piece, used: nat): nat {
    if p.Convert? then SpecUsed(p.c, used) else used
  }

  function PieceMeaning(p: Piece, args: seq<Arg>, used: nat): string
    requires PieceSuits(p, args, used)
  {
    match p
    case Text(s) => s
    case Percent => "%"
    case Convert(c) => Writes(c, args, used)
  }

  predicate AllSuit(ps: seq<Piece>, args: seq<Arg>, used: nat)
    decreases |ps|
  {
    ps == [] || (PieceSuits(ps[0], args, used) && AllSuit(ps[1..], args, PieceUsed(ps[0], used)))
  }

  /** What a format writes: its texts, and its conversions' fields. */
  function Meaning(ps: seq<Piece>, args: seq<Arg>, used: nat): string
    requires AllSuit(ps, args, used)
    decreases |ps|
  {
    if ps == [] then "" else PieceMeaning(ps[0], args, used) + Meaning(ps[1..], args, PieceUsed(ps[0], used))
  }

  // ----- the program's values

  lemma SignedIs(x: int)
    ensures Wrap32(x) == I.Signed(x, I.INTS) && Wrap64(x) == I.Signed(x, I.LONGS)
  {
    SignedInt(x);
    SignedLong(x);
  }

  lemma SignedInt(x: int)
    ensures Wrap32(x) == I.Signed(x, I.INTS)
  {
    var q, r := x / 0x1_0000_0000, x % 0x1_0000_0000;
    assert x == 0x1_0000_0000 * q + r;
    assert (x + 0x8000_0000) / 0x1_0000_0000 == q + if r < 0x8000_0000 then 0 else 1;
  }

  lemma SignedLong(x: int)
    ensures Wrap64(x) == I.Signed(x, I.LONGS)
  {
    var q, r := x / 0x1_0000_0000_0000_0000, x % 0x1_0000_0000_0000_0000;
    assert x == 0x1_0000_0000_0000_0000 * q + r;
    assert (x + 0x8000_0000_0000_0000) / 0x1_0000_0000_0000_0000 == q + if r < 0x8000_0000_0000_0000 then 0 else 1;
  }

  // ----- its style and field

  /** A style says what a conversion does. */
  predicate Says(st: Style, c: I.Conversion) {
    && st.left == c.Left() && st.zero == ('0' in c.flags) && st.plus == ('+' in c.flags) && st.space == (' ' in c.flags)
    && st.alternate == ('#' in c.flags) && st.width == c.Width()
    && st.precision == if c.Precise() then Some(c.precision.value) else None
  }

  lemma CopiesIs(ch: char, n: int)
    ensures Repeat(ch, n) == I.Copies(ch, n)
  {
  }

  lemma FieldSays(st: Style, c: I.Conversion, value: int)
    requires Says(st, c) && IsNumeral(c.spec)
    ensures IsoField(st, c.spec, value) == I.Field(c, value)
  {
    hide I.Numeral, Repeat, I.Copies;
    SignSays(st, c, value);
    FiguresSay(st, c, value);
    var prefix, number := IsoPrefix(st, c.spec, value), IsoDigits(st, c.spec, value);
    var missing := st.width - |prefix + number|;
    CopiesIs(' ', missing);
    CopiesIs('0', missing);
    hide IsoPrefix, IsoDigits, I.Sign, I.Figures;
  }

  lemma SignSays(st: Style, c: I.Conversion, value: int)
    requires Says(st, c) && IsNumeral(c.spec)
    ensures IsoPrefix(st, c.spec, value) == I.Sign(c, value)
  {
  }

  lemma FiguresSay(st: Style, c: I.Conversion, value: int)
    requires Says(st, c) && IsNumeral(c.spec)
    ensures IsoDigits(st, c.spec, value) == I.Figures(c, value)
  {
    hide I.Numeral, Repeat, I.Copies;
    var digits := if value == 0 && st.precision == Some(0) then "" else I.Numeral(Abs(value), I.Base(c.spec), c.spec == 'X');
    CopiesIs('0', (if st.precision.Some? then st.precision.value else 1) - |digits|);
  }

  /** What a field of the format reads. */
  lemma AmountReads(a: Amount, at: nat, args: seq<Arg>, used: nat)
    requires GoodAmount(a) && (Argument(a) ==> GoodInt(args, AmountIndex(a, used)))
    ensures var f := FieldOf(a, at);
            && Argued(f) == Argument(a) && FieldUsed(f, used) == AmountUsed(a, used)
            && FieldInt(f, args, used) == Some(AmountInt(a, args, used))
  {
    hide Wrap32, I.Signed;
    if Argument(a) {
      SignedInt(args[AmountIndex(a, used)].value);
    }
  }

  lemma WidthSays(flags: string, a: Amount, at: nat, args: seq<Arg>, used: nat)
    requires GoodAmount(a) && (Argument(a) ==> GoodInt(args, AmountIndex(a, used)))
    ensures var st := WidthStyle(FlagStyle(flags), FieldOf(a, at), AmountInt(a, args, used));
            forall spec :: Says(st, I.Conversion(flags, AmountValue(a, args, used), None, spec))
    ensures var st := WidthStyle(FlagStyle(flags), FieldOf(a, at), AmountInt(a, args, used));
            0 <= st.width <= 0x8000_0000 - 1
  {
    if Argument(a) {
      var j := AmountValue(a, args, used).value;
      if j < 0 {
        WrapSame(-j);
      }
    }
  }

  lemma PrecisionSays(st: Style, c: I.Conversion, p: Option<Amount>, at: nat, args: seq<Arg>, used: nat)
    requires Says(st, c) && c.precision.None? && 0 <= st.width < 0x8000_0000 && (p.Some? ==> GoodAmount(p.value))
    requires p.Some? && Argument(p.value) ==> GoodInt(args, AmountIndex(p.value, used))
    ensures var a := if p.Some? then p.value else Default;
            var st' := PrecisionStyle(st, PrecisionField(p, at), AmountInt(a, args, used));
            && Says(st', c.(precision := if p == Some(Default) then Some(0) else AmountValue(a, args, used)))
            && 0 <= st'.width < 0x8000_0000 && Ordinary(st')
  {
    hide I.Signed;
  }

  // ----- a conversion

  lemma NumbersWrite(st: Style, c: Spec, args: seq<Arg>, used: nat, ed: Editor)
    requires Standard(c) && Suits(c, args, used) && c.spec != 's' && c.spec != 'c' && ed.Valid()
    requires Says(st, ConversionOf(c, args, used)) && Ordinary(st) && 0 <= st.width
    ensures Converted(st, Alias(c.spec), AliasModifier(c.spec, c.modifier), args[OwnIndex(c, used)], ed) == Some(Writes(c, args, used))
  {
    hide Converted, IsoField, I.Field, Says, ConversionOf, Ordinary, Wrap32, Wrap64, I.Signed, IsoPrefix, IsoDigits;
    var a, conv := args[OwnIndex(c, used)], ConversionOf(c, args, used);
    var spec := Alias(c.spec);
    assert AliasModifier(c.spec, c.modifier) == c.modifier && conv.spec == spec by { SpecIs(c, args, used); }
    MeetsStandard(st, spec, c.modifier, a, ed);
    FieldSays(st, conv, ValueOf(spec, c.modifier, a));
    SignedIs(a.value);
  }

  lemma SpecIs(c: Spec, args: seq<Arg>, used: nat)
    requires Standard(c) && Suits(c, args, used)
    ensures ConversionOf(c, args, used).spec == Alias(c.spec) && AliasModifier(c.spec, c.modifier) == c.modifier
    ensures ConversionOf(c, args, used).flags == c.flags && Reads(Alias(c.spec))
  {
  }

  /** A text in its field. */
  lemma TextSays(st: Style, conv: I.Conversion, shown: string)
    requires Says(st, conv) && !st.zero && 0 <= st.width < 0x8000_0000 && |shown| < 0x4000_0000
    ensures Laid(st, false, "", 0, shown) ==
            if conv.Left() then shown + I.Copies(' ', conv.Width() - |shown|) else I.Copies(' ', conv.Width() - |shown|) + shown
  {
    hide Laid, Repeat, I.Copies;
    LaidShort(st, false, "", 0, shown);
    CopiesIs(' ', conv.Width() - |shown|);
    NoneMissing(0);
    assert Repeat('0', 0) == "" by { NoZeros(); }
    assert "" + shown == shown && "" + ("" + shown) == shown;
    assert Repeat(' ', st.width - |shown|) + "" + ("" + shown) == Repeat(' ', st.width - |shown|) + shown;
  }

  lemma NoZeros()
    ensures Repeat('0', 0) == ""
  {
  }

  lemma StringsWrite(st: Style, c: Spec, args: seq<Arg>, used: nat, ed: Editor)
    requires Standard(c) && Suits(c, args, used) && c.spec == 's' && ed.Valid()
    requires Says(st, ConversionOf(c, args, used)) && Ordinary(st) && 0 <= st.width
    ensures Converted(st, 's', c.modifier, args[OwnIndex(c, used)], ed) == Some(Writes(c, args, used))
  {
    hide Laid, I.Copies, ConversionOf;
    var a, conv := args[OwnIndex(c, used)], ConversionOf(c, args, used);
    var text := a.text;
    SpecIs(c, args, used);
    var shown := if st.precision.None? || |text| <= st.precision.value then text else text[..st.precision.value];
    assert ShownOf(st, 's', a, ed) == Some(Shown(shown, 0));
    assert st.(width := if st.width != 0 then st.width + 0 else 0) == st;
    TextSays(st, conv, shown);
  }

  lemma CharactersWrite(st: Style, c: Spec, args: seq<Arg>, used: nat, ed: Editor)
    requires Standard(c) && Suits(c, args, used) && c.spec == 'c' && ed.Valid()
    requires Says(st, ConversionOf(c, args, used)) && Ordinary(st) && 0 <= st.width
    ensures Converted(st, 'c', c.modifier, args[OwnIndex(c, used)], ed) == Some(Writes(c, args, used))
  {
    hide Laid, I.Copies, ConversionOf;
    var a, conv := args[OwnIndex(c, used)], ConversionOf(c, args, used);
    SpecIs(c, args, used);
    TextSays(st, conv, [(a.value % 256) as char]);
  }

  lemma ConversionWrites(st: Style, c: Spec, args: seq<Arg>, used: nat, ed: Editor)
    requires Standard(c) && Suits(c, args, used) && ed.Valid()
    requires Says(st, ConversionOf(c, args, used)) && Ordinary(st) && 0 <= st.width
    ensures Converted(st, Alias(c.spec), AliasModifier(c.spec, c.modifier), args[OwnIndex(c, used)], ed) == Some(Writes(c, args, used))
    ensures Reads(Alias(c.spec))
  {
    hide Converted, Writes, Says, ConversionOf, Ordinary;
    SpecIs(c, args, used);
    if c.spec == 's' {
      StringsWrite(st, c, args, used, ed);
    } else if c.spec == 'c' {
      CharactersWrite(st, c, args, used, ed);
    } else {
      NumbersWrite(st, c, args, used, ed);
    }
  }

  /** The style of a conversion as it is cut. */
  lemma StyleSays(c: Spec, args: seq<Arg>, used: nat, at: nat, at': nat)
    requires Good(c) && Suits(c, args, used)
    ensures var w := AmountInt(c.width, args, used);
            var used1, a := AmountUsed(c.width, used), PrecisionAmount(c);
            var p := AmountInt(a, args, used1);
            var st := PrecisionStyle(WidthStyle(FlagStyle(c.flags), FieldOf(c.width, at), w), PrecisionField(c.precision, at'), p);
            Says(st, ConversionOf(c, args, used)) && Ordinary(st) && 0 <= st.width
  {
    hide Says, Ordinary, WidthStyle, PrecisionStyle, FlagStyle, AmountValue, AmountInt, FieldOf, PrecisionField, GoodInt;
    var w := AmountInt(c.width, args, used);
    var used1 := AmountUsed(c.width, used);
    var st := WidthStyle(FlagStyle(c.flags), FieldOf(c.width, at), w);
    var spec := if c.spec == 'i' then 'd' else c.spec;
    var conv := I.Conversion(c.flags, AmountValue(c.width, args, used), None, spec);
    WidthSays(c.flags, c.width, at, args, used);
    PrecisionSays(st, conv, c.precision, at', args, used1);
  }

  /** A conversion, wherever it is in a format, writes its field, of the arguments that it names or the next ones. */
  lemma ConvertMeets(fmt: string, i: nat, c: Spec, args: seq<Arg>, used: nat, ed: Editor)
    requires Here(fmt, i, G.SpecText(c)) && Good(c) && Standard(c) && Suits(c, args, used) && ed.Valid()
    ensures var d := Cut(fmt, i);
            && DirectiveText(d, args, used, ed) == Some(Writes(c, args, used)) && DirectiveUsed(d, used) == SpecUsed(c, used)
            && d.Next() == i + |G.SpecText(c)|
  {
    hide Here, G.SpecText, Good, Writes, Says, Ordinary, Converted, FieldOf, PrecisionField, AmountValue, AmountInt, GoodInt;
    hide WidthStyle, PrecisionStyle, FlagStyle, FieldInt, FieldUsed, Argument, Cut, Reads, Alias, AliasModifier;
    CutWritten(fmt, i, c);
    var d := Cut(fmt, i);
    var at :| d.width.field == FieldOf(c.width, at);
    var at' :| d.precision.field == PrecisionField(c.precision, at');
    StyleSays(c, args, used, at, at');
    AmountsRead(c, args, used, at, at');
    var w := AmountInt(c.width, args, used);
    var used1, a := AmountUsed(c.width, used), PrecisionAmount(c);
    var p := AmountInt(a, args, used1);
    ConversionWrites(PrecisionStyle(WidthStyle(FlagStyle(c.flags), FieldOf(c.width, at), w), PrecisionField(c.precision, at'), p),
                     c, args, used, ed);
    OwnIs(c, args, used);
  }

  lemma AmountsRead(c: Spec, args: seq<Arg>, used: nat, at: nat, at': nat)
    requires Good(c) && Suits(c, args, used)
    ensures var w, p := FieldOf(c.width, at), PrecisionField(c.precision, at');
            var used1, a := AmountUsed(c.width, used), PrecisionAmount(c);
            && FieldUsed(w, used) == used1 && FieldUsed(p, used1) == AmountUsed(a, used1)
            && FieldInt(w, args, used) == Some(AmountInt(c.width, args, used))
            && FieldInt(p, args, used1) == Some(AmountInt(a, args, used1))
  {
    hide FieldInt, AmountValue, AmountInt, GoodInt;
    var used1, a := AmountUsed(c.width, used), PrecisionAmount(c);
    AmountReads(c.width, at, args, used);
    if a.Default? {
      NothingRead(PrecisionField(c.precision, at'), args, used1);
    } else {
      AmountReads(a, at' + 1, args, used1);
    }
  }

  lemma NothingRead(f: Field, args: seq<Arg>, used: nat)
    requires !Argued(f)
    ensures FieldInt(f, args, used) == Some(0) && FieldUsed(f, used) == used && AmountInt(Default, args, used) == 0
  {
  }

  lemma OwnIs(c: Spec, args: seq<Arg>, used: nat)
    requires Good(c) && Suits(c, args, used)
    ensures var used2 := AmountUsed(PrecisionAmount(c), AmountUsed(c.width, used));
            && ArgAt(args, SpecIndex(c.named, used2)) == Some(args[OwnIndex(c, used)])
            && SpecUsed(c, used) == if c.named.None? then used2 + 1 else used2
  {
  }

  // ----- a format

  /** A character outside conversions is written as it is. */
  lemma RenderChar(fmt: string, i: nat, args: seq<Arg>, used: nat, ed: Editor)
    requires NulFree(fmt) && ed.Valid() && i < |fmt| && fmt[i] != '%'
    ensures Render(fmt, i, args, used, ed) == Before(fmt[i..i + 1], Render(fmt, i + 1, args, used, ed))
  {
    hide Cut, DirectiveText, DirectiveUsed;
    var e := TextEnd(fmt, i + 1);
    if i + 1 < |fmt| && fmt[i + 1] != '%' {
      assert e == TextEnd(fmt, i + 2);
      BeforeBefore(fmt[i..i + 1], fmt[i + 1..e], Render(fmt, e, args, used, ed));
      assert fmt[i..e] == fmt[i..i + 1] + fmt[i + 1..e];
    }
  }

  lemma {:induction false} RenderText(fmt: string, i: nat, t: string, args: seq<Arg>, used: nat, ed: Editor)
    requires NulFree(fmt) && ed.Valid() && Here(fmt, i, t) && forall k :: 0 <= k < |t| ==> t[k] != '%'
    ensures Render(fmt, i, args, used, ed) == Before(t, Render(fmt, i + |t|, args, used, ed))
    decreases |t|
  {
    hide Render;
    if t == "" {
      BeforeNothing(Render(fmt, i, args, used, ed));
    } else {
      HereAt(fmt, i, t, 0);
      assert t == t[..1] + t[1..];
      HereSplit(fmt, i, t[..1], t[1..]);
      RenderChar(fmt, i, args, used, ed);
      RenderText(fmt, i + 1, t[1..], args, used, ed);
      BeforeBefore(t[..1], t[1..], Render(fmt, i + |t|, args, used, ed));
    }
  }

  lemma RenderConversion(fmt: string, i: nat, args: seq<Arg>, used: nat, ed: Editor, text: string, next: nat, used': nat)
    requires NulFree(fmt) && ed.Valid() && i < |fmt| && fmt[i] == '%'
    requires var d := Cut(fmt, i + 1);
             DirectiveText(d, args, used, ed) == Some(text) && DirectiveUsed(d, used) == used' && d.Next() == next
    ensures Render(fmt, i, args, used, ed) == Before(text, Render(fmt, next, args, used', ed))
  {
    hide Cut, DirectiveText, DirectiveUsed;
  }

  lemma PercentWrites(fmt: string, i: nat, args: seq<Arg>, used: nat, ed: Editor)
    requires Here(fmt, i, "%") && ed.Valid()
    ensures var d := Cut(fmt, i);
            DirectiveText(d, args, used, ed) == Some("%") && DirectiveUsed(d, used) == used && d.Next() == i + 1
  {
    hide Cut;
    CutPercent(fmt, i);
    var st := FlagStyle("");
    LaidPercent(st);
  }

  lemma LaidPercent(st: Style)
    requires st == FlagStyle("")
    ensures Laid(st, st.zero, "", 0, "%") == "%"
  {
  }

  lemma RenderPiece(fmt: string, i: nat, p: Piece, args: seq<Arg>, used: nat, ed: Editor)
    requires NulFree(fmt) && ed.Valid() && Here(fmt, i, PieceText(p)) && GoodPiece(p) && PieceSuits(p, args, used)
    ensures Render(fmt, i, args, used, ed)
            == Before(PieceMeaning(p, args, used), Render(fmt, i + |PieceText(p)|, args, PieceUsed(p, used), ed))
  {
    hide Cut, Render, DirectiveText, DirectiveUsed, Writes, G.SpecText, Good, Suits, Standard, Here, SpecUsed;
    match p
    case Text(s) => RenderText(fmt, i, s, args, used, ed);
    case Percent =>
      assert "%%" == "%" + "%";
      HereSplit(fmt, i, "%", "%");
      HereAt(fmt, i, "%", 0);
      PercentWrites(fmt, i + 1, args, used, ed);
      RenderConversion(fmt, i, args, used, ed, "%", i + 2, used);
    case Convert(c) =>
      HereSplit(fmt, i, "%", G.SpecText(c));
      HereAt(fmt, i, "%", 0);
      ConvertMeets(fmt, i + 1, c, args, used, ed);
      RenderConversion(fmt, i, args, used, ed, Writes(c, args, used), i + |PieceText(p)|, SpecUsed(c, used));
  }

  lemma AtEnd(fmt: string, i: nat, args: seq<Arg>, used: nat, ed: Editor)
    requires NulFree(fmt) && ed.Valid() && i >= |fmt|
    ensures Render(fmt, i, args, used, ed) == Some("")
  {
  }

  /** The rest of a format, piece by piece. */
  lemma {:induction false} RenderWritten(fmt: string, i: nat, ps: seq<Piece>, args: seq<Arg>, used: nat, ed: Editor)
    requires NulFree(fmt) && ed.Valid() && Here(fmt, i, Written(ps)) && i + |Written(ps)| == |fmt|
    requires (forall k :: 0 <= k < |ps| ==> GoodPiece(ps[k])) && AllSuit(ps, args, used)
    ensures Render(fmt, i, args, used, ed) == Some(Meaning(ps, args, used))
    decreases |ps|
  {
    hide Render, GoodPiece, PieceSuits, PieceMeaning, PieceUsed, PieceText, Here;
    if ps == [] {
      AtEnd(fmt, i, args, used, ed);
    } else {
      var text, rest := PieceText(ps[0]), ps[1..];
      HereSplit(fmt, i, text, Written(rest));
      RenderPiece(fmt, i, ps[0], args, used, ed);
      RenderWritten(fmt, i + |text|, rest, args, PieceUsed(ps[0], used), ed);
    }
  }

  // ----- and it is accepted

  lemma {:induction false} WrittenNulFree(ps: seq<Piece>)
    requires forall k :: 0 <= k < |ps| ==> GoodPiece(ps[k])
    ensures NulFree(Written(ps))
  {
    hide GoodPiece, PieceText;
    if ps != [] {
      WrittenNulFree(ps[1..]);
      PieceNulFree(ps[0]);
    }
  }

  lemma PieceNulFree(p: Piece)
    requires GoodPiece(p)
    ensures NulFree(PieceText(p))
  {
    match p
    case Text(s) =>
    case Percent =>
    case Convert(c) => SpecNulFree(c);
  }

  lemma SpecNulFree(c: Spec)
    requires Good(c)
    ensures NulFree("%" + G.SpecText(c))
  {
    hide I.Numeral, AmountText, PrecisionText, NamedText, ModifierText;
    AmountNulFree(c.width);
    if c.precision.Some? {
      AmountNulFree(c.precision.value);
    }
    PrecisionNulFree(c.precision);
    NamedNulFree(c.named);
    ModifierNulFree(c.modifier);
  }

  lemma AmountNulFree(a: Amount)
    ensures NulFree(AmountText(a))
  {
    hide I.Numeral;
    if a.Decimal? || a.StarAt? {
      NumeralDigits(a.n);
    }
  }

  lemma PrecisionNulFree(p: Option<Amount>)
    requires p.Some? ==> NulFree(AmountText(p.value))
    ensures NulFree(PrecisionText(p))
  {
    hide AmountText;
  }

  lemma NamedNulFree(n: Option<nat>)
    ensures NulFree(NamedText(n))
  {
    hide I.Numeral;
    if n.Some? {
      NumeralDigits(n.value);
    }
  }

  lemma ModifierNulFree(m: Modifier)
    ensures NulFree(ModifierText(m))
  {
  }

  /** A piece whose arguments are the next ones. */
  predicate InOrder(p: Piece) {
    p.Convert? ==> p.c.named.None? && !p.c.width.StarAt? && !PrecisionAmount(p.c).StarAt?
  }

  /** A directive that is well formed and names no argument. */
  predicate Plainly(d: Directive) {
    !Malformed(d) && !Positional(d) && Uses(d) == []
  }

  /** The conversions of a written format are, if its pieces are in order. */
  lemma {:induction false} DirectivesWritten(fmt: string, i: nat, ps: seq<Piece>, d: Directive)
    requires NulFree(fmt) && Here(fmt, i, Written(ps)) && i + |Written(ps)| == |fmt|
    requires (forall k :: 0 <= k < |ps| ==> GoodPiece(ps[k]) && InOrder(ps[k])) && d in Directives(fmt, i)
    ensures Plainly(d)
    decreases |ps|
  {
    hide Directives, GoodPiece, InOrder, PieceText, Here, Plainly;
    if ps == [] {
      NoDirectives(fmt, i);
    } else {
      var text, rest := PieceText(ps[0]), ps[1..];
      HereSplit(fmt, i, text, Written(rest));
      DirectivesPiece(fmt, i, ps[0], d);
      if d in Directives(fmt, i + |text|) {
        DirectivesWritten(fmt, i + |text|, rest, d);
      }
    }
  }

  lemma DirectivesPiece(fmt: string, i: nat, p: Piece, d: Directive)
    requires NulFree(fmt) && Here(fmt, i, PieceText(p)) && GoodPiece(p) && InOrder(p) && d in Directives(fmt, i)
    ensures Plainly(d) || d in Directives(fmt, i + |PieceText(p)|)
  {
    hide Directives, G.SpecText, Good, Here, Plainly, InOrder;
    match p
    case Text(s) => DirectivesText(fmt, i, s);
    case Percent => DirectivesPercent(fmt, i, d);
    case Convert(c) => DirectivesConvert(fmt, i, c, d);
  }

  lemma DirectivesPercent(fmt: string, i: nat, d: Directive)
    requires NulFree(fmt) && Here(fmt, i, "%%") && d in Directives(fmt, i)
    ensures Plainly(d) || d in Directives(fmt, i + 2)
  {
    hide Cut, Directives, Here, Plainly;
    assert "%%" == "%" + "%";
    HereSplit(fmt, i, "%", "%");
    HereAt(fmt, i, "%", 0);
    CutPercent(fmt, i + 1);
    PercentWell(Cut(fmt, i + 1));
    DirectivesMore(fmt, i);
  }

  lemma DirectivesConvert(fmt: string, i: nat, c: Spec, d: Directive)
    requires NulFree(fmt) && Here(fmt, i, "%" + G.SpecText(c)) && Good(c) && InOrder(Convert(c)) && d in Directives(fmt, i)
    ensures Plainly(d) || d in Directives(fmt, i + 1 + |G.SpecText(c)|)
  {
    hide Cut, Directives, G.SpecText, Good, Here, Plainly, InOrder;
    HereSplit(fmt, i, "%", G.SpecText(c));
    HereAt(fmt, i, "%", 0);
    CutWritten(fmt, i + 1, c);
    ConvertWell(Cut(fmt, i + 1), c);
    DirectivesMore(fmt, i);
  }

  lemma NoDirectives(fmt: string, i: nat)
    requires NulFree(fmt) && i >= |fmt|
    ensures Directives(fmt, i) == []
  {
  }

  lemma DirectivesMore(fmt: string, i: nat)
    requires NulFree(fmt) && i < |fmt| && fmt[i] == '%'
    ensures Directives(fmt, i) == [Cut(fmt, i + 1)] + Directives(fmt, Cut(fmt, i + 1).Next())
  {
  }

  lemma PercentWell(d: Directive)
    requires d.named.pos == None && !d.named.bad && d.spec == '%'
    requires d.width.field == Absent && !d.width.bad && d.precision.field == Absent && !d.precision.bad
    ensures Plainly(d)
  {
  }

  lemma ConvertWell(d: Directive, c: Spec)
    requires InOrder(Convert(c)) && d.named.pos == c.named && !d.named.bad && !d.width.bad && !d.precision.bad
    requires exists at :: d.width.field == FieldOf(c.width, at)
    requires exists at :: d.precision.field == PrecisionField(c.precision, at)
    ensures Plainly(d)
  {
  }

  lemma {:induction false} DirectivesText(fmt: string, i: nat, t: string)
    requires NulFree(fmt) && Here(fmt, i, t) && forall k :: 0 <= k < |t| ==> t[k] != '%'
    ensures Directives(fmt, i) == Directives(fmt, i + |t|)
    decreases |t|
  {
    hide Directives;
    if t != "" {
      HereAt(fmt, i, t, 0);
      assert t == t[..1] + t[1..];
      HereSplit(fmt, i, t[..1], t[1..]);
      DirectivesChar(fmt, i);
      DirectivesText(fmt, i + 1, t[1..]);
    }
  }

  lemma DirectivesChar(fmt: string, i: nat)
    requires NulFree(fmt) && i < |fmt| && fmt[i] != '%'
    ensures Directives(fmt, i) == Directives(fmt, i + 1)
  {
    hide Cut;
  }

  lemma {:induction false} NoUses(ds: seq<Directive>)
    requires forall d :: d in ds ==> Uses(d) == []
    ensures AllUses(ds) == []
  {
    hide Uses;
    if ds != [] {
      assert ds[0] in ds;
      NoUses(ds[1..]);
    }
  }

  /** A format whose conversions take the next arguments is accepted. */
  lemma WrittenAccepted(ps: seq<Piece>)
    requires forall k :: 0 <= k < |ps| ==> GoodPiece(ps[k]) && InOrder(ps[k])
    ensures NulFree(Written(ps)) && Accepted(Written(ps))
  {
    hide Directives, Malformed, Positional, Sequential, Uses, GoodPiece, InOrder;
    var fmt := Written(ps);
    WrittenNulFree(ps);
    var ds := Directives(fmt, 0);
    forall d | d in ds
      ensures Plainly(d)
    {
      assert Here(fmt, 0, fmt);
      DirectivesWritten(fmt, 0, ps, d);
    }
    NoUses(ds);
    hide AllUses;
    assert Accepts(fmt, []);
  }

  /** printf of a format of any texts and any of these conversions, with arguments that suit them, is what the
      standard says: the format is accepted, and renders to that. */
  lemma FormatsMeet(ps: seq<Piece>, args: seq<Arg>, ed: Editor)
    requires ed.Valid() && (forall k :: 0 <= k < |ps| ==> GoodPiece(ps[k])) && AllSuit(ps, args, 0)
    ensures NulFree(Written(ps)) && Render(Written(ps), 0, args, 0, ed) == Some(Meaning(ps, args, 0))
    ensures (forall k :: 0 <= k < |ps| ==> InOrder(ps[k])) ==> Accepted(Written(ps))
  {
    hide Render, Meaning, AllSuit, GoodPiece, InOrder, Accepted;
    WrittenNulFree(ps);
    assert Here(Written(ps), 0, Written(ps));
    RenderWritten(Written(ps), 0, ps, args, 0, ed);
    if forall k :: 0 <= k < |ps| ==> InOrder(ps[k]) {
      WrittenAccepted(ps);
    }
  }

  // ----- what the standard does not have

  /** The cells of a text's characters from one to another. */
  function CellsOf(ed: Editor, s: string, i: nat, e: nat): nat
    requires ed.Valid() && i <= |s|
    decreases |s| - i
  {
    if i >= e || i == |s| then 0 else ed.cells(s, i) + CellsOf(ed, s, i + ed.len(s, i), e)
  }

  /** %S takes characters while the precision has room for their cells, and no more. */
  lemma {:induction false} CellsFit(ed: Editor, s: string, i: nat, cells: nat, precision: Option<nat>)
    requires i <= |s| && ed.Valid() && (precision.Some? ==> cells <= precision.value)
    ensures var (e, n) := CellsEnd(ed, s, i, cells, precision);
            && n == cells + CellsOf(ed, s, i, e) && (precision.Some? ==> n <= precision.value)
            && (e == |s| || (precision.Some? && n + ed.cells(s, e) > precision.value))
    decreases |s| - i
  {
    if i < |s| && !(precision.Some? && cells + ed.cells(s, i) > precision.value) {
      CellsFit(ed, s, i + ed.len(s, i), cells + ed.cells(s, i), precision);
    }
  }

  /** And pads them to the width in cells. */
  lemma CellsPadded(st: Style, text: string, address: nat, ed: Editor)
    requires ed.Valid() && |text| < 0x2000_0000 && 0 < st.width < 0x2000_0000 && !st.zero
    requires CellsEnd(ed, text, 0, 0, st.precision).1 < 0x2000_0000
    ensures var (e, n) := CellsEnd(ed, text, 0, 0, st.precision);
            var padding := Repeat(' ', st.width - n);
            Textual(st, 'S', Arg.Text(text, address), ed)
            == Some(if st.left then text[..e] + padding else padding + text[..e])
  {
    hide Laid, CellsEnd, Repeat;
    var (e, n) := CellsEnd(ed, text, 0, 0, st.precision);
    TextLaid(st.(width := st.width + (e - n)), text[..e]);
  }

  lemma TextLaid(st: Style, text: string)
    requires |text| < 0x4000_0000 && -0x4000_0000 < st.width < 0x4000_0000 && !st.zero
    ensures var padding := Repeat(' ', st.width - |text|);
            Laid(st, false, "", 0, text) == if st.left then text + padding else padding + text
  {
    hide Wrap, Wrap32, Clip, Repeat;
    WrapSame(st.width - |text|);
    WrapSame(0);
    ClipWhole(text);
    NoZeros();
    var padding := Repeat(' ', st.width - |text|);
    assert "" + "" + text + padding == text + padding && padding + "" + "" + text == padding + text;
  }

  /** The number that an argument is as an address. */
  function AddressOf(a: Arg): int {
    if a.Null? then 0 else if a.Text? then a.address else if a.Address? then a.pointer else a.value
  }

  /** %p is the address after "0x", of no address too. */
  lemma PointerWrites(m: Modifier, a: Arg, ed: Editor)
    requires ed.Valid()
    ensures Converted(FlagStyle(""), 'p', m, a, ed) == Some("0x" + ed.pointer(I.Unsigned(AddressOf(a), I.LONGS)))
  {
    assert VaPointer(a) == I.Unsigned(AddressOf(a), I.LONGS);
    hide VaPointer;
    var st, text := FlagStyle(""), ed.pointer(VaPointer(a));
    hide Laid;
    var n := SignedNum(VaPointer(a), VaPointer(a));
    assert NumberOf('p', m, a) == Some(n) && n.magnitude == VaPointer(a);
    NoFlags();
    assert NumberDigits(st, 'p', n, ed) == text && Zeros(st, 'p', text) == 0;
    assert Lead(st, 'p', n) == "" && Prefix(st, 'p', n) == "0x";
    LaidPlainly(st, "0x", text);
  }

  lemma NoFlags()
    ensures FlagStyle("") == Style(false, false, false, false, false, 0, None)
  {
  }

  lemma LaidPlainly(st: Style, prefix: string, body: string)
    requires st == FlagStyle("") && |body| == 16 && |prefix| == 2
    ensures Laid(st, false, prefix, 0, body) == prefix + body
  {
    hide Repeat;
    NoZeros();
    NoneMissing(-18);
    assert Repeat(' ', 0) == "" by { NoSpaces(); }
  }

  lemma NoSpaces()
    ensures Repeat(' ', 0) == ""
  {
  }

  /** A specifier takes an argument exactly when it is read, but for a '*', which is a width. */
  lemma TakesReads(spec: char)
    ensures Takes(spec) <==> Reads(Alias(spec)) || spec == '*'
  {
  }

  /** Another specifier is written as it is. */
  lemma OtherWrites(st: Style, spec: char, m: Modifier, pos: Option<nat>, args: seq<Arg>, used: nat, ed: Editor)
    requires ed.Valid() && !Takes(spec) && spec != '%' && spec != '\0'
    ensures Format.SpecText(st, spec, m, pos, args, used, ed) == Some([spec])
  {
    TakesReads(spec);
  }
}
