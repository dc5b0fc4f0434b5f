/** printf's 'h': the number is narrowed after its sign is tested, so what is written is the standard's
    only for some arguments; which they are.
 */
module FormatShort {
  import opened Wrappers
  import opened FormatCut
  import opened FormatTypes
  import opened FormatNumber
  import opened FormatField
  import opened FormatStandard

  /** A field of a prefix and a number, padded. */
  function Padded(st: Style, prefix: string, number: string): string {
    var missing := st.width - (|prefix| + |number|);
    if st.left then prefix + number + Repeat(' ', missing)
    else if st.zero && st.precision.None? then prefix + Repeat('0', missing) + number
    else Repeat(' ', missing) + prefix + number
  }

  function NumberOfField(st: Style, spec: char, n: Num, ed: Editor): string {
    var digits := NumberDigits(st, spec, n, ed);
    Repeat('0', Zeros(st, spec, digits)) + digits
  }

  /** A number's field. */
  function FieldOf(st: Style, spec: char, n: Num, ed: Editor): string {
    Padded(st, Prefix(st, spec, n), NumberOfField(st, spec, n, ed))
  }

  /** In a field of the least width nothing is missing from a number that is empty. */
  predicate Shows(st: Style, spec: char, n: Num, ed: Editor) {
    st.width >= 0 || Prefix(st, spec, n) + NumberOfField(st, spec, n, ed) != ""
  }

  lemma NumericPadded(st: Style, spec: char, n: Num, ed: Editor)
    requires IsInteger(spec) && n.magnitude < TWO_64 && Ordinary(st)
    ensures Numeric(st, spec, n, ed) == if Shows(st, spec, n, ed) then FieldOf(Asked(st), spec, n, ed) else ""
  {
    hide Digits, Laid, Repeat, NumberDigits, Prefix, Zeros;
    DigitsShort(st, spec, n, ed);
    PrefixShort(st, spec, n);
    AskedParts(st, spec, n, ed);
    var prefix, digits := Prefix(st, spec, n), NumberDigits(st, spec, n, ed);
    var zeros := Zeros(st, spec, digits);
    ZerosFew(st, spec, digits);
    if st.width >= 0 {
      LaidShort(st, st.zero && st.precision.None?, prefix, zeros, digits);
    } else {
      LaidLeast(st, st.zero && st.precision.None?, prefix, zeros, digits);
      assert |prefix + (Repeat('0', zeros) + digits)| == |prefix| + |digits| + zeros;
    }
  }

  /** The width has no part in a number's characters. */
  lemma AskedParts(st: Style, spec: char, n: Num, ed: Editor)
    ensures Prefix(Asked(st), spec, n) == Prefix(st, spec, n)
    ensures NumberOfField(Asked(st), spec, n, ed) == NumberOfField(st, spec, n, ed)
  {
    hide Digits, Repeat;
  }

  /** The standard's field. */
  lemma IsoPadded(st: Style, spec: char, value: int, ed: Editor)
    requires IsInteger(spec) && Abs(value) < TWO_64 && (spec != 'd' ==> value >= 0)
    requires st.precision.Some? ==> st.precision.value <= MAX_WIDTH
    ensures IsoField(st, spec, value) == FieldOf(st, spec, SignedNum(value, value), ed)
    ensures IsoPrefix(st, spec, value) == Prefix(st, spec, SignedNum(value, value))
    ensures IsoDigits(st, spec, value) == NumberOfField(st, spec, SignedNum(value, value), ed)
  {
    hide Repeat, Prefix, IsoPrefix, IsoDigits, Zeros, NumberDigits;
    PrefixMeets(st, spec, value);
    DigitsMeet(st, spec, value, ed);
  }

  lemma PrefixShort(st: Style, spec: char, n: Num)
    requires IsInteger(spec)
    ensures |Prefix(st, spec, n)| <= 2
  {
  }

  lemma ZerosFew(st: Style, spec: char, digits: string)
    requires Ordinary(st) && |digits| <= 64
    ensures Zeros(st, spec, digits) <= MAX_WIDTH + 23
  {
  }

  // ----- when the two tests of a number come to the same

  /** A number that is not zero, narrowed to one that is. */
  predicate Vanishes(read: int, written: int) {
    read != 0 && written == 0
  }

  /** A sign is asked for, and the number's changes as it is narrowed. */
  predicate SignChanges(st: Style, read: int, written: int) {
    (st.plus || st.space) && (read >= 0) != (written >= 0)
  }

  /** The length of the number with its '-' and without a sign that is asked for. */
  function Bare(st: Style, written: int): nat {
    |IsoDigits(st, 'd', written)| + if written < 0 then 1 else 0
  }

  /** What is written is the standard's: nothing hangs on the test, or the space that it adds or leaves
      out is one of the padding's. */
  predicate Agrees(st: Style, spec: char, read: int, written: int) {
    match spec
    case 'd' =>
      && !(Vanishes(read, written) && st.precision == Some(0))
      && (SignChanges(st, read, written) ==>
            !st.plus && !st.left && !(st.zero && st.precision.None?) && st.width > Bare(st, written))
    case 'o' => !(Vanishes(read, written) && st.precision == Some(0) && !st.alternate)
    case 'u' => !(Vanishes(read, written) && st.precision == Some(0))
    case _ => !(Vanishes(read, written) && (st.precision == Some(0) || st.alternate))
  }

  // ----- telling two fields apart

  lemma RepeatHas(c: char, n: int, d: char)
    ensures d in Repeat(c, n) ==> d == c
  {
  }

  /** What is in a number is in its field, and nothing else but padding. */
  lemma PaddedHas(st: Style, prefix: string, number: string, c: char)
    ensures c in prefix || c in number ==> c in Padded(st, prefix, number)
    ensures c in Padded(st, prefix, number) ==> c in prefix || c in number || c == ' ' || (c == '0' && st.precision.None?)
  {
    var missing := st.width - (|prefix| + |number|);
    RepeatHas(' ', missing, c);
    RepeatHas('0', missing, c);
    hide Repeat;
  }

  lemma PaddedLength(st: Style, prefix: string, number: string)
    ensures |Padded(st, prefix, number)| == if st.width > |prefix| + |number| then st.width else |prefix| + |number|
  {
  }

  /** A space before a number is one of its padding's, if that has one. */
  lemma SpaceIsPadding(st: Style, prefix: string, number: string)
    requires !st.left && !(st.zero && st.precision.None?) && st.width > |prefix| + |number|
    ensures Padded(st, " " + prefix, number) == Padded(st, prefix, number)
  {
    var missing := st.width - (|prefix| + |number|);
    assert Repeat(' ', missing) == Repeat(' ', missing - 1) + " ";
  }

  /** And otherwise it is seen. */
  lemma SpaceIsSeen(st: Style, prefix: string, number: string)
    requires st.left || (st.zero && st.precision.None?) || st.width <= |prefix| + |number|
    requires |number| > 0 && number[0] != ' ' && (prefix == "" || prefix == "-")
    ensures Padded(st, " " + prefix, number) != Padded(st, prefix, number)
  {
    PaddedLength(st, prefix, number);
    PaddedLength(st, " " + prefix, number);
    if st.left || (st.zero && st.precision.None?) {
      assert Padded(st, " " + prefix, number)[0] == ' ';
      assert Padded(st, prefix, number)[0] != ' ';
    }
  }

  // ----- the numbers

  /** The characters of a number without a sign. */
  lemma NumberChars(st: Style, spec: char, n: Num, ed: Editor, c: char)
    requires IsInteger(spec)
    ensures c in NumberOfField(st, spec, n, ed) ==> IsDigitChar(c)
    ensures !NoDigits(st, n) ==> |NumberOfField(st, spec, n, ed)| > 0
  {
    hide Digits, Repeat;
    OnlyDigits(n.magnitude, BaseOf(spec), spec == 'X');
    RepeatHas('0', Zeros(st, spec, NumberDigits(st, spec, n, ed)), c);
  }

  /** A zero of which the digits are not left out has one. */
  lemma ZeroShows(st: Style, spec: char, sign: int, ed: Editor)
    requires IsInteger(spec) && !NoDigits(st, Num(sign, false, 0))
    ensures '0' in NumberOfField(st, spec, Num(sign, false, 0), ed)
  {
    hide Repeat;
    assert NumberDigits(st, spec, Num(sign, false, 0), ed) == "0";
  }

  lemma ZeroHidden(st: Style, spec: char, ed: Editor)
    requires IsInteger(spec) && st.precision == Some(0)
    ensures NumberOfField(st, spec, Num(0, false, 0), ed) == if spec == 'o' && st.alternate then "0" else ""
    ensures NumberOfField(st, spec, Num(1, false, 0), ed) == "0"
  {
  }

  lemma ReadZero(st: Style, spec: char, n: Num, n': Num, ed: Editor)
    requires NoDigits(st, n) == NoDigits(st, n') && n'.magnitude == n.magnitude
    ensures NumberOfField(st, spec, n', ed) == NumberOfField(st, spec, n, ed)
  {
  }

  lemma ZeroPrefix(st: Style, spec: char)
    requires IsInteger(spec) && spec != 'd'
    ensures Prefix(st, spec, Num(0, false, 0)) == ""
    ensures Prefix(st, spec, Num(1, false, 0)) == if st.alternate && (spec == 'x' || spec == 'X') then ['0', spec] else ""
  {
  }

  /** The "0x" of a zero that is tested before it is one. */
  lemma HexShows(st: Style, spec: char, ed: Editor)
    requires (spec == 'x' || spec == 'X') && st.alternate
    ensures FieldOf(st, spec, Num(1, false, 0), ed) != FieldOf(st, spec, Num(0, false, 0), ed)
  {
    hide NumberOfField, Padded, Prefix;
    var n, n' := Num(1, false, 0), Num(0, false, 0);
    ZeroPrefix(st, spec);
    PaddedHas(st, Prefix(st, spec, n), NumberOfField(st, spec, n, ed), spec);
    PaddedHas(st, "", NumberOfField(st, spec, n', ed), spec);
    NumberChars(st, spec, n', ed, spec);
  }

  /** 'u', 'o', 'x' and 'X'. */
  lemma UnsignedExact(st: Style, spec: char, read: nat, written: nat, ed: Editor)
    requires IsInteger(spec) && spec != 'd' && (read == 0 ==> written == 0)
    ensures FieldOf(st, spec, SignedNum(read, written), ed) == FieldOf(st, spec, SignedNum(written, written), ed)
            <==> Agrees(st, spec, read, written)
  {
    hide NumberOfField, Padded, Prefix;
    if Vanishes(read, written) {
      var n, n' := Num(1, false, 0), Num(0, false, 0);
      ZeroPrefix(st, spec);
      if st.alternate && (spec == 'x' || spec == 'X') {
        HexShows(st, spec, ed);
      } else if st.precision == Some(0) {
        ZeroHidden(st, spec, ed);
        PaddedHas(st, "", "0", '0');
        PaddedHas(st, "", "", '0');
      } else {
        ReadZero(st, spec, n, n', ed);
      }
    } else {
      UnsignedSame(read, written);
    }
  }

  /** A number that does not vanish is the same read or written. */
  lemma UnsignedSame(read: nat, written: nat)
    requires !Vanishes(read, written) && (read == 0 ==> written == 0)
    ensures SignedNum(read, written) == SignedNum(written, written)
  {
  }

  function Minus(written: int): string {
    if written < 0 then "-" else ""
  }

  function SignAsked(st: Style, sign: int): string {
    if (st.plus || st.space) && sign >= 0 then (if st.plus then "+" else " ") else ""
  }

  lemma SignedPrefix(st: Style, read: int, written: int)
    requires !(read == 0 && written != 0)
    ensures Prefix(st, 'd', SignedNum(read, written)) == SignAsked(st, read) + Minus(written)
  {
  }

  /** A zero that the precision of 0 hides only when it is tested so. */
  lemma SignedVanishes(st: Style, read: int, ed: Editor)
    requires read != 0 && st.precision == Some(0)
    ensures FieldOf(st, 'd', SignedNum(read, 0), ed) != FieldOf(st, 'd', SignedNum(0, 0), ed)
  {
    hide NumberOfField, Padded;
    var n, n' := SignedNum(read, 0), SignedNum(0, 0);
    ZeroShows(st, 'd', n.sign, ed);
    ZeroHidden(st, 'd', ed);
    PaddedHas(st, Prefix(st, 'd', n), NumberOfField(st, 'd', n, ed), '0');
    PaddedHas(st, Prefix(st, 'd', n'), "", '0');
  }

  /** The sign that is asked for, of a number that is not hidden. */
  lemma SignedShows(st: Style, number: string, minus: string)
    requires minus == "" || minus == "-"
    requires |number| > 0 && (forall c :: c in number ==> IsDigitChar(c)) && (st.plus || st.space)
    ensures Padded(st, (if st.plus then "+" else " ") + minus, number) == Padded(st, minus, number)
            <==> !st.plus && !st.left && !(st.zero && st.precision.None?) && st.width > |minus| + |number|
  {
    hide Padded;
    assert number[0] in number;
    if st.plus {
      PaddedHas(st, "+" + minus, number, '+');
      PaddedHas(st, minus, number, '+');
    } else if !st.left && !(st.zero && st.precision.None?) && st.width > |minus| + |number| {
      SpaceIsPadding(st, minus, number);
    } else {
      SpaceIsSeen(st, minus, number);
    }
  }

  lemma BareLength(st: Style, written: int, ed: Editor)
    ensures Bare(st, written) == |Minus(written)| + |NumberOfField(st, 'd', SignedNum(written, written), ed)|
  {
    hide Digits, Repeat;
    var n := SignedNum(written, written);
    var digits := NumberDigits(st, 'd', n, ed);
    IsoDigitsZeros(st, 'd', written, digits);
  }

  /** 'd'. */
  lemma SignedExact(st: Style, read: int, written: int, ed: Editor)
    requires read == 0 ==> written == 0
    ensures FieldOf(st, 'd', SignedNum(read, written), ed) == FieldOf(st, 'd', SignedNum(written, written), ed)
            <==> Agrees(st, 'd', read, written)
  {
    hide NumberOfField, Padded, Bare;
    if Vanishes(read, written) && st.precision == Some(0) {
      SignedVanishes(st, read, ed);
    } else {
      var n, n' := SignedNum(read, written), SignedNum(written, written);
      SignedPrefix(st, read, written);
      SignedPrefix(st, written, written);
      ReadZero(st, 'd', n, n', ed);
      if SignChanges(st, read, written) {
        var number := NumberOfField(st, 'd', n, ed);
        forall c | c in number
          ensures IsDigitChar(c)
        {
          NumberChars(st, 'd', n, ed, c);
        }
        NumberChars(st, 'd', n, ed, '0');
        BareLength(st, written, ed);
        SignedShows(st, number, Minus(written));
        assert "" + Minus(written) == Minus(written);
      }
    }
  }

  /** The value that the va_arg of an 'h' conversion reads, before it is narrowed. */
  function ReadOf(spec: char, a: Arg): int
    requires a.Integer?
  {
    if spec == 'd' then Wrap32(a.value) else a.value % TWO_32
  }

  lemma FieldExact(st: Style, spec: char, read: int, written: int, ed: Editor)
    requires IsInteger(spec) && (read == 0 ==> written == 0) && (spec != 'd' ==> read >= 0 && written >= 0)
    ensures FieldOf(st, spec, SignedNum(read, written), ed) == FieldOf(st, spec, SignedNum(written, written), ed)
            <==> Agrees(st, spec, read, written)
  {
    hide FieldOf, Agrees;
    if spec == 'd' {
      SignedExact(st, read, written, ed);
    } else {
      UnsignedExact(st, spec, read, written, ed);
    }
  }

  lemma AskedAgrees(st: Style, spec: char, read: int, written: int)
    requires st.width < 0 ==> st.left
    ensures Agrees(Asked(st), spec, read, written) == Agrees(st, spec, read, written)
  {
    hide Bare;
  }

  /** When the number as narrowed is empty, the tests of it as read agree only if that is empty too. */
  lemma EmptyAgrees(st: Style, spec: char, read: int, written: int, ed: Editor)
    requires IsInteger(spec) && (spec != 'd' ==> read >= 0 && written >= 0)
    requires NumberOfField(st, spec, SignedNum(written, written), ed) == ""
    ensures Agrees(st, spec, read, written) ==> read == written == 0
  {
    hide NumberOfField;
    NumberChars(st, spec, SignedNum(written, written), ed, '0');
    ZeroHidden(st, spec, ed);
  }

  /** A conversion with an 'h' writes what the standard says exactly when its tests of the number as read
      are as good as of the number as narrowed; and in a field of 2^31 that number is not empty. */
  lemma ShortExact(st: Style, spec: char, a: Arg, ed: Editor)
    requires ed.Valid() && IsInteger(spec) && a.Integer? && Ordinary(st)
    ensures var value := ValueOf(spec, Short, a);
            Converted(st, spec, Short, a, ed) == Some(IsoField(Asked(st), spec, value))
            <==> Agrees(st, spec, ReadOf(spec, a), value)
                 && (st.width >= 0 || IsoPrefix(st, spec, value) + IsoDigits(st, spec, value) != "")
  {
    hide Numeric, IsoField, Agrees, FieldOf, NumberOfField, Prefix, IsoPrefix, IsoDigits;
    var read, written := ReadOf(spec, a), ValueOf(spec, Short, a);
    var n, n' := SignedNum(read, written), SignedNum(written, written);
    ShortRead(spec, a);
    NumericPadded(st, spec, n, ed);
    IsoPadded(st, spec, written, ed);
    IsoPadded(Asked(st), spec, written, ed);
    FieldExact(Asked(st), spec, read, written, ed);
    AskedAgrees(st, spec, read, written);
    if st.width < 0 {
      if NumberOfField(st, spec, n', ed) == "" {
        EmptyAgrees(st, spec, read, written, ed);
      }
      FieldWide(st, spec, n', ed);
      if !Shows(st, spec, n, ed) {
        EmptyRead(st, spec, read, written, ed);
      }
    }
  }

  lemma FieldWide(st: Style, spec: char, n: Num, ed: Editor)
    requires st.width == -0x8000_0000
    ensures FieldOf(Asked(st), spec, n, ed) != ""
  {
    hide NumberOfField, Prefix;
    PaddedLength(Asked(st), Prefix(Asked(st), spec, n), NumberOfField(Asked(st), spec, n, ed));
  }

  /** A number that is read as nothing is narrowed to nothing. */
  lemma EmptyRead(st: Style, spec: char, read: int, written: int, ed: Editor)
    requires IsInteger(spec) && (read == 0 ==> written == 0)
    requires Prefix(st, spec, SignedNum(read, written)) + NumberOfField(st, spec, SignedNum(read, written), ed) == ""
    ensures read == written == 0
  {
    hide NumberOfField, Prefix;
    assert NumberOfField(st, spec, SignedNum(read, written), ed) == "";
    NumberChars(st, spec, SignedNum(read, written), ed, '0');
  }

  lemma ShortRead(spec: char, a: Arg)
    requires IsInteger(spec) && a.Integer?
    ensures NumberOf(spec, Short, a) == Some(SignedNum(ReadOf(spec, a), ValueOf(spec, Short, a)))
    ensures ReadOf(spec, a) == 0 ==> ValueOf(spec, Short, a) == 0
    ensures Abs(ValueOf(spec, Short, a)) < TWO_64
    ensures spec != 'd' ==> ReadOf(spec, a) >= 0 && ValueOf(spec, Short, a) >= 0
  {
    Narrow(Wrap32(a.value));
    hide Wrap16, Wrap32;
  }

  lemma Narrow(x: int)
    ensures -0x8000 <= Wrap16(x) < 0x8000 && (x == 0 ==> Wrap16(x) == 0)
  {
  }

  /** One it does not: %.0hd of 65536 is a zero with a precision of 0, and writes its digit. */
  lemma ShortDiffers(ed: Editor)
    requires ed.Valid()
    ensures var st := FlagStyle("").(precision := Some(0));
            Converted(st, 'd', Short, Integer(65536), ed) == Some("0") && IsoField(st, 'd', ValueOf('d', Short, Integer(65536))) == ""
  {
    var st := FlagStyle("").(precision := Some(0));
    assert Wrap32(65536) == 65536 && Wrap16(65536) == 0;
    assert NumberOf('d', Short, Integer(65536)) == Some(Num(1, false, 0));
    NumericPadded(st, 'd', Num(1, false, 0), ed);
    ZeroHidden(st, 'd', ed);
    assert Padded(st, "", "0") == "0";
  }
}
