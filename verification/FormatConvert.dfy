/** How printf makes one conversion: the number in a local buffer, with the place for its zeros, or the
    text and its length (the switch of the second pass).
 */
module FormatConvert {
  import opened Wrappers
  import opened FormatCut
  import opened FormatTypes
  import opened FormatNumber
  import opened FormatField
  import opened FormatLayout
  import opened FormatOutput

  const TMP_LEN: nat := 350

  // ----- numbers

  /** The va_arg of a number: the sign that is tested, and the 64 bits and the sign that are written. */
  method ReadNumber(spec: char, m: Modifier, a: Arg) returns (ok: bool, argSign: int, v: nat, isneg: bool)
    requires IsNumber(spec)
    ensures ok <==> NumberOf(spec, m, a).Some?
    ensures ok ==> v < TWO_64 && NumberOf(spec, m, a) == Some(Num(argSign, isneg, if isneg then Negated(v) else v))
  {
    if spec != 'p' && !a.Integer? {
      return false, 0, 0, false;
    }
    var read, written;
    if spec == 'p' {
      read := VaPointer(a);
      written := read;
    } else if spec == 'b' || spec == 'B' {
      read := VaUlong(a).value;
      written := read;
    } else if spec == 'd' {
      read := if m.Plain? || m.Short? then VaInt(a).value else VaLong(a).value;
      written := if m.Short? then Wrap16(read) else read;
    } else {
      read := if m.Plain? || m.Short? then VaUint(a).value else VaUlong(a).value;
      written := if m.Short? then read % 0x10000 else read;
    }
    argSign := Sign(read);
    v := written % TWO_64;
    isneg := written < 0;
    ok := true;
    assert 0 <= 2 * written + TWO_64 < 3 * TWO_64;
    Written64(written);
  }

  /** A number's 64 bits and its sign are the number. */
  lemma Written64(written: int)
    requires 0 <= 2 * written + TWO_64 < 3 * TWO_64
    ensures var v := written % TWO_64; v < TWO_64 && Abs(written) == if written < 0 then Negated(v) else v
  {
  }

  /** The sign, or the "0x" or "0b" of '#'. */
  method PutLead(tmp: array<char>, st: Style, spec: char, n: Num) returns (l: nat)
    requires tmp.Length == TMP_LEN
    modifies tmp
    ensures l <= 2 && tmp[..l] == Lead(st, spec, n)
  {
    l := 0;
    if spec == 'd' {
      if (st.plus || st.space) && n.sign >= 0 {
        tmp[0] := if st.plus then '+' else ' ';
        l := 1;
      }
    } else if st.alternate {
      if n.sign != 0 && (spec == 'b' || spec == 'B' || spec == 'x' || spec == 'X') {
        tmp[0], tmp[1] := '0', spec;
        l := 2;
      }
    }
  }

  /** The loop of %b, which fills its buffer from the end. */
  method TakeBits(b: array<char>, bin: nat) returns (l: nat)
    requires b.Length == 64 && bin < TWO_64
    modifies b
    ensures l == |Digits(bin, 2, false)| <= 64 && b[64 - l..] == Digits(bin, 2, false)
  {
    hide Rest, Last, Times, DigitChar, Power;
    ghost var all := Digits(bin, 2, false);
    At64Digits(bin);
    l := 0;
    var bn := bin;
    while true
      invariant l < |all| && all[..|all| - l] == Digits(bn, 2, false)
      invariant forall k :: 64 - l <= k < 64 ==> b[k] == all[k - 64 + |all|]
      decreases bn
    {
      Splits(bn, 2);
      l := l + 1;
      b[64 - l] := DigitChar(Last(bn, 2), false);
      assert all[..|all| - l + 1][|all| - l] == all[|all| - l];
      if Rest(bn, 2) == 0 {
        assert |all| == l;
        return;
      }
      assert all[..|all| - l] == all[..|all| - l + 1][..|all| - l];
      bn := Rest(bn, 2);
    }
  }

  /** What follows the lead. */
  function Body(spec: char, n: Num, ed: Editor): string {
    if spec == 'p' then "0x" + ed.pointer(n.magnitude)
    else (if n.negative then "-" else "") + Digits(n.magnitude, BaseOf(spec), spec == 'X')
  }

  method PutText(tmp: array<char>, at: nat, text: string)
    requires at + |text| <= tmp.Length
    modifies tmp
    ensures tmp[at..at + |text|] == text
    ensures forall k :: 0 <= k < at ==> tmp[k] == old(tmp[k])
  {
    forall k | 0 <= k < |text| {
      tmp[at + k] := text[k];
    }
  }

  method PutBody(tmp: array<char>, at: nat, spec: char, v: nat, isneg: bool, ed: Editor) returns (n: nat)
    requires tmp.Length == TMP_LEN && at <= 2 && ed.Valid()
    requires IsNumber(spec) && v < TWO_64 && (isneg ==> spec == 'd')
    modifies tmp
    ensures var num := Num(0, isneg, if isneg then Negated(v) else v);
            && n == |Body(spec, num, ed)| && at + n <= tmp.Length && tmp[at..at + n] == Body(spec, num, ed)
    ensures forall k :: 0 <= k < at ==> tmp[k] == old(tmp[k])
  {
    hide Digits, DigitChar, Times, Rest, Last;
    if spec == 'p' {
      n := 18;
      PutText(tmp, at, "0x" + ed.pointer(v));
    } else if spec == 'b' || spec == 'B' {
      var b := new char[64];
      n := TakeBits(b, v);
      PutText(tmp, at, b[64 - n..]);
    } else {
      n := FmtNum(tmp, at, v, BaseOf(spec), spec == 'X', isneg);
    }
  }

  /** Where a number's zeros go: after its sign or its prefix. */
  function ZerosAt(str: string, ind: nat): nat {
    var i := if ind < |str| && str[ind] == '-' then ind + 1 else ind;
    if i + 1 < |str| && str[i] == '0' && (str[i + 1] == 'x' || str[i + 1] == 'X') then i + 2 else i
  }

  lemma ZerosAfterPrefix(st: Style, spec: char, n: Num, ed: Editor)
    requires IsNumber(spec) && ed.Valid() && (n.negative ==> spec == 'd')
    ensures var lead := Lead(st, spec, n);
            var str := lead + if NoDigits(st, n) then "" else Body(spec, n, ed);
            && str == Prefix(st, spec, n) + NumberDigits(st, spec, n, ed)
            && (if NoDigits(st, n) then |lead| else ZerosAt(str, |lead|)) == |Prefix(st, spec, n)|
  {
    hide Digits, Lead, ZerosAt;
    var lead := Lead(st, spec, n);
    if !NoDigits(st, n) {
      var sign := if spec == 'p' then "0x" else if n.negative then "-" else "";
      var digits := NumberDigits(st, spec, n, ed);
      assert Body(spec, n, ed) == sign + digits;
      assert Prefix(st, spec, n) == lead + sign;
      assert (lead + sign) + digits == lead + (sign + digits);
      if spec != 'p' {
        OnlyDigits(n.magnitude, BaseOf(spec), spec == 'X');
      } else {
        assert lead == "" by { NoLead(st, n); }
      }
      ZerosAfter(lead, sign, digits);
    } else {
      assert lead + "" == lead;
    }
  }

  lemma NoLead(st: Style, n: Num)
    ensures Lead(st, 'p', n) == ""
  {
  }

  lemma ZerosAfter(lead: string, sign: string, digits: string)
    requires sign == "" || sign == "-" || sign == "0x"
    requires |digits| > 0 && (sign != "0x" ==> digits[0] != '-' && (digits[0] == '0' ==> digits == "0"))
    ensures ZerosAt(lead + (sign + digits), |lead|) == |lead + sign|
  {
    ZerosShift(lead, sign + digits);
    if sign == "" {
      assert sign + digits == digits;
    }
  }

  lemma ZerosShift(lead: string, rest: string)
    ensures ZerosAt(lead + rest, |lead|) == |lead| + ZerosAt(rest, 0)
  {
    var str := lead + rest;
    forall k | 0 <= k < |rest|
      ensures str[|lead| + k] == rest[k]
    {
    }
  }

  /** A number in its buffer, and where its zeros go. */
  method BuildNumber(st: Style, spec: char, m: Modifier, a: Arg, ed: Editor) returns (ok: bool, str: string, ind: nat)
    requires IsNumber(spec) && ed.Valid()
    ensures ok <==> NumberOf(spec, m, a).Some?
    ensures ok ==>
              var n := NumberOf(spec, m, a).value;
              && str == Prefix(st, spec, n) + NumberDigits(st, spec, n, ed) && |str| <= TMP_LEN
              && ind == |Prefix(st, spec, n)|
  {
    hide Digits, Body, Lead, Prefix, NumberDigits, NumberOf, ZerosAt;
    var argSign, v, isneg;
    ok, argSign, v, isneg := ReadNumber(spec, m, a);
    if !ok {
      return false, "", 0;
    }
    var n := Num(argSign, isneg, if isneg then Negated(v) else v);
    NegativeDecimal(spec, m, a);
    var tmp := new char[TMP_LEN];
    var l := PutLead(tmp, st, spec, n);
    ghost var lead := tmp[..l];
    ZerosAfterPrefix(st, spec, n, ed);
    ind := l;
    if !NoDigits(st, n) {
      BodySign(spec, n, ed);
      var more := PutBody(tmp, l, spec, v, isneg, ed);
      assert tmp[..l] == lead;
      assert tmp[..l + more] == tmp[..l] + tmp[l..l + more];
      l := l + more;
      ind := ZerosAt(tmp[..l], ind);
    }
    str := tmp[..l];
  }

  lemma NegativeDecimal(spec: char, m: Modifier, a: Arg)
    ensures NumberOf(spec, m, a).Some? && NumberOf(spec, m, a).value.negative ==> spec == 'd'
  {
  }

  /** The sign that is tested is not in the body. */
  lemma BodySign(spec: char, n: Num, ed: Editor)
    ensures Body(spec, n, ed) == Body(spec, Num(0, n.negative, n.magnitude), ed)
  {
  }

  method EmitNumber(out: Output, st: Style, spec: char, m: Modifier, a: Arg, ed: Editor) returns (ok: bool)
    requires IsNumber(spec) && ed.Valid() && out.Valid()
    modifies out, out.str
    ensures out.Valid() && Outside(out.str[..], old(out.str[..]), out.at, out.strM)
    ensures ok <==> NumberOf(spec, m, a).Some?
    ensures ok ==> out.text == old(out.text) + Numeric(st, spec, NumberOf(spec, m, a).value, ed)
  {
    hide NumberOf, Prefix, NumberDigits, Zeros, Filled, Assembled, Laid, Outside, Shows;
    var str, ind;
    ok, str, ind := BuildNumber(st, spec, m, a, ed);
    if !ok {
      Unchanged(out.str[..], out.at, out.strM);
      return;
    }
    ghost var n := NumberOf(spec, m, a).value;
    assert str[ind..] == NumberDigits(st, spec, n, ed) && str[..ind] == Prefix(st, spec, n);
    var zero := st.zero && st.precision.None?;
    var zeros := Zeros(st, spec, str[ind..]);
    AssembledNumber(st, zero, str[..ind], zeros, str[ind..]);
    assert str[..ind] + str[ind..] == str;
    EmitField(out, st, zero, str, ind, Filled(st, zero, |str|, zeros));
  }

  lemma Unchanged(buf: seq<char>, at: nat, strM: nat)
    ensures Outside(buf, buf, at, strM)
  {
  }

  // ----- texts

  /** The loop of %S over a text's characters. */
  method MeasureCells(st: Style, s: string, ed: Editor) returns (end: nat, cells: nat)
    requires ed.Valid()
    ensures (end, cells) == CellsEnd(ed, s, 0, 0, st.precision)
  {
    end, cells := 0, 0;
    while end < |s|
      invariant end <= |s| && CellsEnd(ed, s, end, cells, st.precision) == CellsEnd(ed, s, 0, 0, st.precision)
      decreases |s| - end
    {
      var cell := ed.cells(s, end);
      if st.precision.Some? && cells + cell > st.precision.value {
        return;
      }
      cells := cells + cell;
      end := end + ed.len(s, end);
    }
  }

  /** The text of %s or %S, and by how much its cells are fewer than its bytes. */
  method MeasureText(st: Style, spec: char, a: Arg, ed: Editor) returns (ok: bool, text: string, extra: int)
    requires ed.Valid()
    ensures ok <==> ShownOf(st, spec, a, ed).Some?
    ensures ok ==> ShownOf(st, spec, a, ed) == Some(Shown(text, extra))
  {
    text, extra := "", 0;
    if !a.Text? && !a.Null? {
      return false, text, extra;
    }
    ok := true;
    var s := if a.Null? then "[NULL]" else a.text;
    if spec == 's' {
      if a.Null? || st.precision.None? {
        text := s;
      } else if st.precision.value == 0 {
        text := "";
      } else {
        text := if |s| <= st.precision.value then s else s[..st.precision.value];
      }
    } else {
      var end, cells := MeasureCells(st, s, ed);
      text := s[..end];
      extra := end as int - cells;
    }
  }

  method EmitText(out: Output, st: Style, spec: char, a: Arg, ed: Editor) returns (ok: bool)
    requires ed.Valid() && out.Valid()
    modifies out, out.str
    ensures out.Valid() && Outside(out.str[..], old(out.str[..]), out.at, out.strM)
    ensures ok <==> Textual(st, spec, a, ed).Some?
    ensures ok ==> out.text == old(out.text) + Textual(st, spec, a, ed).value
  {
    hide ShownOf, Assembled, Laid, Outside, Shows;
    var text, extra;
    ok, text, extra := MeasureText(st, spec, a, ed);
    if !ok {
      Unchanged(out.str[..], out.at, out.strM);
      return;
    }
    var wide := st.(width := if st.width != 0 then st.width + extra else 0);
    AssembledText(wide, st.zero, text);
    EmitField(out, wide, st.zero, text, 0, 0);
  }

  // ----- conversions

  /** A conversion with an argument. */
  method EmitConverted(out: Output, st: Style, spec: char, m: Modifier, a: Arg, ed: Editor) returns (ok: bool)
    requires Reads(spec) && ed.Valid() && out.Valid()
    modifies out, out.str
    ensures out.Valid() && Outside(out.str[..], old(out.str[..]), out.at, out.strM)
    ensures ok <==> Converted(st, spec, m, a, ed).Some?
    ensures ok ==> out.text == old(out.text) + Converted(st, spec, m, a, ed).value
  {
    hide NumberOf, Numeric, Textual, Assembled, Laid, Outside, Shows;
    if spec == 'c' {
      if !a.Integer? {
        Unchanged(out.str[..], out.at, out.strM);
        return false;
      }
      var text := [(VaInt(a).value % 256) as char];
      ByteOf(a.value);
      AssembledText(st, st.zero, text);
      EmitField(out, st, st.zero, text, 0, 0);
      ok := true;
    } else if spec == 's' || spec == 'S' {
      ok := EmitText(out, st, spec, a, ed);
    } else {
      ok := EmitNumber(out, st, spec, m, a, ed);
    }
  }

  lemma SameByte(y: int, k: int)
    ensures (y + 256 * k) % 256 == y % 256
  {
  }

  /** The byte of an int is the byte of what it was read from. */
  lemma ByteOf(x: int)
    ensures Wrap32(x) % 256 == x % 256
  {
    var q := x / TWO_32;
    SameByte(Wrap32(x), 0x100_0000 * (if Wrap32(x) >= 0 then q else q + 1));
  }

  method EmitLiteral(out: Output, st: Style, spec: char)
    requires out.Valid()
    modifies out, out.str
    ensures out.Valid() && Outside(out.str[..], old(out.str[..]), out.at, out.strM)
    ensures out.text == old(out.text) + Literal(st, spec)
  {
    hide Assembled, Laid, Outside, Shows;
    if spec == '%' {
      AssembledText(st, st.zero, "%");
      EmitField(out, st, st.zero, "%", 0, 0);
    } else {
      var plain := st.(width := 0, left := true);
      var text := if spec == '\0' then "" else [spec];
      AssembledText(plain, false, text);
      LaidPlain(plain, text);
      EmitField(out, plain, false, text, 0, 0);
    }
  }

  lemma LaidPlain(st: Style, text: string)
    requires st.left && st.width == 0 && |text| <= 1
    ensures Laid(st, false, "", 0, text) == text
  {
  }
}
