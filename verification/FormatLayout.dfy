/** How printf writes one field: its padding, prefix, zeros and body (the end of the second pass's loop). */
module FormatLayout {
  import opened Wrappers
  import opened FormatCut
  import opened FormatField
  import opened FormatOutput

  /** What the writes of a field come to, str's first ind bytes before its zeros. */
  function Assembled(st: Style, zero: bool, str: string, ind: nat, zeros: nat): string
    requires ind <= |str|
  {
    var n := Wrap32(st.width - (|str| + zeros));
    var i := if zeros == 0 then 0 else ind;
    (if st.left then "" else Repeat(if zero then '0' else ' ', n))
    + str[..i] + Repeat('0', Wrap32(zeros)) + Clip(str[i..])
    + if st.left then Repeat(' ', n) else ""
  }

  /** The zeros of a number, and those that fill its width. */
  function Filled(st: Style, zero: bool, l: nat, zeros: nat): nat {
    var n := Wrap32(st.width - (l + zeros));
    if !st.left && zero && n > 0 then zeros + n else zeros
  }

  lemma WrapZero(x: int)
    ensures Wrap32(x - Wrap32(x)) == 0
  {
  }

  lemma ClipShort(s: string)
    requires |s| < TWO_31
    ensures Clip(s) == s
  {
  }

  lemma Join(a: string, b: string, c: string)
    ensures (a + b) + c == a + (b + c)
  {
  }

  /** A number's field is laid out as its prefix, zeros and digits. */
  lemma AssembledNumber(st: Style, zero: bool, prefix: string, zeros: nat, digits: string)
    requires |prefix| + |digits| < TWO_31
    ensures var str := prefix + digits;
            Assembled(st, zero, str, |prefix|, Filled(st, zero, |str|, zeros)) == Laid(st, zero, prefix, zeros, digits)
  {
    hide Wrap32, Clip, Repeat, Middle;
    var str := prefix + digits;
    var n := Wrap32(st.width - (|str| + zeros));
    ClipShort(digits);
    if !st.left && zero && n > 0 {
      FilledExactly(st, |str|, zeros, n);
      MiddleIs(prefix, digits, zeros + n);
      RepeatNone('0', 0);
    } else {
      MiddleIs(prefix, digits, zeros);
      if zero && !st.left {
        RepeatNone('0', n);
      }
    }
    AssembledAround(st, zero, str, |prefix|, Filled(st, zero, |str|, zeros));
  }

  /** Between the padding. */
  function Middle(str: string, ind: nat, zeros: nat): string
    requires ind <= |str|
  {
    var i := if zeros == 0 then 0 else ind;
    str[..i] + Repeat('0', Wrap32(zeros)) + Clip(str[i..])
  }

  lemma MiddleIs(prefix: string, digits: string, zeros: nat)
    requires |prefix| + |digits| < TWO_31
    ensures Middle(prefix + digits, |prefix|, zeros) == prefix + Repeat('0', Wrap32(zeros)) + digits
  {
    hide Clip;
    var str := prefix + digits;
    assert str[..|prefix|] == prefix && str[|prefix|..] == digits && str[..0] == "" && str[0..] == str;
    ClipShort(str);
    ClipShort(digits);
  }

  lemma AssembledAround(st: Style, zero: bool, str: string, ind: nat, zeros: nat)
    requires ind <= |str|
    ensures var n := Wrap32(st.width - (|str| + zeros));
            Assembled(st, zero, str, ind, zeros)
            == if st.left then Middle(str, ind, zeros) + Repeat(' ', n) else Repeat(if zero then '0' else ' ', n) + Middle(str, ind, zeros)
  {
    hide Wrap32, Clip, Repeat;
    var n := Wrap32(st.width - (|str| + zeros));
    var i := if zeros == 0 then 0 else ind;
    var a, b, c := str[..i], Repeat('0', Wrap32(zeros)), Clip(str[i..]);
    if st.left {
      assert "" + a + b + c + Repeat(' ', n) == (a + b + c) + Repeat(' ', n);
    } else {
      var p := Repeat(if zero then '0' else ' ', n);
      assert p + a + b + c + "" == p + (a + b + c);
    }
  }

  lemma RepeatNone(c: char, n: int)
    requires n <= 0
    ensures Repeat(c, n) == ""
  {
  }

  lemma FilledExactly(st: Style, l: nat, zeros: nat, n: nat)
    requires n == Wrap32(st.width - (l + zeros))
    ensures Wrap32(st.width - (l + (zeros + n))) == 0
  {
    WrapZero(st.width - (l + zeros));
    assert st.width - (l + (zeros + n)) == st.width - (l + zeros) - n;
  }

  /** A text's field is the text, padded. */
  lemma AssembledText(st: Style, zero: bool, text: string)
    ensures Assembled(st, zero, text, 0, 0) == Laid(st, zero, "", 0, text)
  {
    var n := Wrap32(st.width - |text|);
    assert Wrap32(if n > 0 then n else 0) == if n > 0 then n else 0;
    assert Repeat('0', Wrap32(0)) == "";
    assert text[..0] == "" && text[0..] == text;
    hide Wrap, Clip;
  }

  lemma WrapAtMost(x: nat)
    ensures Wrap32(x) <= x
  {
  }

  /** Padding on one side. */
  method EmitPadding(out: Output, c: char, n: int)
    requires out.Valid()
    modifies out, out.str
    ensures out.Valid() && out.text == old(out.text) + Repeat(c, n)
    ensures Outside(out.str[..], old(out.str[..]), out.at, out.strM)
  {
    if n > 0 {
      out.Fill(c, n);
    }
  }

  /** The prefix and the zeros after it, if there are zeros. */
  method EmitZeros(out: Output, str: string, ind: nat, zeros: nat)
    requires out.Valid() && ind <= |str| && ind < TWO_31
    modifies out, out.str
    ensures out.Valid() && out.text == old(out.text) + (str[..if zeros == 0 then 0 else ind] + Repeat('0', Wrap32(zeros)))
    ensures Outside(out.str[..], old(out.str[..]), out.at, out.strM)
  {
    if zeros == 0 {
      return;
    }
    var zn := Wrap32(ind);
    if zn > 0 {
      out.Copy(str, zn);
    }
    EmitPadding(out, '0', Wrap32(zeros));
  }

  method EmitBody(out: Output, body: string)
    requires out.Valid()
    modifies out, out.str
    ensures out.Valid() && out.text == old(out.text) + Clip(body)
    ensures Outside(out.str[..], old(out.str[..]), out.at, out.strM)
  {
    WrapAtMost(|body|);
    var sn := Wrap32(|body|);
    if sn > 0 {
      out.Copy(body, sn);
    }
  }

  method EmitField(out: Output, st: Style, zero: bool, str: string, ind: nat, zeros: nat)
    requires out.Valid() && ind <= |str| && ind < TWO_31
    modifies out, out.str
    ensures out.Valid() && out.text == old(out.text) + Assembled(st, zero, str, ind, zeros)
    ensures Outside(out.str[..], old(out.str[..]), out.at, out.strM)
  {
    hide Wrap, Repeat, Clip;
    ghost var t := out.text;
    var pn := Wrap32(st.width - (|str| + zeros));
    if !st.left {
      EmitPadding(out, if zero then '0' else ' ', pn);
    }
    EmitZeros(out, str, ind, zeros);
    var from := if zeros == 0 then 0 else ind;
    EmitBody(out, str[from..]);
    if st.left {
      EmitPadding(out, ' ', pn);
    }
    ghost var padding := if st.left then "" else Repeat(if zero then '0' else ' ', pn);
    assert out.text == t + Assembled(st, zero, str, ind, zeros);
  }
}
