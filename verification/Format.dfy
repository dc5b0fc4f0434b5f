/** printf: vim_snprintf's two passes over one format (vim_vsnprintf_typval of editor/format.go).

    What a format writes is said without a buffer or a list of arguments: each conversion's text, of the
    arguments at the places that the format names.  The second pass writes that, or as much of it as the
    buffer holds, though it goes back and forth in the list as it reads.
 */
module Format {
  import opened Wrappers
  import opened FormatCut
  import opened FormatTypes
  import opened FormatField
  import opened FormatArgs
  import opened FormatOutput
  import opened FormatConvert

  // ----- what a format writes

  /** The argument of a field, after `used` arguments. */
  function FieldIndex(f: Field, used: nat): nat {
    if f.Position? && f.arg > 0 then f.arg - 1 else used
  }

  function FieldUsed(f: Field, used: nat): nat {
    if f.Following? then used + 1 else used
  }

  function FieldInt(f: Field, args: seq<Arg>, used: nat): Option<int> {
    if !Argued(f) then Some(0)
    else
      match ArgAt(args, FieldIndex(f, used))
      case None => None
      case Some(a) => VaInt(a)
  }

  function SpecIndex(pos: Option<nat>, used: nat): nat {
    if pos.Some? && pos.value > 0 then pos.value - 1 else used
  }

  function SpecText(st: Style, spec: char, m: Modifier, pos: Option<nat>, args: seq<Arg>, used: nat, ed: Editor): Option<string>
    requires ed.Valid()
  {
    if Reads(Alias(spec)) then
      match ArgAt(args, SpecIndex(pos, used))
      case None => None
      case Some(a) => Converted(st, Alias(spec), AliasModifier(spec, m), a, ed)
    else Some(Literal(st, spec))
  }

  function SpecUsed(spec: char, pos: Option<nat>, used: nat): nat {
    if pos.None? && Reads(Alias(spec)) then used + 1 else used
  }

  /** What a conversion writes, or None: an argument that is missing or of another type. */
  function DirectiveText(d: Directive, args: seq<Arg>, used: nat, ed: Editor): Option<string>
    requires ed.Valid()
  {
    var used1 := FieldUsed(d.width.field, used);
    var used2 := FieldUsed(d.precision.field, used1);
    match FieldInt(d.width.field, args, used)
    case None => None
    case Some(w) =>
      match FieldInt(d.precision.field, args, used1)
      case None => None
      case Some(p) =>
        var st := PrecisionStyle(WidthStyle(FlagStyle(d.flags), d.width.field, w), d.precision.field, p);
        SpecText(st, d.spec, d.modifier, d.named.pos, args, used2, ed)
  }

  function DirectiveUsed(d: Directive, used: nat): nat {
    SpecUsed(d.spec, d.named.pos, FieldUsed(d.precision.field, FieldUsed(d.width.field, used)))
  }

  function Before(text: string, rest: Option<string>): Option<string> {
    match rest
    case None => None
    case Some(r) => Some(text + r)
  }

  /** What the format writes from i on, after `used` arguments. */
  function Render(fmt: string, i: nat, args: seq<Arg>, used: nat, ed: Editor): Option<string>
    requires NulFree(fmt) && ed.Valid()
    decreases |fmt| - i
  {
    if i >= |fmt| then Some("")
    else if fmt[i] != '%' then
      var e := TextEnd(fmt, i + 1);
      Before(fmt[i..e], Render(fmt, e, args, used, ed))
    else
      var d := Cut(fmt, i + 1);
      match DirectiveText(d, args, used, ed)
      case None => None
      case Some(t) => Before(t, Render(fmt, d.Next(), args, DirectiveUsed(d, used), ed))
  }

  // ----- where the second pass is

  /** Its reader, in a format of arguments in order, or of named ones. */
  ghost predicate Placed(rd: Reader, inOrder: bool, used: nat)
    reads rd
  {
    && rd.Even()
    && (inOrder ==> rd.argIdx == rd.argCur + 1 && rd.argCur == used)
    && (!inOrder ==> KnownTo(rd.fmt, rd.types, |rd.types|))
  }

  predicate FieldFits(types: Types, f: Field, inOrder: bool) {
    if inOrder then !f.Position? else !f.Following? && (f.Position? ==> 1 <= f.arg <= |types|)
  }

  predicate SpecFits(types: Types, spec: char, pos: Option<nat>, inOrder: bool) {
    if inOrder then pos.None?
    else (pos.None? ==> !Reads(Alias(spec))) && (pos.Some? && Takes(spec) ==> 1 <= pos.value <= |types|)
  }

  predicate Fits(types: Types, d: Directive, inOrder: bool) {
    FieldFits(types, d.width.field, inOrder) && FieldFits(types, d.precision.field, inOrder)
    && SpecFits(types, d.spec, d.named.pos, inOrder)
  }

  lemma ReadsTakes(spec: char)
    ensures Reads(Alias(spec)) ==> Takes(spec)
  {
  }

  /** In an accepted format every conversion takes its arguments in order, or every one names them. */
  lemma AcceptedFits(fmt: string, types: Types, d: Directive)
    requires NulFree(fmt) && Accepts(fmt, types) && d in Directives(fmt, 0)
    ensures Fits(types, d, !SomePositional(Directives(fmt, 0)))
    ensures KnownTo(fmt, types, |types|)
  {
    hide Collect, Directives, AllUses, TypeOf, OneArgument, Takes, Reads, NoneUnused, Malformed;
    OneEach(fmt, types);
    ReadsTakes(d.spec);
    forall u | u in Uses(d)
      ensures 1 <= u.arg <= |types|
    {
      NamedInside(fmt, types, d, u);
    }
    UsesNamed(d);
    hide Uses;
    var ds := Directives(fmt, 0);
    if !SomePositional(ds) {
      assert !Positional(d);
    } else {
      assert !Sequential(d);
    }
  }

  lemma UsesNamed(d: Directive)
    ensures d.width.field.Position? ==> Use(d.width.field.arg, d.width.field.star) in Uses(d)
    ensures d.precision.field.Position? ==> Use(d.precision.field.arg, d.precision.field.star) in Uses(d)
    ensures d.named.pos.Some? && Takes(d.spec) ==> Use(d.named.pos.value, d.TypeAt()) in Uses(d)
  {
  }

  // ----- the second pass

  method EmitNamed(fmt: string, p: nat) returns (pos: Option<nat>, next: nat)
    ensures pos == NamedAt(fmt, p).pos && next == NamedAt(fmt, p).next
  {
    pos, next := None, p;
    var ptype := SkipDigits(fmt, p);
    if At(fmt, ptype) == '$' {
      var uj;
      uj, next := GetUnsignedInt(fmt, p);
      pos := Some(uj);
      next := next + 1;
    }
  }

  method EmitFlags(fmt: string, p: nat) returns (st: Style, next: nat)
    ensures next == FlagsEnd(fmt, p) && st == FlagStyle(Flags(fmt, p))
  {
    st, next := FlagStyle(""), p;
    while IsFlag(At(fmt, next))
      invariant p <= next && (p <= |fmt| ==> next <= |fmt|) && FlagsEnd(fmt, next) == FlagsEnd(fmt, p)
      invariant st == FlagStyle(if p <= |fmt| then fmt[p..next] else "")
      decreases |fmt| - next
    {
      ghost var seen := fmt[p..next];
      assert fmt[p..next + 1] == seen + [fmt[next]];
      match fmt[next] {
        case '0' => st := st.(zero := true);
        case '-' => st := st.(left := true);
        case '+' => st := st.(plus := true);
        case ' ' => st := st.(space := true);
        case '#' => st := st.(alternate := true);
        case _ =>
      }
      next := next + 1;
    }
  }

  /** The argument of a '*', and where the field ends. */
  method ReadStar(fmt: string, p: nat, rd: Reader, ghost inOrder: bool, ghost used: nat)
    returns (j: Option<int>, next: nat)
    requires At(fmt, p) == '*' && Placed(rd, inOrder, used) && FieldFits(rd.types, Star(fmt, p).field, inOrder)
    modifies rd`i, rd`argIdx, rd`argCur
    ensures var f := Star(fmt, p).field;
            && j == FieldInt(f, rd.args, used) && next == Star(fmt, p).next
            && (j.Some? ==> Placed(rd, inOrder, FieldUsed(f, used)))
  {
    hide TypeOf, OneArgument, Wrap32;
    next := p + 1;
    if IsDigit(At(fmt, next)) {
      var uj;
      uj, next := GetUnsignedInt(fmt, next);
      rd.argIdx := uj;
      next := next + 1;
    }
    var a := rd.Read();
    j := if a.Some? then VaInt(a.value) else None;
  }

  /** The width. */
  method EmitWidth(fmt: string, p: nat, rd: Reader, st: Style, ghost inOrder: bool, ghost used: nat)
    returns (ok: bool, st': Style, next: nat)
    requires Placed(rd, inOrder, used) && FieldFits(rd.types, Width(fmt, p).field, inOrder)
    modifies rd`i, rd`argIdx, rd`argCur
    ensures var f := Width(fmt, p).field;
            && (ok <==> FieldInt(f, rd.args, used).Some?)
            && (ok ==> st' == WidthStyle(st, f, FieldInt(f, rd.args, used).value) && next == Width(fmt, p).next)
            && (ok ==> Placed(rd, inOrder, FieldUsed(f, used)))
  {
    hide Placed, WithWidth, VaInt;
    ok, st', next := true, st, p;
    if At(fmt, p) == '*' {
      var j;
      j, next := ReadStar(fmt, p, rd, inOrder, used);
      if j.None? {
        return false, st', next;
      }
      st' := WithWidth(st, j.value);
    } else if IsDigit(At(fmt, p)) {
      var uj;
      uj, next := GetUnsignedInt(fmt, p);
      st' := st.(width := uj);
    }
  }

  /** The precision. */
  method EmitPrecision(fmt: string, p: nat, rd: Reader, st: Style, ghost inOrder: bool, ghost used: nat)
    returns (ok: bool, st': Style, next: nat)
    requires Placed(rd, inOrder, used) && FieldFits(rd.types, Precision(fmt, p).field, inOrder)
    modifies rd`i, rd`argIdx, rd`argCur
    ensures var f := Precision(fmt, p).field;
            && (ok <==> FieldInt(f, rd.args, used).Some?)
            && (ok ==> st' == PrecisionStyle(st, f, FieldInt(f, rd.args, used).value) && next == Precision(fmt, p).next)
            && (ok ==> Placed(rd, inOrder, FieldUsed(f, used)))
  {
    hide Placed, WithPrecision, VaInt;
    ok, st', next := true, st, p;
    if At(fmt, p) == '.' {
      next := p + 1;
      st' := st.(precision := Some(0));
      if IsDigit(At(fmt, next)) {
        var uj;
        uj, next := GetUnsignedInt(fmt, next);
        st' := st.(precision := Some(uj));
      } else if At(fmt, next) == '*' {
        var j;
        j, next := ReadStar(fmt, next, rd, inOrder, used);
        if j.None? {
          return false, st', next;
        }
        st' := WithPrecision(st, j.value);
      }
    }
  }

  /** The specifier, and the argument it converts. */
  method EmitSpec(spec: char, m: Modifier, pos: Option<nat>, rd: Reader, st: Style, out: Output, ed: Editor,
                  ghost inOrder: bool, ghost used: nat)
    returns (ok: bool)
    requires ed.Valid() && out.Valid() && Placed(rd, inOrder, used) && SpecFits(rd.types, spec, pos, inOrder)
    requires pos.Some? ==> Takes(spec)
    modifies rd`i, rd`argIdx, rd`argCur, out, out.str
    ensures out.Valid() && Outside(out.str[..], old(out.str[..]), out.at, out.strM)
    ensures var t := SpecText(st, spec, m, pos, rd.args, used, ed);
            && (ok <==> t.Some?)
            && (ok ==> out.text == old(out.text) + t.value && Placed(rd, inOrder, SpecUsed(spec, pos, used)))
  {
    hide Converted, Literal, Outside, Shows, TypeOf, OneArgument, Takes, Reads;
    if pos.Some? {
      rd.argIdx := pos.value;
    }
    if Reads(Alias(spec)) {
      var a := rd.Read();
      if a.None? {
        Unchanged(out.str[..], out.at, out.strM);
        return false;
      }
      ok := EmitConverted(out, st, Alias(spec), AliasModifier(spec, m), a.value, ed);
    } else {
      EmitLiteral(out, st, spec);
      ok := true;
    }
  }

  /** A conversion, p past its '%'. */
  method EmitDirective(fmt: string, p: nat, rd: Reader, out: Output, ed: Editor, ghost inOrder: bool, ghost used: nat)
    returns (ok: bool, next: nat)
    requires ed.Valid() && out.Valid() && Placed(rd, inOrder, used)
    requires Fits(rd.types, Cut(fmt, p), inOrder) && !Malformed(Cut(fmt, p))
    modifies rd`i, rd`argIdx, rd`argCur, out, out.str
    ensures out.Valid() && Outside(out.str[..], old(out.str[..]), out.at, out.strM)
    ensures var d := Cut(fmt, p);
            var t := DirectiveText(d, rd.args, used, ed);
            && (ok <==> t.Some?)
            && (ok ==> out.text == old(out.text) + t.value && next == d.Next() && Placed(rd, inOrder, DirectiveUsed(d, used)))
  {
    hide Outside, Shows, Placed, FieldFits, SpecFits, FieldInt, FieldUsed, SpecText, SpecUsed, Takes, WidthStyle, PrecisionStyle;
    hide NamedAt, Width, Precision, ModifierAt, FlagsEnd, Flags, FlagStyle;
    ghost var d := Cut(fmt, p);
    var pos, st;
    pos, next := EmitNamed(fmt, p);
    st, next := EmitFlags(fmt, next);
    ok, st, next := EmitWidth(fmt, next, rd, st, inOrder, used);
    if !ok {
      Unchanged(out.str[..], out.at, out.strM);
      return;
    }
    ok, st, next := EmitPrecision(fmt, next, rd, st, inOrder, FieldUsed(d.width.field, used));
    if !ok {
      Unchanged(out.str[..], out.at, out.strM);
      return;
    }
    var m := ModifierAt(fmt, next);
    next := SkipModifier(fmt, next);
    var spec := At(fmt, next);
    ok := EmitSpec(spec, m, pos, rd, st, out, ed, inOrder, FieldUsed(d.precision.field, FieldUsed(d.width.field, used)));
    if spec != '\0' {
      next := next + 1;
    }
  }

  lemma OutsideTwice(a: seq<char>, b: seq<char>, c: seq<char>, at: nat, strM: nat)
    requires Outside(b, a, at, strM) && Outside(c, b, at, strM)
    ensures Outside(c, a, at, strM)
  {
  }

  lemma BeforeBefore(a: string, b: string, rest: Option<string>)
    ensures Before(a, Before(b, rest)) == Before(a + b, rest)
  {
    if rest.Some? {
      assert a + (b + rest.value) == (a + b) + rest.value;
    }
  }

  /** The pass's loop over an accepted format. */
  method Emit(fmt: string, rd: Reader, out: Output, ed: Editor) returns (ok: bool)
    requires NulFree(fmt) && ed.Valid() && Accepts(fmt, rd.types) && rd.fmt == fmt
    requires out.Valid() && out.text == "" && rd.i == 0 && rd.argIdx == 1 && rd.argCur == 0
    modifies rd, out, out.str
    ensures out.Valid() && Outside(out.str[..], old(out.str[..]), out.at, out.strM)
    ensures ok <==> Render(fmt, 0, rd.args, 0, ed).Some?
    ensures ok ==> Render(fmt, 0, rd.args, 0, ed) == Some(out.text)
  {
    hide Accepts, Cut, Placed, Fits, Malformed, Outside, Shows, DirectiveText, DirectiveUsed, SomePositional;
    ghost var inOrder := !SomePositional(Directives(fmt, 0));
    ghost var all := Render(fmt, 0, rd.args, 0, ed);
    ghost var done: seq<Directive>, used: nat := [], 0;
    ghost var was := out.str[..];
    var p := 0;
    StartPlaced(fmt, rd, inOrder);
    Unchanged(was, out.at, out.strM);
    assert Before(out.text, all) == all by { BeforeNothing(all); }
    while At(fmt, p) != '\0'
      invariant out.Valid() && Outside(out.str[..], was, out.at, out.strM)
      invariant Placed(rd, inOrder, used)
      invariant done + Directives(fmt, p) == Directives(fmt, 0)
      invariant all == Before(out.text, Render(fmt, p, rd.args, used, ed))
      decreases |fmt| - p
    {
      ghost var text, buf := out.text, out.str[..];
      if fmt[p] != '%' {
        var q := SkipText(fmt, p + 1);
        BeforeBefore(text, fmt[p..q], Render(fmt, q, rd.args, used, ed));
        out.Copy(fmt[p..q], q - p);
        assert fmt[p..q][..q - p] == fmt[p..q];
        OutsideTwice(was, buf, out.str[..], out.at, out.strM);
        p := q;
      } else {
        ghost var d := Cut(fmt, p + 1);
        NextLater(fmt, p + 1);
        DirectivesStep(fmt, p, done);
        assert d in Directives(fmt, 0);
        AcceptedFits(fmt, rd.types, d);
        AcceptedWell(fmt, rd.types, d);
        var next;
        ok, next := EmitDirective(fmt, p + 1, rd, out, ed, inOrder, used);
        OutsideTwice(was, buf, out.str[..], out.at, out.strM);
        if !ok {
          return;
        }
        BeforeBefore(text, DirectiveText(d, rd.args, used, ed).value,
                     Render(fmt, d.Next(), rd.args, DirectiveUsed(d, used), ed));
        p, used, done := next, DirectiveUsed(d, used), done + [d];
      }
    }
    assert out.text + "" == out.text;
    ok := true;
  }

  lemma BeforeNothing(rest: Option<string>)
    ensures Before("", rest) == rest
  {
    if rest.Some? {
      assert "" + rest.value == rest.value;
    }
  }

  lemma AcceptedWell(fmt: string, types: Types, d: Directive)
    requires NulFree(fmt) && Accepts(fmt, types) && d in Directives(fmt, 0)
    ensures !Malformed(d)
  {
    hide Malformed, Collect, Directives;
  }

  lemma StartPlaced(fmt: string, rd: Reader, inOrder: bool)
    requires NulFree(fmt) && Accepts(fmt, rd.types) && rd.fmt == fmt
    requires rd.i == 0 && rd.argIdx == 1 && rd.argCur == 0
    ensures Placed(rd, inOrder, 0)
  {
    hide TypeOf, OneArgument, Collect, Directives;
    OneEach(fmt, rd.types);
  }

  /** vim_snprintf.  A format that is refused writes nothing and is 0.  Otherwise the buffer's strM bytes
      begin with as much of what the format writes as leaves room for a NUL, whatever strM is; the result
      is its whole length, in 32 bits; and no byte outside is written.  It panics just when an argument is
      missing or of another type. */
  method VimSnprintf(str: array<char>, at: nat, strM: nat, fmt: string, args: seq<Arg>, ed: Editor)
    returns (panicked: bool, l: int)
    requires at + strM <= str.Length && NulFree(fmt) && ed.Valid()
    modifies str
    ensures Outside(str[..], old(str[..]), at, strM)
    ensures !Accepted(fmt) ==> !panicked && l == 0 && str[..] == old(str[..])
    ensures Accepted(fmt) ==> (panicked <==> Render(fmt, 0, args, 0, ed).None?)
    ensures Accepted(fmt) && !panicked ==>
              var text := Render(fmt, 0, args, 0, ed).value;
              && l == Wrap32(|text|)
              && (strM > 0 ==> var k := Min(|text|, strM - 1); str[at..at + k] == text[..k] && str[at + k] == '\0')
  {
    hide Accepted, Accepts, Render, Outside, Shows, Wrap32;
    ghost var was := str[..];
    Unchanged(was, at, strM);
    var ok, types := ParseFmtTypes(fmt);
    if !ok {
      return false, 0;
    }
    var rd := new Reader(fmt, types, args);
    var out := new Output(str, at, strM);
    ok := Emit(fmt, rd, out, ed);
    if !ok {
      return true, 0;
    }
    ghost var buf := str[..];
    out.Finish();
    OutsideTwice(was, buf, str[..], at, strM);
    l := Wrap32(out.strL);
    panicked := false;
  }
}
