/** printf's first pass: which argument each conversion of a format uses, and of what type
    (parse_fmt_types, adjust_types and format_typeof of editor/format.go).

    An argument's type is where the format says it: a pointer to its modifier and specifier, or to a '*'.
 */
module FormatTypes {
  import opened Wrappers
  import opened FormatCut

  datatype Type =
    | Unknown | Int | LongInt | LongLongInt | UnsignedInt | UnsignedLongInt | UnsignedLongLongInt
    | Pointer | Percent | Char | String

  function SignedType(m: Modifier): Type {
    match m
    case Plain => Int
    case Short => Int
    case Long => LongInt
    case LongLong => LongLongInt
  }

  function UnsignedType(m: Modifier): Type {
    match m
    case Plain => UnsignedInt
    case Short => UnsignedInt
    case Long => UnsignedLongInt
    case LongLong => UnsignedLongLongInt
  }

  /** The specifiers that are short for others: 'i', 'D', 'U', 'O'. */
  function Alias(spec: char): char {
    match spec
    case 'i' => 'd'
    case 'D' => 'd'
    case 'U' => 'u'
    case 'O' => 'o'
    case _ => spec
  }

  function AliasModifier(spec: char, m: Modifier): Modifier {
    if spec == 'D' || spec == 'U' || spec == 'O' then Long else m
  }

  function SpecType(spec: char, m: Modifier): Type {
    var m' := AliasModifier(spec, m);
    match Alias(spec)
    case '*' => Int
    case '%' => Percent
    case 'c' => Char
    case 's' => String
    case 'S' => String
    case 'p' => Pointer
    case 'b' => UnsignedLongLongInt
    case 'B' => UnsignedLongLongInt
    case 'd' => SignedType(m')
    case 'u' => UnsignedType(m')
    case 'o' => UnsignedType(m')
    case 'x' => UnsignedType(m')
    case 'X' => UnsignedType(m')
    case _ => Unknown
  }

  /** format_typeof. */
  function TypeOf(fmt: string, at: nat): Type {
    var m := ModifierAt(fmt, at);
    SpecType(At(fmt, at + ModifierSize(m)), m)
  }

  type Types = seq<Option<nat>>

  function Grown(types: Types, n: nat): Types {
    if n <= |types| then types else types + seq(n - |types|, i => None)
  }

  /** One argument used twice: as a width or precision and as an int, or as one type both times. */
  predicate Compatible(fmt: string, before: nat, now: nat) {
    if At(fmt, before) == '*' || At(fmt, now) == '*' then
      var pt := if At(fmt, now) == '*' then before else now;
      At(fmt, pt) == '*' || At(fmt, pt) == 'd' || At(fmt, pt) == 'i'
    else TypeOf(fmt, now) == TypeOf(fmt, before)
  }

  /** A conversion's use of argument arg. */
  datatype Use = Use(arg: nat, at: nat)

  function Adjusted(fmt: string, types: Types, use: Use): Option<Types> {
    if use.arg == 0 then None
    else
      var t := Grown(types, use.arg);
      if t[use.arg - 1].Some? && !Compatible(fmt, t[use.arg - 1].value, use.at) then None
      else Some(t[use.arg - 1 := Some(use.at)])
  }

  function Collect(fmt: string, types: Types, uses: seq<Use>): Option<Types>
    decreases |uses|
  {
    if uses == [] then Some(types)
    else
      match Adjusted(fmt, types, uses[0])
      case None => None
      case Some(t) => Collect(fmt, t, uses[1..])
  }

  // ----- what a format may be

  /** The specifiers for which the first pass takes an argument. */
  predicate Takes(spec: char) {
    spec in {'i', '*', 'd', 'u', 'o', 'D', 'U', 'O', 'x', 'X', 'b', 'B', 'c', 's', 'S', 'p'}
  }

  function FieldUse(f: Field): seq<Use> {
    if f.Position? then [Use(f.arg, f.star)] else []
  }

  function SpecUse(d: Directive): seq<Use> {
    if d.named.pos.Some? && Takes(d.spec) then [Use(d.named.pos.value, d.TypeAt())] else []
  }

  /** The arguments that a conversion names, in order. */
  function Uses(d: Directive): seq<Use> {
    FieldUse(d.width.field) + FieldUse(d.precision.field) + SpecUse(d)
  }

  function AllUses(ds: seq<Directive>): seq<Use> {
    if ds == [] then [] else Uses(ds[0]) + AllUses(ds[1..])
  }

  predicate Positional(d: Directive) {
    d.named.pos.Some? || d.width.field.Position? || d.precision.field.Position?
  }

  predicate Sequential(d: Directive) {
    d.width.field.Following? || d.precision.field.Following? || (d.named.pos.None? && Takes(d.spec))
  }

  predicate Malformed(d: Directive) {
    d.named.bad || d.width.bad || d.precision.bad || (d.named.pos.Some? && !Takes(d.spec))
  }

  ghost predicate WellFormed(ds: seq<Directive>) {
    forall d :: d in ds ==> !Malformed(d)
  }

  ghost predicate SomePositional(ds: seq<Directive>) {
    exists d :: d in ds && Positional(d)
  }

  ghost predicate SomeSequential(ds: seq<Directive>) {
    exists d :: d in ds && Sequential(d)
  }

  predicate NoneUnused(types: Types) {
    forall k :: 0 <= k < |types| ==> types[k].Some?
  }

  /** A format whose conversions are well formed, name all their arguments or none, use each they name
      as one type, and leave none unused before the last. */
  ghost predicate Accepts(fmt: string, types: Types)
    requires NulFree(fmt)
  {
    var ds := Directives(fmt, 0);
    && WellFormed(ds)
    && !(SomePositional(ds) && SomeSequential(ds))
    && Collect(fmt, [], AllUses(ds)) == Some(types)
    && NoneUnused(types)
  }

  ghost predicate Accepted(fmt: string)
    requires NulFree(fmt)
  {
    exists types :: Accepts(fmt, types)
  }

  // ----- lemmas about the fold

  lemma {:induction false} CollectJoin(fmt: string, types: Types, a: seq<Use>, b: seq<Use>)
    ensures Collect(fmt, types, a + b) ==
            match Collect(fmt, types, a) case None => None case Some(t) => Collect(fmt, t, b)
    decreases |a|
  {
    if a == [] {
      assert a + b == b;
    } else {
      assert (a + b)[1..] == a[1..] + b;
      match Adjusted(fmt, types, a[0])
      case None =>
      case Some(t) => CollectJoin(fmt, t, a[1..], b);
    }
  }

  lemma CollectOne(fmt: string, types: Types, use: Use)
    ensures Collect(fmt, types, [use]) == Adjusted(fmt, types, use)
  {
    match Adjusted(fmt, types, use)
    case None =>
    case Some(t) => assert [use][1..] == [] && Collect(fmt, t, []) == Some(t);
  }

  lemma {:induction false} AllUsesJoin(a: seq<Directive>, b: seq<Directive>)
    ensures AllUses(a + b) == AllUses(a) + AllUses(b)
  {
    hide Uses;
    if a == [] {
      assert a + b == b;
    } else {
      assert (a + b)[1..] == a[1..] + b;
      AllUsesJoin(a[1..], b);
    }
  }

  // ----- the pass

  /** adjust_types. */
  method AdjustTypes(fmt: string, types: Types, arg: nat, at: nat) returns (ok: bool, types': Types)
    ensures ok <==> Adjusted(fmt, types, Use(arg, at)).Some?
    ensures ok ==> Adjusted(fmt, types, Use(arg, at)) == Some(types')
  {
    types' := types;
    if arg == 0 {
      return false, types';
    }
    if |types| < arg {
      types' := types' + seq(arg - |types|, i => None);
    }
    if types'[arg - 1].Some? {
      var before := types'[arg - 1].value;
      if At(fmt, before) == '*' || At(fmt, at) == '*' {
        var pt := at;
        if At(fmt, pt) == '*' {
          pt := before;
        }
        if At(fmt, pt) != '*' && At(fmt, pt) != 'd' && At(fmt, pt) != 'i' {
          return false, types';
        }
      } else if TypeOf(fmt, at) != TypeOf(fmt, before) {
        return false, types';
      }
    }
    types' := types'[arg - 1 := Some(at)];
    ok := true;
  }

  /** What the pass has seen: a named argument, one that is not, and the types. */
  datatype Seen = Seen(anyPos: bool, anyArg: bool, types: Types)
  {
    /** CHECK_POS_ARG. */
    predicate Mixed() {
      anyPos && anyArg
    }
  }

  /** What the pass has seen after a width or a precision, if the format may say it so. */
  ghost predicate FieldSeen(fmt: string, seen: Seen, part: Part, seen': Seen) {
    && !part.bad
    && seen'.anyPos == (seen.anyPos || part.field.Position?)
    && seen'.anyArg == (seen.anyArg || part.field.Following?)
    && (part.field.Position? || part.field.Following? ==> !seen'.Mixed())
    && Collect(fmt, seen.types, FieldUse(part.field)) == Some(seen'.types)
  }

  ghost predicate FieldFails(fmt: string, seen: Seen, part: Part) {
    || part.bad
    || ((seen.anyPos || part.field.Position?) && (seen.anyArg || part.field.Following?))
    || Collect(fmt, seen.types, FieldUse(part.field)).None?
  }

  /** A width, or a precision after its '.'. */
  method ParseField(fmt: string, p: nat, seen: Seen) returns (ok: bool, next: nat, seen': Seen)
    ensures ok ==> FieldSeen(fmt, seen, Width(fmt, p), seen') && next == Width(fmt, p).next
    ensures !ok ==> FieldFails(fmt, seen, Width(fmt, p))
  {
    next, seen' := p, seen;
    if At(fmt, p) == '*' {
      next := p + 1;
      if IsDigit(At(fmt, next)) {
        var uj;
        uj, next := GetUnsignedInt(fmt, next);
        if At(fmt, next) != '$' {
          return false, next, seen';
        }
        next := next + 1;
        seen' := seen'.(anyPos := true);
        if seen'.Mixed() {
          return false, next, seen';
        }
        CollectOne(fmt, seen.types, Use(uj, p));
        var types;
        ok, types := AdjustTypes(fmt, seen'.types, uj, p);
        seen' := seen'.(types := types);
        return;
      } else {
        seen' := seen'.(anyArg := true);
        if seen'.Mixed() {
          return false, next, seen';
        }
      }
    } else if IsDigit(At(fmt, p)) {
      var uj;
      uj, next := GetUnsignedInt(fmt, p);
      if At(fmt, next) == '$' {
        return false, next, seen';
      }
    }
    ok := true;
  }

  method ParsePrecision(fmt: string, p: nat, seen: Seen) returns (ok: bool, next: nat, seen': Seen)
    ensures ok ==> FieldSeen(fmt, seen, Precision(fmt, p), seen') && next == Precision(fmt, p).next
    ensures !ok ==> FieldFails(fmt, seen, Precision(fmt, p))
  {
    if At(fmt, p) == '.' {
      ok, next, seen' := ParseField(fmt, p + 1, seen);
    } else {
      ok, next, seen' := true, p, seen;
    }
  }

  method ParseNamed(fmt: string, p: nat, seen: Seen) returns (ok: bool, pos: Option<nat>, next: nat, seen': Seen)
    ensures var named := NamedAt(fmt, p);
            && (ok ==> !named.bad && pos == named.pos && next == named.next && (pos.Some? ==> !seen'.Mixed()))
            && (ok ==> seen' == seen.(anyPos := seen.anyPos || pos.Some?))
            && (!ok ==> named.bad || (named.pos.Some? && seen.anyArg))
  {
    pos, next, seen' := None, p, seen;
    var ptype := SkipDigits(fmt, p);
    if At(fmt, ptype) == '$' {
      if At(fmt, p) == '0' {
        return false, pos, next, seen';
      }
      var uj;
      uj, next := GetUnsignedInt(fmt, p);
      pos := Some(uj);
      seen' := seen'.(anyPos := true);
      if seen'.Mixed() {
        return false, pos, next, seen';
      }
      next := next + 1;
    }
    ok := true;
  }

  method SkipFlags(fmt: string, i: nat) returns (r: nat)
    ensures r == FlagsEnd(fmt, i)
  {
    r := i;
    while IsFlag(At(fmt, r))
      invariant FlagsEnd(fmt, r) == FlagsEnd(fmt, i)
      decreases |fmt| - r
    {
      r := r + 1;
    }
  }

  method SkipModifier(fmt: string, p: nat) returns (next: nat)
    ensures next == p + ModifierSize(ModifierAt(fmt, p))
  {
    next := p;
    if At(fmt, p) == 'h' || At(fmt, p) == 'l' {
      next := p + 1;
      if At(fmt, p) == 'l' && At(fmt, next) == 'l' {
        next := next + 1;
      }
    }
  }

  /** The specifier: an argument it names, or the next. */
  method ParseSpec(fmt: string, spec: char, pos: Option<nat>, at: nat, seen: Seen) returns (ok: bool, seen': Seen)
    ensures var uses := if pos.Some? && Takes(spec) then [Use(pos.value, at)] else [];
            && (ok ==> (pos.Some? ==> Takes(spec)) && seen'.anyPos == seen.anyPos)
            && (ok ==> seen'.anyArg == (seen.anyArg || (pos.None? && Takes(spec))))
            && (ok ==> pos.None? && Takes(spec) ==> !seen'.Mixed())
            && (ok ==> Collect(fmt, seen.types, uses) == Some(seen'.types))
            && (!ok ==> || (pos.Some? && !Takes(spec)) || (pos.None? && Takes(spec) && seen.anyPos)
                        || Collect(fmt, seen.types, uses).None?)
  {
    seen' := seen;
    if Takes(spec) {
      if pos.Some? {
        CollectOne(fmt, seen.types, Use(pos.value, at));
        var types;
        ok, types := AdjustTypes(fmt, seen.types, pos.value, at);
        seen' := seen'.(types := types);
        return;
      } else {
        seen' := seen'.(anyArg := true);
        if seen'.Mixed() {
          return false, seen';
        }
      }
    } else if pos.Some? {
      return false, seen';
    }
    ok := true;
  }

  ghost predicate DirectiveSeen(fmt: string, seen: Seen, d: Directive, seen': Seen) {
    && !Malformed(d)
    && seen'.anyPos == (seen.anyPos || Positional(d))
    && seen'.anyArg == (seen.anyArg || Sequential(d))
    && (Positional(d) || Sequential(d) ==> !seen'.Mixed())
    && Collect(fmt, seen.types, Uses(d)) == Some(seen'.types)
  }

  ghost predicate DirectiveFails(fmt: string, seen: Seen, d: Directive) {
    || Malformed(d)
    || ((seen.anyPos || Positional(d)) && (seen.anyArg || Sequential(d)))
    || Collect(fmt, seen.types, Uses(d)).None?
  }

  lemma UsesJoin(fmt: string, types: Types, d: Directive)
    ensures Collect(fmt, types, Uses(d)) ==
            match Collect(fmt, types, FieldUse(d.width.field))
            case None => None
            case Some(t) =>
              (match Collect(fmt, t, FieldUse(d.precision.field))
               case None => None
               case Some(t') => Collect(fmt, t', SpecUse(d)))
  {
    hide FieldUse, SpecUse;
    CollectJoin(fmt, types, FieldUse(d.width.field) + FieldUse(d.precision.field), SpecUse(d));
    CollectJoin(fmt, types, FieldUse(d.width.field), FieldUse(d.precision.field));
  }

  /** A conversion, p past its '%'. */
  method ParseDirective(fmt: string, p: nat, seen: Seen) returns (ok: bool, next: nat, seen': Seen)
    requires !seen.Mixed()
    ensures ok ==> DirectiveSeen(fmt, seen, Cut(fmt, p), seen') && next == Cut(fmt, p).Next()
    ensures !ok ==> DirectiveFails(fmt, seen, Cut(fmt, p))
  {
    hide NamedAt, Width, Precision, ModifierAt, FlagsEnd, Flags, Collect, Takes, ModifierSize;
    ghost var d := Cut(fmt, p);
    UsesJoin(fmt, seen.types, d);
    var pos;
    ok, pos, next, seen' := ParseNamed(fmt, p, seen);
    if !ok {
      return;
    }
    next := SkipFlags(fmt, next);
    ok, next, seen' := ParseField(fmt, next, seen');
    if !ok {
      return;
    }
    ok, next, seen' := ParsePrecision(fmt, next, seen');
    if !ok {
      return;
    }
    if pos.Some? && seen'.Mixed() {
      return false, next, seen';
    }
    var at := next;
    next := SkipModifier(fmt, next);
    var spec := At(fmt, next);
    ok, seen' := ParseSpec(fmt, spec, pos, at, seen');
    if spec != '\0' {
      next := next + 1;
    }
  }

  // ----- the whole format

  /** What the pass knows of the conversions it has cut. */
  ghost predicate SeenAll(fmt: string, done: seq<Directive>, seen: Seen) {
    && WellFormed(done)
    && seen.anyPos == SomePositional(done)
    && seen.anyArg == SomeSequential(done)
    && !seen.Mixed()
    && Collect(fmt, [], AllUses(done)) == Some(seen.types)
  }

  lemma AllUsesOne(d: Directive)
    ensures AllUses([d]) == Uses(d)
  {
    assert [d][1..] == [];
    assert AllUses([d][1..]) == [];
  }

  lemma SeenNext(fmt: string, done: seq<Directive>, seen: Seen, d: Directive, seen': Seen)
    requires SeenAll(fmt, done, seen) && DirectiveSeen(fmt, seen, d, seen')
    ensures SeenAll(fmt, done + [d], seen')
  {
    hide Collect, Malformed, Positional, Sequential, Uses;
    AllUsesJoin(done, [d]);
    AllUsesOne(d);
    CollectJoin(fmt, [], AllUses(done), Uses(d));
    SomeJoin(done, d);
  }

  lemma SomeJoin(done: seq<Directive>, d: Directive)
    ensures SomePositional(done + [d]) == (SomePositional(done) || Positional(d))
    ensures SomeSequential(done + [d]) == (SomeSequential(done) || Sequential(d))
  {
    hide Positional, Sequential;
    assert d in done + [d];
    forall x | x in done
      ensures x in done + [d]
    {
    }
  }

  /** A conversion that the pass refuses makes the format one it does not accept. */
  lemma FailsAll(fmt: string, done: seq<Directive>, seen: Seen, d: Directive, rest: seq<Directive>)
    requires NulFree(fmt) && Directives(fmt, 0) == done + [d] + rest
    requires SeenAll(fmt, done, seen) && DirectiveFails(fmt, seen, d)
    ensures !Accepted(fmt)
  {
    hide Collect, Malformed, Positional, Sequential, Uses;
    var ds := Directives(fmt, 0);
    AllUsesJoin(done + [d], rest);
    AllUsesJoin(done, [d]);
    AllUsesOne(d);
    CollectJoin(fmt, [], AllUses(done) + Uses(d), AllUses(rest));
    CollectJoin(fmt, [], AllUses(done), Uses(d));
    assert d in ds;
    forall x | x in done
      ensures x in ds
    {
    }
  }

  lemma NextLater(fmt: string, i: nat)
    ensures Cut(fmt, i).Next() >= i
  {
  }

  lemma DirectivesStep(fmt: string, p: nat, done: seq<Directive>)
    requires NulFree(fmt) && p < |fmt| && fmt[p] == '%'
    ensures done + Directives(fmt, p) == done + [Cut(fmt, p + 1)] + Directives(fmt, Cut(fmt, p + 1).Next())
  {
  }

  /** parse_fmt_types: the format is refused exactly when it is not one to accept. */
  method ParseFmtTypes(fmt: string) returns (ok: bool, types: Types)
    requires NulFree(fmt)
    ensures ok <==> Accepted(fmt)
    ensures ok ==> Accepts(fmt, types)
    ensures !ok ==> types == []
  {
    hide Cut, Collect, Malformed, Positional, Sequential, Uses, SeenAll, DirectiveSeen, DirectiveFails;
    var p := 0;
    var seen := Seen(false, false, []);
    ghost var done: seq<Directive> := [];
    NothingSeen(fmt);
    while At(fmt, p) != '\0'
      invariant done + Directives(fmt, p) == Directives(fmt, 0)
      invariant SeenAll(fmt, done, seen)
      decreases |fmt| - p
    {
      if fmt[p] != '%' {
        p := SkipText(fmt, p + 1);
      } else {
        ghost var d := Cut(fmt, p + 1);
        NextLater(fmt, p + 1);
        DirectivesStep(fmt, p, done);
        NotMixed(fmt, done, seen);
        var good, next, seen' := ParseDirective(fmt, p + 1, seen);
        if !good {
          FailsAll(fmt, done, seen, d, Directives(fmt, d.Next()));
          return false, [];
        }
        SeenNext(fmt, done, seen, d, seen');
        p, seen, done := next, seen', done + [d];
      }
    }
    assert done == Directives(fmt, 0);
    types := seen.types;
    ok := AllUsed(types);
    SeenAccepts(fmt, done, seen);
    if !ok {
      types := [];
    }
  }

  lemma NothingSeen(fmt: string)
    ensures SeenAll(fmt, [], Seen(false, false, []))
  {
  }

  lemma NotMixed(fmt: string, done: seq<Directive>, seen: Seen)
    requires SeenAll(fmt, done, seen)
    ensures !seen.Mixed()
  {
  }

  lemma SeenAccepts(fmt: string, done: seq<Directive>, seen: Seen)
    requires NulFree(fmt) && done == Directives(fmt, 0) && SeenAll(fmt, done, seen)
    ensures NoneUnused(seen.types) <==> Accepted(fmt)
    ensures NoneUnused(seen.types) ==> Accepts(fmt, seen.types)
  {
    hide Collect, Malformed, Positional, Sequential, Uses;
    if NoneUnused(seen.types) {
      assert Accepts(fmt, seen.types);
    }
  }

  method AllUsed(types: Types) returns (ok: bool)
    ensures ok <==> NoneUnused(types)
  {
    for i := 0 to |types|
      invariant forall k :: 0 <= k < i ==> types[k].Some?
    {
      if types[i].None? {
        return false;
      }
    }
    ok := true;
  }

  // ----- what is one type

  /** An argument as C has it: an integer of a rank, or another thing. */
  datatype Kind = Whole(signed: bool, rank: nat) | Character | Str | Pointing | PercentSign | Other

  function Rank(m: Modifier): nat {
    match m
    case Long => 1
    case LongLong => 2
    case _ => 0
  }

  function KindOf(spec: char, m: Modifier): Kind {
    if spec == 'd' || spec == 'i' then Whole(true, Rank(m))
    else if spec == '*' then Whole(true, 0)
    else if spec == 'D' then Whole(true, 1)
    else if spec == 'u' || spec == 'o' || spec == 'x' || spec == 'X' then Whole(false, Rank(m))
    else if spec == 'U' || spec == 'O' then Whole(false, 1)
    else if spec == 'b' || spec == 'B' then Whole(false, 2)
    else if spec == 'c' then Character
    else if spec == 's' || spec == 'S' then Str
    else if spec == 'p' then Pointing
    else if spec == '%' then PercentSign
    else Other
  }

  /** Two conversions are of one type exactly when their arguments are of one kind. */
  lemma KindsTell(spec: char, m: Modifier, spec': char, m': Modifier)
    ensures SpecType(spec, m) == SpecType(spec', m') <==> KindOf(spec, m) == KindOf(spec', m')
  {
    KindIs(spec, m);
    KindIs(spec', m');
    hide SpecType, KindOf;
  }

  function TypeFor(k: Kind): Type {
    match k
    case Whole(signed, rank) =>
      if signed then (if rank == 0 then Int else if rank == 1 then LongInt else LongLongInt)
      else if rank == 0 then UnsignedInt else if rank == 1 then UnsignedLongInt else UnsignedLongLongInt
    case Character => Char
    case Str => String
    case Pointing => Pointer
    case PercentSign => Percent
    case Other => Unknown
  }

  lemma KindIs(spec: char, m: Modifier)
    ensures SpecType(spec, m) == TypeFor(KindOf(spec, m))
    ensures KindOf(spec, m).Whole? ==> KindOf(spec, m).rank <= 2
  {
  }

  /** The uses of one argument are all of one type. */
  predicate OneType(fmt: string, uses: seq<Use>) {
    forall u, v :: u in uses && v in uses && u.arg == v.arg ==> TypeOf(fmt, u.at) == TypeOf(fmt, v.at)
  }

  predicate NoStars(fmt: string, uses: seq<Use>) {
    forall u :: u in uses ==> u.arg > 0 && At(fmt, u.at) != '*'
  }

  /** The types collected are those of the uses before. */
  predicate OfUses(fmt: string, types: Types, uses: seq<Use>) {
    && (forall k :: 0 <= k < |types| && types[k].Some? ==> Use(k + 1, types[k].value) in uses)
    && (forall u :: u in uses && u.arg > 0 ==> u.arg <= |types| && types[u.arg - 1].Some?)
  }

  lemma AdjustedOf(fmt: string, types: Types, before: seq<Use>, use: Use)
    requires OfUses(fmt, types, before) && OneType(fmt, before) && NoStars(fmt, before) && use.arg > 0 && At(fmt, use.at) != '*'
    ensures var t := Adjusted(fmt, types, use);
            && (t.Some? <==> OneType(fmt, before + [use]))
            && (t.Some? ==> OfUses(fmt, t.value, before + [use]))
  {
    hide TypeOf, OneType, OfUses;
    var grown := Grown(types, use.arg);
    AdjustedGrown(fmt, types, before, use);
    if grown[use.arg - 1].Some? {
      var last := Use(use.arg, grown[use.arg - 1].value);
      assert last in before && At(fmt, last.at) != '*';
      assert Compatible(fmt, last.at, use.at) <==> TypeOf(fmt, use.at) == TypeOf(fmt, last.at);
      OneMore(fmt, before, use, last);
    } else {
      FirstOf(fmt, types, before, use);
    }
  }

  lemma AdjustedGrown(fmt: string, types: Types, before: seq<Use>, use: Use)
    requires OfUses(fmt, types, before) && use.arg > 0
    ensures var grown := Grown(types, use.arg);
            && use.arg <= |grown| && OfUses(fmt, grown[use.arg - 1 := Some(use.at)], before + [use])
            && (grown[use.arg - 1].Some? ==> Use(use.arg, grown[use.arg - 1].value) in before)
  {
    var grown := Grown(types, use.arg);
    var t := grown[use.arg - 1 := Some(use.at)];
    forall k | 0 <= k < |t| && t[k].Some?
      ensures Use(k + 1, t[k].value) in before + [use]
    {
      if k != use.arg - 1 {
        assert types[k] == t[k];
      }
    }
  }

  /** One more use of an argument is of its type exactly when it is of the last's. */
  lemma OneMore(fmt: string, before: seq<Use>, use: Use, last: Use)
    requires OneType(fmt, before) && last in before && last.arg == use.arg
    ensures OneType(fmt, before + [use]) <==> TypeOf(fmt, use.at) == TypeOf(fmt, last.at)
  {
    hide TypeOf;
    var all := before + [use];
    assert use in all && last in all;
  }

  lemma FirstOf(fmt: string, types: Types, before: seq<Use>, use: Use)
    requires OfUses(fmt, types, before) && OneType(fmt, before) && use.arg > 0 && Grown(types, use.arg)[use.arg - 1].None?
    ensures OneType(fmt, before + [use])
  {
    hide TypeOf;
    assert forall u :: u in before ==> u.arg != use.arg;
  }

  /** Of uses without a '*' the types are collected exactly when each argument's are all of one type. */
  lemma {:induction false} CollectExact(fmt: string, uses: seq<Use>)
    requires NoStars(fmt, uses)
    ensures Collect(fmt, [], uses).Some? <==> OneType(fmt, uses)
    ensures Collect(fmt, [], uses).Some? ==> OfUses(fmt, Collect(fmt, [], uses).value, uses)
  {
    hide TypeOf, Adjusted, OfUses;
    if uses == [] {
      NothingOf(fmt);
    } else {
      var last := |uses| - 1;
      var before, use := uses[..last], uses[last];
      assert uses == before + [use];
      CollectExact(fmt, before);
      CollectJoin(fmt, [], before, [use]);
      if Collect(fmt, [], before).Some? {
        var types := Collect(fmt, [], before).value;
        CollectOne(fmt, types, use);
        AdjustedOf(fmt, types, before, use);
      } else {
        var u, v :| u in before && v in before && u.arg == v.arg && TypeOf(fmt, u.at) != TypeOf(fmt, v.at);
        assert u in uses && v in uses;
      }
    }
  }

  lemma NothingOf(fmt: string)
    ensures OfUses(fmt, [], []) && OneType(fmt, [])
  {
  }

  // ----- what an accepted format's types are

  /** A type that is one argument. */
  predicate OneArgument(t: Type) {
    !t.Unknown? && !t.Percent?
  }

  predicate Readable(fmt: string, types: Types) {
    forall k :: 0 <= k < |types| && types[k].Some? ==> OneArgument(TypeOf(fmt, types[k].value))
  }

  lemma {:induction false} CollectReadable(fmt: string, types: Types, uses: seq<Use>, t: Types)
    requires Collect(fmt, types, uses) == Some(t) && Readable(fmt, types)
    requires forall u :: u in uses ==> OneArgument(TypeOf(fmt, u.at))
    ensures Readable(fmt, t)
    decreases |uses|
  {
    hide TypeOf, OneArgument;
    if uses != [] {
      assert uses[0] in uses;
      CollectReadable(fmt, Adjusted(fmt, types, uses[0]).value, uses[1..], t);
    }
  }

  lemma StarReadable(fmt: string, i: nat)
    requires At(fmt, i) == '*'
    ensures OneArgument(TypeOf(fmt, i))
  {
  }

  lemma TakesReadable(spec: char, m: Modifier)
    requires Takes(spec)
    ensures OneArgument(SpecType(spec, m))
  {
  }

  lemma WidthStar(fmt: string, i: nat)
    ensures Width(fmt, i).field.Position? ==> At(fmt, Width(fmt, i).field.star) == '*'
    ensures Precision(fmt, i).field.Position? ==> At(fmt, Precision(fmt, i).field.star) == '*'
  {
  }

  lemma UsesReadable(fmt: string, i: nat, u: Use)
    requires u in Uses(Cut(fmt, i))
    ensures OneArgument(TypeOf(fmt, u.at))
  {
    hide Width, Precision, NamedAt, FlagsEnd, Takes, SpecType, OneArgument;
    var d := Cut(fmt, i);
    WidthStar(fmt, FlagsEnd(fmt, d.named.next));
    WidthStar(fmt, d.width.next);
    if u in SpecUse(d) {
      TakesReadable(d.spec, d.modifier);
    } else {
      StarReadable(fmt, u.at);
    }
  }

  lemma {:induction false} AllReadable(fmt: string, i: nat, u: Use)
    requires NulFree(fmt) && u in AllUses(Directives(fmt, i))
    ensures OneArgument(TypeOf(fmt, u.at))
    decreases |fmt| - i
  {
    hide Cut, Uses, TypeOf;
    if i < |fmt| {
      if fmt[i] != '%' {
        AllReadable(fmt, TextEnd(fmt, i + 1), u);
      } else {
        var d := Cut(fmt, i + 1);
        var rest := Directives(fmt, d.Next());
        assert ([d] + rest)[1..] == rest;
        if u in Uses(d) {
          UsesReadable(fmt, i + 1, u);
        } else {
          AllReadable(fmt, d.Next(), u);
        }
      }
    }
  }

  /** Every type that an accepted format's first pass collects is one that takes exactly one argument. */
  lemma OneEach(fmt: string, types: Types)
    requires NulFree(fmt) && Accepts(fmt, types)
    ensures forall k :: 0 <= k < |types| ==> types[k].Some? && OneArgument(TypeOf(fmt, types[k].value))
  {
    hide TypeOf, OneArgument, Collect, Directives, AllUses;
    var uses := AllUses(Directives(fmt, 0));
    forall u | u in uses
      ensures OneArgument(TypeOf(fmt, u.at))
    {
      AllReadable(fmt, 0, u);
    }
    CollectReadable(fmt, [], uses, types);
  }

  predicate IsNamed(uses: seq<Use>, k: nat) {
    exists u :: u in uses && u.arg == k + 1
  }

  /** The arguments whose types are collected are those that are named, and are all inside. */
  lemma {:induction false} CollectNames(fmt: string, types: Types, uses: seq<Use>, t: Types, k: nat)
    requires Collect(fmt, types, uses) == Some(t)
    ensures |types| <= |t| && (IsNamed(uses, k) ==> k < |t|)
    ensures k < |t| ==> (t[k].Some? <==> ((k < |types| && types[k].Some?) || IsNamed(uses, k)))
    ensures forall u :: u in uses ==> u.arg > 0
    decreases |uses|
  {
    hide Compatible;
    if uses != [] {
      var next := Adjusted(fmt, types, uses[0]).value;
      CollectNames(fmt, next, uses[1..], t, k);
      assert uses == [uses[0]] + uses[1..];
      if IsNamed(uses[1..], k) {
        var u :| u in uses[1..] && u.arg == k + 1;
        assert u in uses;
      }
      if uses[0].arg == k + 1 {
        assert uses[0] in uses;
      }
    }
  }

  /** An accepted format that names arguments names every one from the first to the last. */
  lemma NamesAll(fmt: string, types: Types, k: nat)
    requires NulFree(fmt) && Accepts(fmt, types)
    ensures k < |types| <==> IsNamed(AllUses(Directives(fmt, 0)), k)
  {
    hide Collect, Directives, AllUses, IsNamed;
    CollectNames(fmt, [], AllUses(Directives(fmt, 0)), types, k);
  }

  lemma {:induction false} AllUsesIn(ds: seq<Directive>, d: Directive, u: Use)
    requires d in ds && u in Uses(d)
    ensures u in AllUses(ds)
  {
    hide Uses;
    if d != ds[0] {
      AllUsesIn(ds[1..], d, u);
    }
  }

  /** Every argument that a conversion names has a collected type. */
  lemma NamedInside(fmt: string, types: Types, d: Directive, u: Use)
    requires NulFree(fmt) && Accepts(fmt, types) && d in Directives(fmt, 0) && u in Uses(d)
    ensures 1 <= u.arg <= |types|
  {
    hide Collect, Directives, AllUses, Uses;
    AllUsesIn(Directives(fmt, 0), d, u);
    CollectNames(fmt, [], AllUses(Directives(fmt, 0)), types, 0);
    CollectNames(fmt, [], AllUses(Directives(fmt, 0)), types, u.arg - 1);
  }
}
