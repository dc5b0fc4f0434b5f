/** printf's arguments: a va_list and the skipping about in it that named arguments ask for
    (hostVa and skip_to_arg of editor/format.go).
 */
module FormatArgs {
  import opened Wrappers
  import opened FormatCut
  import opened FormatTypes
  import opened FormatField

  function ArgAt(args: seq<Arg>, k: nat): Option<Arg> {
    if k < |args| then Some(args[k]) else None
  }

  /** The types before argument n are each one argument. */
  predicate KnownTo(fmt: string, types: Types, n: nat) {
    n <= |types| && forall k :: 0 <= k < n ==> types[k].Some? && OneArgument(TypeOf(fmt, types[k].value))
  }

  /** How a skip ends: at its argument, past the last, or in an internal error, the types not being known. */
  datatype Skipped = Ready | Panicked | Internal

  /** The va_list, the index of its next argument, and skip_to_arg's idea of both. */
  class Reader {
    const fmt: string
    const types: Types
    const args: seq<Arg>
    var i: nat
    var argIdx: nat
    var argCur: nat

    constructor (fmt: string, types: Types, args: seq<Arg>)
      ensures this.fmt == fmt && this.types == types && this.args == args
      ensures i == 0 && argIdx == 1 && argCur == 0
    {
      this.fmt, this.types, this.args := fmt, types, args;
      i, argIdx, argCur := 0, 1, 0;
    }

    /** The va_list is where argCur says. */
    predicate Even()
      reads this
    {
      i == argCur <= |args| && argIdx >= 1
    }

    /** It can be brought to argument argIdx. */
    predicate CanSkip()
      reads this
    {
      Even() && (argCur + 1 == argIdx || KnownTo(fmt, types, argIdx - 1))
    }

    /** va_arg. */
    method Next() returns (a: Option<Arg>)
      modifies this`i
      ensures a == ArgAt(args, old(i))
      ensures i == old(i) + if a.Some? then 1 else 0
    {
      if i >= |args| {
        return None;
      }
      a := Some(args[i]);
      i := i + 1;
    }

    /** skip_to_arg: however far back or on the argument is, the list comes to it, if it has that many
        arguments. */
    method SkipToArg() returns (out: Skipped)
      requires argIdx >= 1
      modifies this`i, this`argIdx, this`argCur
      ensures old(CanSkip()) ==> out == if old(argIdx) - 1 <= |args| || old(argCur + 1 == argIdx) then Ready else Panicked
      ensures old(CanSkip()) && out.Ready? ==> i == old(argIdx) - 1 && argCur == old(argIdx) && argIdx == old(argIdx) + 1
    {
      var argMin := 0;
      if argCur + 1 == argIdx {
        argCur := argCur + 1;
        argIdx := argIdx + 1;
        return Ready;
      }
      if argCur >= argIdx {
        i := 0;
      } else {
        argMin := argCur;
      }
      argCur := argMin;
      ghost var known := old(CanSkip());
      while argCur < argIdx - 1
        invariant argIdx == old(argIdx) && argCur <= argIdx - 1
        invariant known ==> i == argCur && i <= |args|
        decreases argIdx - argCur
      {
        if argCur >= |types| || types[argCur].None? {
          return Internal;
        }
        if OneArgument(TypeOf(fmt, types[argCur].value)) {
          var a := Next();
          if a.None? {
            return Panicked;
          }
        }
        argCur := argCur + 1;
      }
      argCur := argCur + 1;
      argIdx := argIdx + 1;
      out := Ready;
    }

    /** A read for argument argIdx yields that argument, and the list is then where argCur says. */
    method Read() returns (a: Option<Arg>)
      requires CanSkip()
      modifies this`i, this`argIdx, this`argCur
      ensures a == ArgAt(args, old(argIdx) - 1)
      ensures a.Some? ==> Even() && argCur == old(argIdx) && argIdx == old(argIdx) + 1
    {
      var out := SkipToArg();
      if out.Panicked? {
        return None;
      }
      a := Next();
    }
  }
}
