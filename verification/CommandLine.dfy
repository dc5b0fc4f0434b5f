/** The command line in the guest's memory: argv's pointers, then the strings, and how C reads them. */
module CommandLine {
  import opened Memory
  import opened Spans

  /** Where argument i's string begins; at |args|, where the strings end. */
  function Start(args: seq<seq<byte>>, i: nat): nat
    requires i <= |args|
  {
    if i == 0 then ARGS_BASE + (|args| + 1) * 8 else Start(args, i - 1) + |args[i - 1]| + 1
  }

  /** The strings end within the area.  A null pointer alone always fits. */
  predicate ArgsFit(args: seq<seq<byte>>) {
    args == [] || Start(args, |args|) <= ARGS_END
  }

  /** Argument k is in memory: its pointer, its bytes, and a NUL after them. */
  ghost predicate WrittenArg(mem: seq<byte>, args: seq<seq<byte>>, k: nat)
    requires k < |args|
  {
    var s := Start(args, k);
    && s + |args[k]| < |mem| && ARGS_BASE + 8 * k + 8 <= |mem|
    && Word(mem, ARGS_BASE + 8 * k) == s
    && mem[s..s + |args[k]|] == args[k] && mem[s + |args[k]|] == 0
  }

  /** The whole command line is in memory, and a null pointer after its last. */
  ghost predicate Written(mem: seq<byte>, args: seq<seq<byte>>) {
    && (forall k :: 0 <= k < |args| ==> WrittenArg(mem, args, k))
    && ARGS_BASE + 8 * |args| + 8 <= |mem| && Word(mem, ARGS_BASE + 8 * |args|) == 0
  }

  lemma StartStrings(args: seq<seq<byte>>)
    ensures Start(args, 0) == ARGS_BASE + (|args| + 1) * 8
  {
  }

  lemma StartStep(args: seq<seq<byte>>, i: nat)
    requires i < |args|
    ensures Start(args, i + 1) == Start(args, i) + |args[i]| + 1
  {
  }

  lemma {:induction false} StartGrows(args: seq<seq<byte>>, i: nat, j: nat)
    requires i <= j <= |args|
    ensures Start(args, i) + (j - i) <= Start(args, j)
    decreases j
  {
    if i < j {
      StartGrows(args, i, j - 1);
    }
  }

  lemma StartAbove(args: seq<seq<byte>>, i: nat)
    requires i <= |args|
    ensures ARGS_BASE + (|args| + 1) * 8 <= Start(args, i)
  {
    StartGrows(args, 0, i);
  }

  /** A word outside a changed range keeps its value. */
  lemma WordKept(before: seq<byte>, after: seq<byte>, a: nat, lo: nat, hi: nat)
    requires |after| == |before| && a + 8 <= |before| && lo <= hi <= |before|
    requires after[..lo] == before[..lo] && after[hi..] == before[hi..]
    requires a + 8 <= lo || hi <= a
    ensures Word(after, a) == Word(before, a)
  {
    RangeKept(before, after, a, a + 8, lo, hi);
  }

  lemma RangeKept(before: seq<byte>, after: seq<byte>, a: nat, b: nat, lo: nat, hi: nat)
    requires |after| == |before| && a <= b <= |before| && lo <= hi <= |before|
    requires after[..lo] == before[..lo] && after[hi..] == before[hi..]
    requires b <= lo || hi <= a
    ensures after[a..b] == before[a..b]
  {
    if b <= lo {
      assert after[a..b] == after[..lo][a..b] == before[..lo][a..b] == before[a..b];
    } else {
      assert after[a..b] == after[hi..][a - hi..b - hi] == before[hi..][a - hi..b - hi] == before[a..b];
    }
  }

  /** An argument outside a changed range is still in memory. */
  lemma KeepArg(before: seq<byte>, after: seq<byte>, args: seq<seq<byte>>, k: nat, lo: nat, hi: nat)
    requires k < |args| && WrittenArg(before, args, k)
    requires |after| == |before| && lo <= hi <= |before|
    requires after[..lo] == before[..lo] && after[hi..] == before[hi..]
    requires ARGS_BASE + 8 * k + 8 <= lo || hi <= ARGS_BASE + 8 * k
    requires Start(args, k) + |args[k]| < lo || hi <= Start(args, k)
    ensures WrittenArg(after, args, k)
  {
    hide Word, Start;
    var s := Start(args, k);
    WordKept(before, after, ARGS_BASE + 8 * k, lo, hi);
    RangeKept(before, after, s, s + |args[k]| + 1, lo, hi);
    assert after[s + |args[k]|] == after[s..s + |args[k]| + 1][|args[k]|] == before[s + |args[k]|];
    assert after[s..s + |args[k]|] == after[s..s + |args[k]| + 1][..|args[k]|];
    assert before[s..s + |args[k]|] == before[s..s + |args[k]| + 1][..|args[k]|];
  }

  /** Writing argument i's pointer, then its string, leaves it and those before it in memory. */
  lemma ArgStored(before: seq<byte>, middle: seq<byte>, after: seq<byte>, args: seq<seq<byte>>, i: nat, k: nat)
    requires k <= i < |args| && |after| == |middle| == |before| >= ARGS_END && Start(args, i) + |args[i]| + 1 <= ARGS_END
    requires ARGS_BASE + 8 * i + 8 <= ARGS_END
    requires k < i ==> WrittenArg(before, args, k)
    requires var p := ARGS_BASE + 8 * i;
             middle[..p] == before[..p] && middle[p + 8..] == before[p + 8..] && Word(middle, p) == Start(args, i)
    requires var s, end := Start(args, i), Start(args, i) + |args[i]| + 1;
             && after[..s] == middle[..s] && after[end..] == middle[end..]
             && after[s..s + |args[i]|] == args[i] && after[s + |args[i]|] == 0
    ensures WrittenArg(after, args, k)
  {
    hide Word, Start;
    var p, s, end := ARGS_BASE + 8 * i, Start(args, i), Start(args, i) + |args[i]| + 1;
    StartAbove(args, i);
    if k < i {
      StartAbove(args, k);
      StartStep(args, k);
      StartGrows(args, k + 1, i);
      KeepArg(before, middle, args, k, p, p + 8);
      KeepArg(middle, after, args, k, s, end);
    } else {
      WordKept(middle, after, p, s, end);
    }
  }

  /** Writing the null pointer after the others keeps every argument. */
  lemma NullStored(before: seq<byte>, after: seq<byte>, args: seq<seq<byte>>, k: nat)
    requires k < |args| && |after| == |before| && ARGS_BASE + 8 * |args| + 8 <= |before| && WrittenArg(before, args, k)
    requires var p := ARGS_BASE + 8 * |args|; after[..p] == before[..p] && after[p + 8..] == before[p + 8..]
    ensures WrittenArg(after, args, k)
  {
    hide Word, Start;
    StartAbove(args, k);
    KeepArg(before, after, args, k, ARGS_BASE + 8 * |args|, ARGS_BASE + 8 * |args| + 8);
  }

  // ----- how the guest reads it

  /** The C string at address a. */
  function CString(mem: seq<byte>, a: nat): seq<byte>
    decreases |mem| - a
  {
    if a >= |mem| || mem[a] == 0 then [] else [mem[a]] + CString(mem, a + 1)
  }

  /** The strings that an array of pointers names, up to its null pointer. */
  function Argv(mem: seq<byte>, p: nat): seq<seq<byte>>
    decreases |mem| - p
  {
    if p + 8 > |mem| || Word(mem, p) == 0 then [] else [CString(mem, Word(mem, p))] + Argv(mem, p + 8)
  }

  /** A string up to its first NUL. */
  function UpToNul(s: seq<byte>): seq<byte> {
    if s == [] || s[0] == 0 then [] else [s[0]] + UpToNul(s[1..])
  }

  lemma {:induction false} NulFree(s: seq<byte>)
    requires 0 !in s
    ensures UpToNul(s) == s
  {
    if s != [] {
      NulFree(s[1..]);
    }
  }

  /** A string stored with a NUL after it is read back up to its first NUL. */
  lemma {:induction false} ReadString(mem: seq<byte>, a: nat, s: seq<byte>)
    requires a + |s| < |mem| && mem[a..a + |s|] == s && mem[a + |s|] == 0
    ensures CString(mem, a) == UpToNul(s)
    decreases |s|
  {
    if s != [] {
      assert mem[a] == s[0];
      if s[0] != 0 {
        assert mem[a + 1..a + |s|] == mem[a..a + |s|][1..];
        ReadString(mem, a + 1, s[1..]);
      }
    }
  }

  /** argv read back from memory is the arguments, in order, each up to its first NUL. */
  lemma {:induction false} ReadArgs(mem: seq<byte>, args: seq<seq<byte>>, k: nat)
    requires Written(mem, args) && k <= |args|
    ensures Argv(mem, ARGS_BASE + 8 * k) == seq(|args| - k, i requires 0 <= i < |args| - k => UpToNul(args[k + i]))
    decreases |args| - k
  {
    hide Word;
    if k < |args| {
      assert WrittenArg(mem, args, k);
      StartAbove(args, k);
      ReadString(mem, Start(args, k), args[k]);
      ReadArgs(mem, args, k + 1);
    }
  }

  /** Arguments without NULs are read back as they were given. */
  lemma ReadsBack(mem: seq<byte>, args: seq<seq<byte>>)
    requires Written(mem, args) && forall k :: 0 <= k < |args| ==> 0 !in args[k]
    ensures Argv(mem, ARGS_BASE) == args
  {
    ReadArgs(mem, args, 0);
    forall k | 0 <= k < |args|
      ensures UpToNul(args[k]) == args[k]
    {
      NulFree(args[k]);
    }
  }

  /** No string overlaps another, nor the pointers. */
  lemma StringsApart(args: seq<seq<byte>>, i: nat, j: nat)
    requires i < j < |args| && ArgsFit(args)
    ensures ARGS_BASE + 8 * |args| + 8 <= Start(args, i)
    ensures Start(args, i) + |args[i]| + 1 <= Start(args, j)
    ensures Start(args, j) + |args[j]| + 1 <= ARGS_END
  {
    hide Start;
    StartAbove(args, i);
    StartStep(args, i);
    StartStep(args, j);
    StartGrows(args, i + 1, j);
    StartGrows(args, j + 1, |args|);
  }
}
