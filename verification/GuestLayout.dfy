/** The layout object: the page tables and the command line written into the guest's memory. */
module GuestLayout {
  import opened Wrappers
  import opened Memory
  import opened PageFormat
  import opened Spans
  import opened PageTree
  import opened PageWalk
  import opened PageCount
  import opened TableBuilder
  import opened CommandLine

  /** A slot's layout: its spans, and what the monitor notes when it has written the tables and argv. */
  class Layout {
    var spans: seq<Span>
    var tablesUsed: nat
    var root: nat
    var argc: nat
    var argv: nat

    constructor (spans: seq<Span>)
      ensures this.spans == spans
    {
      this.spans := spans;
      tablesUsed, root, argc, argv := 0, 0, 0, 0;
    }

    /** Writes the identity map of the spans into mem's table area and returns the root's address, or
        none when the tables do not fit.  Of spans that map what the tables' indices do not tell apart there
        is no such map (PageWalk.NoTables). */
    method BuildTables(isa: Isa, mem: array<byte>) returns (r: Option<nat>)
      requires mem.Length >= TABLES_END && Within(spans, Indexed(isa))
      requires forall i :: TABLES_BASE <= i < TABLES_END ==> mem[i] == 0
      modifies mem, this`tablesUsed, this`root
      ensures mem[..TABLES_BASE] == old(mem[..TABLES_BASE]) && mem[TABLES_END..] == old(mem[TABLES_END..])
      ensures r.Some? <==> |Needed(Levels(isa), spans)| <= TABLES
      ensures r.Some? ==> r.value == root && tablesUsed == PAGE * |Needed(Levels(isa), spans)|
      ensures r.Some? ==> forall va: nat | va < Indexed(isa) ::
                Translate(isa, mem[..], r.value, Levels(isa), va) == Specified(isa, spans, va)
      ensures r.Some? ==> forall va: nat | va < Space(isa) :: Walk(isa, mem[..], r.value, va) == Specified(isa, spans, va)
      ensures r.None? ==> tablesUsed == old(tablesUsed) && root == old(root)
    {
      hide Image, Marks, Needed, Holds;
      var b := new Builder(isa, spans, mem);
      var seen: set<nat>, i, ok := {}, 0, true;
      while i < |spans|
        invariant 0 <= i <= |spans| && fresh(b) && unchanged(this)
        invariant b.mem == mem && b.isa == isa && b.spans == spans
        invariant b.Valid() && b.done == Touched(spans[..i]) && seen == b.done
        invariant b.Outside() == old(mem[..TABLES_BASE] + mem[TABLES_END..])
      {
        ok, seen := b.MapSpan(i, seen);
        if !ok {
          OutsideParts(mem[..], old(mem[..]));
          return None;
        }
        i := i + 1;
      }
      assert spans[..i] == spans;
      OutsideParts(mem[..], old(mem[..]));
      Finished(isa, mem[..], spans, b.tree, b.slots, b.used);
      tablesUsed, root := b.next - TABLES_BASE, TABLES_BASE;
      r := Some(root);
    }

    /** writeArgs.  Written is what a C program reads back as argv (CommandLine.ReadsBack); arguments that do not
        fit leave argc and argv alone, but may leave a part of themselves in the area. */
    method WriteArgs(mem: array<byte>, args: seq<seq<byte>>) returns (ok: bool)
      requires mem.Length >= ARGS_END
      modifies mem, this`argc, this`argv
      ensures mem[..ARGS_BASE] == old(mem[..ARGS_BASE]) && mem[ARGS_END..] == old(mem[ARGS_END..])
      ensures ok <==> ArgsFit(args)
      ensures ok ==> argc == |args| && argv == ARGS_BASE && Written(mem[..], args)
      ensures !ok ==> argc == old(argc) && argv == old(argv)
    {
      hide Word, Start, WrittenArg;
      StartStrings(args);
      var ptrs := ARGS_BASE;
      var strs := ptrs + (|args| + 1) * 8;
      var i := 0;
      while i < |args|
        invariant 0 <= i <= |args| && strs == Start(args, i)
        invariant i > 0 ==> strs <= ARGS_END
        invariant argc == old(argc) && argv == old(argv)
        invariant forall k :: 0 <= k < i ==> WrittenArg(mem[..], args, k)
        invariant mem[..ARGS_BASE] == old(mem[..ARGS_BASE]) && mem[ARGS_END..] == old(mem[ARGS_END..])
      {
        var a := args[i];
        StartStep(args, i);
        StartGrows(args, i + 1, |args|);
        if strs + |a| + 1 > ARGS_END {
          return false;
        }
        WriteArg(mem, args, i, strs);
        strs := strs + |a| + 1;
        i := i + 1;
      }
      StartGrows(args, 0, |args|);
      ghost var before := mem[..];
      PutWord(mem, ptrs + |args| * 8, 0);
      assert mem[..ptrs + |args| * 8] == before[..ptrs + |args| * 8];
      assert mem[ptrs + |args| * 8 + 8..] == before[ptrs + |args| * 8 + 8..];
      forall k | 0 <= k < |args|
        ensures WrittenArg(mem[..], args, k)
      {
        NullStored(before, mem[..], args, k);
      }
      FrameParts(before, mem[..], ptrs + |args| * 8, ptrs + |args| * 8 + 8);
      argc, argv := |args|, ptrs;
      ok := true;
    }
  }

  /** The bytes outside the command-line area are untouched by a change inside it. */
  lemma FrameParts(before: seq<byte>, after: seq<byte>, lo: nat, hi: nat)
    requires |after| == |before| >= ARGS_END && ARGS_BASE <= lo <= hi <= ARGS_END
    requires after[..lo] == before[..lo] && after[hi..] == before[hi..]
    ensures after[..ARGS_BASE] == before[..ARGS_BASE] && after[ARGS_END..] == before[ARGS_END..]
  {
    assert after[..lo][..ARGS_BASE] == after[..ARGS_BASE] && before[..lo][..ARGS_BASE] == before[..ARGS_BASE];
    assert after[hi..][ARGS_END - hi..] == after[ARGS_END..] && before[hi..][ARGS_END - hi..] == before[ARGS_END..];
  }

  /** Argument i's pointer and string. */
  method WriteArg(mem: array<byte>, args: seq<seq<byte>>, i: nat, strs: nat)
    requires mem.Length >= ARGS_END && i < |args| && strs == Start(args, i) && strs + |args[i]| + 1 <= ARGS_END
    requires forall k :: 0 <= k < i ==> WrittenArg(mem[..], args, k)
    modifies mem
    ensures forall k :: 0 <= k <= i ==> WrittenArg(mem[..], args, k)
    ensures mem[..ARGS_BASE] == old(mem[..ARGS_BASE]) && mem[ARGS_END..] == old(mem[ARGS_END..])
  {
    hide Word, Start, WrittenArg;
    ghost var before := mem[..];
    var p := ARGS_BASE + i * 8;
    StartAbove(args, i);
    PutWord(mem, p, strs);
    ghost var middle := mem[..];
    assert middle[..p] == before[..p] && middle[p + 8..] == before[p + 8..];
    FrameParts(before, middle, p, p + 8);
    WriteString(mem, strs, args[i]);
    FrameParts(middle, mem[..], strs, strs + |args[i]| + 1);
    forall k | 0 <= k <= i
      ensures WrittenArg(mem[..], args, k)
    {
      ArgStored(before, middle, mem[..], args, i, k);
    }
  }

  /** A string and its NUL. */
  method WriteString(mem: array<byte>, at: nat, s: seq<byte>)
    requires at + |s| + 1 <= mem.Length
    modifies mem
    ensures mem[..at] == old(mem[..at]) && mem[at + |s| + 1..] == old(mem[at + |s| + 1..])
    ensures mem[at..at + |s|] == s && mem[at + |s|] == 0
  {
    Copy(mem, at, s);
    mem[at + |s|] := 0;
  }

  /** copy(mem[at:], s) */
  method Copy(mem: array<byte>, at: nat, s: seq<byte>)
    requires at + |s| <= mem.Length
    modifies mem
    ensures mem[..] == old(mem[..at]) + s + old(mem[at + |s|..])
  {
    var i := 0;
    while i < |s|
      invariant 0 <= i <= |s|
      invariant mem[..at] == old(mem[..at]) && mem[at..at + i] == s[..i]
      invariant mem[at + |s|..] == old(mem[at + |s|..])
    {
      mem[at + i] := s[i];
      i := i + 1;
      assert mem[at..at + i] == mem[at..at + i - 1] + [s[i - 1]];
    }
    assert mem[..] == mem[..at] + mem[at..at + |s|] + mem[at + |s|..];
  }
}
