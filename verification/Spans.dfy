/** The slot's layout: ranges of guest addresses, each with one permission (vmm/layout.go). */
module Spans {
  import opened PageFormat

  datatype Span = Span(lo: nat, hi: nat, p: Perm)

  const SYS_BASE: nat := 0x1000
  const ARGS_BASE: nat := 0x4000
  const ARGS_END: nat := 0x10000
  const TABLES_BASE: nat := 0x10000
  const TABLES_END: nat := 0x200000
  const IMAGE_BASE: nat := 0x200000
  const DOORBELL: nat := 0xf000_0000
  const STACK_BYTES: nat := 0x400_0000
  const FAULT_STACK_BYTES: nat := 0x1_0000
  const HEAP_BYTES: nat := 0x4000_0000
  const GO_RAM_BYTES: nat := 0xc000_0000

  /** The permission at va: the first span's that holds it, zero where nothing is mapped. */
  function PermAt(spans: seq<Span>, va: nat): Perm {
    if spans == [] then 0
    else if spans[0].lo <= va < spans[0].hi then spans[0].p
    else PermAt(spans[1..], va)
  }

  lemma {:induction false} PermFirst(spans: seq<Span>, i: nat, va: nat)
    requires i < |spans| && spans[i].lo <= va < spans[i].hi
    requires forall j :: 0 <= j < i ==> !(spans[j].lo <= va < spans[j].hi)
    ensures PermAt(spans, va) == spans[i].p
  {
    if i > 0 {
      assert !(spans[0].lo <= va < spans[0].hi);
      PermFirst(spans[1..], i - 1, va);
    }
  }

  /** Every span lies in the space that the tables translate. */
  predicate Within(spans: seq<Span>, limit: nat) {
    forall i :: 0 <= i < |spans| ==> spans[i].hi <= limit
  }

  predicate PageAligned(spans: seq<Span>) {
    forall i :: 0 <= i < |spans| ==> spans[i].lo % PAGE == 0 && spans[i].hi % PAGE == 0
  }

  /** A block that the spans give one permission. */
  predicate Uniform(spans: seq<Span>, b: nat) {
    forall i :: 0 <= i < 512 ==> PermAt(spans, b * BLOCK + i * PAGE) == PermAt(spans, b * BLOCK)
  }

  /** The blocks of one span: from the block of its first byte to that of its last. */
  function Blocks(s: Span): set<nat> {
    set b: nat | s.lo / BLOCK <= b < s.hi / BLOCK + 1 && b * BLOCK < s.hi
  }

  function Touched(spans: seq<Span>): set<nat> {
    if spans == [] then {} else Blocks(spans[0]) + Touched(spans[1..])
  }

  /** They are those with a byte of the span. */
  lemma BlocksExact(s: Span, b: nat)
    requires s.lo < s.hi
    ensures b in Blocks(s) <==> exists va: nat :: s.lo <= va < s.hi && va / BLOCK == b
  {
    if b in Blocks(s) {
      var va := if s.lo < b * BLOCK then b * BLOCK else s.lo;
      assert va / BLOCK == b;
    }
    if va: nat :| s.lo <= va < s.hi && va / BLOCK == b {
      assert va == b * BLOCK + va % BLOCK;
      assert s.lo / BLOCK <= va / BLOCK <= s.hi / BLOCK;
    }
  }

  lemma {:induction false} TouchedNext(spans: seq<Span>, i: nat)
    requires i < |spans|
    ensures Touched(spans[..i + 1]) == Touched(spans[..i]) + Blocks(spans[i])
  {
    if i == 0 {
      assert spans[..1] == [spans[0]];
    } else {
      TouchedNext(spans[1..], i - 1);
      assert spans[..i + 1][1..] == spans[1..][..i];
      assert spans[..i][1..] == spans[1..][..i - 1];
    }
  }

  lemma {:induction false} TouchedBy(spans: seq<Span>, i: nat)
    requires i < |spans|
    ensures Blocks(spans[i]) <= Touched(spans)
  {
    if i > 0 {
      TouchedBy(spans[1..], i - 1);
    }
  }

  lemma {:induction false} TouchedSome(spans: seq<Span>, b: nat) returns (i: nat)
    requires b in Touched(spans)
    ensures i < |spans| && b in Blocks(spans[i])
  {
    if b in Blocks(spans[0]) {
      i := 0;
    } else {
      i := TouchedSome(spans[1..], b);
      i := i + 1;
    }
  }

  /** Where something is mapped, a span's block is. */
  lemma {:induction false} MappedIsTouched(spans: seq<Span>, va: nat)
    requires PermAt(spans, va) != 0
    ensures va / BLOCK in Touched(spans)
  {
    if spans[0].lo <= va < spans[0].hi {
      assert va / BLOCK in Blocks(spans[0]);
    } else {
      MappedIsTouched(spans[1..], va);
    }
  }

  /** Between two page boundaries, page-aligned spans do not change. */
  lemma {:induction false} PermAtPage(spans: seq<Span>, va: nat)
    requires PageAligned(spans)
    ensures PermAt(spans, va) == PermAt(spans, va / PAGE * PAGE)
  {
    if spans != [] {
      var s, base := spans[0], va / PAGE * PAGE;
      assert s.lo <= va < s.hi <==> s.lo <= base < s.hi;
      PermAtPage(spans[1..], va);
    }
  }
}
