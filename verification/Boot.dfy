/** From an image to what its guest can reach: the plan, the doorbell check, and the tables
    (plan, boot and setup, with what the processor makes of the result).
 */
module Boot {
  import opened Wrappers
  import opened Memory
  import opened PageFormat
  import opened Spans
  import PageTree
  import opened PageWalk
  import opened PageCount
  import opened GuestLayout
  import opened Plan

  /** What the processor finds at va in a booted guest's tables, but for the stacks. */
  ghost predicate Reaches(im: Image, va: nat, found: Mapping) {
    && (va < SYS_BASE || TABLES_BASE <= va < TABLES_END ==> found == Unmapped)
    && (forall k :: 0 <= k < |im.loads| && im.loads[k].vaddr <= va < im.loads[k].End() ==>
          found == Loaded(va, im.loads[k]))
  }

  /** A byte of a segment, as its program header's flags have it: not there when none is set. */
  function Loaded(va: nat, p: Prog): Mapping {
    if p.readable || p.writable || p.executable then Mapped(va, p.writable, p.executable, false) else Unmapped
  }

  /** What the processor finds at every address: on a segment's pages that segment's permissions, and beside
      them the arguments and the `ram`, to write and not to execute, the doorbell, and nothing else. */
  ghost predicate Finds(isa: Isa, im: Image, ram: bool, va: nat, found: Mapping) {
    && (forall k :: 0 <= k < |im.loads| && OnSegment(im.loads[k], va) ==> found == Loaded(va, im.loads[k]))
    && ((forall k :: 0 <= k < |im.loads| ==> !OnSegment(im.loads[k], va)) ==>
          found == if SYS_BASE <= va < ARGS_END || ram then Mapped(va, true, false, false)
                   else if DOORBELL <= va < DOORBELL + PAGE then Mapped(va, true, false, isa.Arm64?)
                   else Unmapped)
  }

  /** At the doorbell's page it finds a device that can be written. */
  ghost predicate Rings(isa: Isa, va: nat, found: Mapping) {
    DOORBELL <= va < DOORBELL + PAGE ==> found == Mapped(va, true, false, isa.Arm64?)
  }

  /** In a vCPU's fault stack it finds memory that can be written and not executed. */
  ghost predicate Stacks(l: Slot, va: nat, found: Mapping) {
    forall i: nat :: i < l.cpus && InFaultStack(l, i, va) ==> found == Mapped(va, true, false, false)
  }

  /** The page between a C guest's image and its stack. */
  predicate InGuard(im: Image, va: nat) {
    RoundUp(im.end, BLOCK) <= va < RoundUp(im.end, BLOCK) + PAGE
  }

  lemma StackPerms()
    ensures Has(READ | WRITE, WRITE) && !Has(READ | WRITE, EXEC) && !Has(READ | WRITE, DEVICE) && READ | WRITE != 0
    ensures Has(WRITE | DEVICE, WRITE) && !Has(WRITE | DEVICE, EXEC) && Has(WRITE | DEVICE, DEVICE) && WRITE | DEVICE != 0
  {
  }

  lemma SpecifiedPage(isa: Isa, spans: seq<Span>, va: nat)
    requires PageAligned(spans)
    ensures Specified(isa, spans, va) ==
            var p := PermAt(spans, va);
            if p == 0 then Unmapped else Mapped(va, Has(p, WRITE), Has(p, EXEC), isa.Arm64? && Has(p, DEVICE))
  {
    hide PermAt, Has, PageAligned;
    PermAtPage(spans, va);
  }

  /** A plan is reached as it says, when its segments keep their permissions. */
  lemma PlanReaches(isa: Isa, im: Image, spans: seq<Span>, va: nat)
    requires PageAligned(spans)
    requires va < SYS_BASE || TABLES_BASE <= va < TABLES_END ==> PermAt(spans, va) == 0
    requires forall k :: 0 <= k < |im.loads| && im.loads[k].vaddr <= va < im.loads[k].End() ==>
               OwnPerms(PermAt(spans, va), im.loads[k])
    ensures Reaches(im, va, Specified(isa, spans, va))
  {
    hide PermAt, Has, Specified, PageAligned;
    SpecifiedPage(isa, spans, va);
  }

  /** What the spans give an address the processor finds there. */
  lemma GivesFinds(isa: Isa, im: Image, spans: seq<Span>, ram: bool, va: nat)
    requires PageAligned(spans) && Gives(im, PermAt(spans, va), va, ram)
    ensures Finds(isa, im, ram, va, Specified(isa, spans, va))
  {
    hide PermAt, Has, Specified, PageAligned, OnSegment;
    SpecifiedPage(isa, spans, va);
    StackPerms();
  }

  /** And so are its stacks. */
  lemma StacksReach(isa: Isa, l: Slot, va: nat)
    requires PageAligned(l.spans)
    requires forall i: nat :: i < l.cpus && InFaultStack(l, i, va) ==> PermAt(l.spans, va) == READ | WRITE
    ensures Stacks(l, va, Specified(isa, l.spans, va))
  {
    hide PermAt, Has, Specified, PageAligned, InFaultStack;
    SpecifiedPage(isa, l.spans, va);
    StackPerms();
  }

  lemma BellReaches(isa: Isa, spans: seq<Span>, va: nat)
    requires PageAligned(spans) && Sorted(spans) && spans != [] && spans[|spans| - 1] == DOORBELL_SPAN
    ensures Rings(isa, va, Specified(isa, spans, va))
  {
    hide PermAt, Has, Specified, PageAligned;
    SpecifiedPage(isa, spans, va);
    StackPerms();
    if DOORBELL <= va < DOORBELL + PAGE {
      PermInSpan(spans, |spans| - 1, va);
    }
  }

  lemma CReaches(isa: Isa, im: Image, cpus: nat, l: Slot, va: nat)
    requires Ascending(im) && PlannedC(im, cpus, l) && im.end <= DOORBELL && l.size <= DOORBELL
    ensures Reaches(im, va, Specified(isa, l.spans, va)) && Rings(isa, va, Specified(isa, l.spans, va))
    ensures Stacks(l, va, Specified(isa, l.spans, va))
    ensures InGuard(im, va) ==> Specified(isa, l.spans, va) == Unmapped
    ensures Finds(isa, im, CRam(l, va), va, Specified(isa, l.spans, va))
  {
    hide RoundUp, PermAt, Has, Specified, InFaultStack, PageAligned, Sorted, Reaches, Rings, Stacks, OwnPerms, Gives, Finds;
    CGives(im, cpus, l, va);
    CSorted(im, cpus, l);
    CSafe(im, cpus, l, va);
    CSegments(im, cpus, l);
    forall k | 0 <= k < |im.loads| && im.loads[k].vaddr <= va < im.loads[k].End()
      ensures OwnPerms(PermAt(l.spans, va), im.loads[k])
    {
      assert im.loads[k] in im.loads;
      SegmentPerms(im, l.spans, k, va);
    }
    PlanReaches(isa, im, l.spans, va);
    StacksReach(isa, l, va);
    BellReaches(isa, l.spans, va);
    SpecifiedPage(isa, l.spans, va);
    GivesFinds(isa, im, l.spans, CRam(l, va), va);
  }

  lemma GoReaches(isa: Isa, im: Image, cpus: nat, l: Slot, va: nat)
    requires Ascending(im) && PlannedGo(im, cpus, l) && l.size <= DOORBELL
    ensures Reaches(im, va, Specified(isa, l.spans, va))
    ensures l.heap <= l.size ==> Rings(isa, va, Specified(isa, l.spans, va))
    ensures HasRoom(im, cpus) ==> Stacks(l, va, Specified(isa, l.spans, va))
    ensures Finds(isa, im, GoRam(l, va), va, Specified(isa, l.spans, va))
  {
    hide RoundUp, PermAt, Has, Specified, InFaultStack, PageAligned, Sorted, Reaches, Rings, Stacks, HasRoom, OwnPerms, Gives, Finds;
    GoGives(im, cpus, l, va);
    GoSorted(im, cpus, l);
    GoSafe(im, cpus, l, va);
    forall k | 0 <= k < |im.loads| && im.loads[k].vaddr <= va < im.loads[k].End()
      ensures OwnPerms(PermAt(l.spans, va), im.loads[k])
    {
      InProgram(im, k, va);
      GoPermAt(im, cpus, l, va);
    }
    PlanReaches(isa, im, l.spans, va);
    GivesFinds(isa, im, l.spans, GoRam(l, va), va);
    if HasRoom(im, cpus) {
      StacksReach(isa, l, va);
    }
    if l.heap <= l.size {
      BellReaches(isa, l.spans, va);
    }
  }

  lemma InProgram(im: Image, k: nat, va: nat)
    requires Ascending(im) && k < |im.loads| && im.loads[k].vaddr <= va < im.loads[k].End()
    ensures InSegment(im, k, va) && va >= ARGS_END
  {
    hide RoundUp;
    assert im.loads[k] in im.loads;
    EndProper(im);
    RoundUpPage(im.loads[k].End());
  }

  /** The processor finds each segment with its own permissions. */
  ghost predicate SegmentsFound(isa: Isa, im: Image, mem: seq<byte>, root: nat) {
    forall k, va: nat :: 0 <= k < |im.loads| && im.loads[k].vaddr <= va < im.loads[k].End() ==>
      Walk(isa, mem, root, va) == Loaded(va, im.loads[k])
  }

  /** A segment that is to be found at all. */
  predicate Shown(p: Prog) {
    p.readable || p.writable || p.executable
  }

  /** The segments that are to be found end in the space that the processor translates. */
  predicate InReach(isa: Isa, im: Image) {
    forall k :: 0 <= k < |im.loads| ==> Shown(im.loads[k]) ==> im.loads[k].End() <= Space(isa)
  }

  /** It finds all of them exactly when they end there. */
  lemma ReachExact(isa: Isa, im: Image, mem: seq<byte>, root: nat)
    requires Ascending(im) && forall va: nat | va < Space(isa) :: Reaches(im, va, Walk(isa, mem, root, va))
    ensures SegmentsFound(isa, im, mem, root) <==> InReach(isa, im)
  {
    hide Translate, RoundUp, IsEnd, Space;
    EndProper(im);
    if !InReach(isa, im) {
      var k :| 0 <= k < |im.loads| && Shown(im.loads[k]) && im.loads[k].End() > Space(isa);
      assert im.loads[k] in im.loads;
      var va := im.loads[k].End() - 1;
      assert im.loads[k].vaddr <= va && Walk(isa, mem, root, va) == Unmapped;
    } else {
      forall k, va: nat | 0 <= k < |im.loads| && im.loads[k].vaddr <= va < im.loads[k].End()
        ensures Walk(isa, mem, root, va) == Loaded(va, im.loads[k])
      {
        if va < Space(isa) {
          assert Reaches(im, va, Walk(isa, mem, root, va));
        }
      }
    }
  }

  /** A C guest's slot planned and its tables written, of an image in the space that the tables index: they
      fail exactly when the slot reaches the doorbell or has too many segments for the table area, 241 never
      being too many; otherwise the processor finds the null page, the table area and the guard page
      unmapped, each vCPU's fault stack writable, and each segment with its own permissions. */
  method BootC(isa: Isa, im: Image, cpus: nat, mem: array<byte>) returns (l: Slot, root: Option<nat>)
    requires Ascending(im) && im.end <= Indexed(isa) && cpus <= MAX_CPUS
    requires mem.Length >= TABLES_END && forall i :: TABLES_BASE <= i < TABLES_END ==> mem[i] == 0
    modifies mem
    ensures PlannedC(im, cpus, l)
    ensures root.Some? <==> l.size <= DOORBELL && |Needed(Levels(isa), l.spans)| <= PageTree.TABLES
    ensures |im.loads| <= 241 && l.size <= DOORBELL ==> root.Some?
    ensures root.Some? ==> SegmentsFound(isa, im, mem[..], root.value)
    ensures root.Some? ==> forall va: nat | va < Space(isa) ::
              var found := Walk(isa, mem[..], root.value, va);
              && Finds(isa, im, CRam(l, va), va, found)
              && Reaches(im, va, found) && Rings(isa, va, found) && Stacks(l, va, found)
              && (InGuard(im, va) ==> found == Unmapped)
    ensures mem[..TABLES_BASE] == old(mem[..TABLES_BASE]) && mem[TABLES_END..] == old(mem[TABLES_END..])
  {
    hide RoundUp, Needed, Specified, Reaches, Rings, Stacks, InGuard, Walk, PlannedC, SegmentsFound, Finds, CRam;
    l := PlanC(im, cpus);
    if l.size > DOORBELL {
      return l, None;
    }
    IndexedBelow(isa, im, cpus, l);
    PlanFits(isa, im, cpus, l);
    var layout := new Layout(l.spans);
    root := layout.BuildTables(isa, mem);
    forall va: nat | va < Space(isa)
      ensures root.Some? ==>
                var found := Walk(isa, mem[..], root.value, va);
                && Finds(isa, im, CRam(l, va), va, found)
                && Reaches(im, va, found) && Rings(isa, va, found) && Stacks(l, va, found)
                && (InGuard(im, va) ==> found == Unmapped)
    {
      CReaches(isa, im, cpus, l, va);
    }
    if root.Some? {
      ReachExact(isa, im, mem[..], root.value);
      assert forall k :: 0 <= k < |im.loads| ==> im.loads[k] in im.loads && im.loads[k].End() <= im.end;
    }
  }

  /** The slot of an image in the indexed space does not wrap, so that it is above the image. */
  lemma IndexedBelow(isa: Isa, im: Image, cpus: nat, l: Slot)
    requires PlannedC(im, cpus, l) && im.end <= Indexed(isa) && l.size <= DOORBELL
    ensures im.end <= DOORBELL
  {
    hide RoundUp, CSpans;
    RoundUpBlock(im.end);
    RoundUpBlock(l.faultTop);
  }

  /** The same of a Go guest, whose tables are written exactly when they fit: the stacks are so when the image
      leaves room for them, which nothing checks, the doorbell when the image ends within the RAM, and the
      segments when they end in the space that the processor translates, which nothing checks either. */
  method BootGo(isa: Isa, im: Image, cpus: nat, mem: array<byte>) returns (l: Slot, root: Option<nat>)
    requires Ascending(im) && im.end <= Indexed(isa) && cpus <= MAX_CPUS
    requires mem.Length >= TABLES_END && forall i :: TABLES_BASE <= i < TABLES_END ==> mem[i] == 0
    modifies mem
    ensures PlannedGo(im, cpus, l)
    ensures root.Some? <==> l.size <= DOORBELL && |Needed(Levels(isa), l.spans)| <= PageTree.TABLES
    ensures |im.loads| <= 241 && l.heap <= l.size <= DOORBELL ==> root.Some?
    ensures root.Some? ==> forall va: nat | va < Indexed(isa) ::
              Translate(isa, mem[..], root.value, Levels(isa), va) == Specified(isa, l.spans, va)
    ensures root.Some? ==> (SegmentsFound(isa, im, mem[..], root.value) <==> InReach(isa, im))
    ensures root.Some? ==> forall va: nat | va < Space(isa) ::
              var found := Walk(isa, mem[..], root.value, va);
              && Finds(isa, im, GoRam(l, va), va, found) && Reaches(im, va, found)
              && (l.heap <= l.size ==> Rings(isa, va, found))
              && (HasRoom(im, cpus) ==> Stacks(l, va, found))
    ensures mem[..TABLES_BASE] == old(mem[..TABLES_BASE]) && mem[TABLES_END..] == old(mem[TABLES_END..])
  {
    hide RoundUp, Needed, Specified, Reaches, Rings, Stacks, Walk, Translate, PlannedGo, HasRoom, SegmentsFound, InReach, Finds, GoRam;
    l := PlanGo(im, cpus);
    if l.size > DOORBELL {
      return l, None;
    }
    GoIndexed(isa, im, cpus, l);
    if l.heap <= l.size {
      PlanFits(isa, im, cpus, l);
    }
    var layout := new Layout(l.spans);
    root := layout.BuildTables(isa, mem);
    forall va: nat | va < Space(isa)
      ensures root.Some? ==>
                var found := Walk(isa, mem[..], root.value, va);
                && Finds(isa, im, GoRam(l, va), va, found) && Reaches(im, va, found)
                && (l.heap <= l.size ==> Rings(isa, va, found))
                && (HasRoom(im, cpus) ==> Stacks(l, va, found))
    {
      GoReaches(isa, im, cpus, l, va);
    }
    if root.Some? {
      ReachExact(isa, im, mem[..], root.value);
    }
  }

  lemma GoIndexed(isa: Isa, im: Image, cpus: nat, l: Slot)
    requires Ascending(im) && PlannedGo(im, cpus, l) && im.end <= Indexed(isa) && l.size <= DOORBELL
    ensures Within(l.spans, Indexed(isa))
  {
    hide RoundUp;
    SegmentsApart(im);
    EndProper(im);
    RoundUpPage(im.end);
    CeilingBelow(im.end, Indexed(isa), RoundUp(im.end, PAGE), Indexed(isa));
  }

  /** Tables that are as a Go guest's spans say for every address up to its image's end there are only of an
      image whose segments end in the space that the tables' indices tell apart, which nothing checks. */
  lemma IndexedOnly(isa: Isa, im: Image, cpus: nat, l: Slot, mem: seq<byte>, root: nat)
    requires Ascending(im) && PlannedGo(im, cpus, l) && l.size <= DOORBELL
    requires forall va: nat | va < im.end :: Translate(isa, mem, root, Levels(isa), va) == Specified(isa, l.spans, va)
    ensures forall k :: 0 <= k < |im.loads| ==> Shown(im.loads[k]) ==> im.loads[k].End() <= Indexed(isa)
  {
    hide Translate, Specified, RoundUp, PermAt;
    if k :| 0 <= k < |im.loads| && Shown(im.loads[k]) && im.loads[k].End() > Indexed(isa) {
      assert im.loads[k] in im.loads;
      EndProper(im);
      GoSorted(im, cpus, l);
      var va := im.loads[k].End() - 1;
      InProgram(im, k, va);
      GoPermAt(im, cpus, l, va);
      PermAtPage(l.spans, va);
      NoTables(isa, mem, root, l.spans, va);
    }
  }

  // ----- images that are accepted, and whose segments are not found

  /** A page to execute at the base, and a page to write at an address. */
  function TwoPages(at: Word64): Image
    requires at < TWO_64 - PAGE
  {
    Image([Prog(true, IMAGE_BASE, IMAGE_BASE, PAGE, true, false, true), Prog(true, at, at, PAGE, true, true, false)],
          at + PAGE, 0, 1, 0)
  }

  lemma TwoPagesPlan(at: Word64, cpus: nat, l: Slot)
    requires at < TWO_64 - 2 * PAGE && at % PAGE == 0 && at >= DOORBELL + PAGE && PlannedGo(TwoPages(at), cpus, l)
    ensures Ascending(TwoPages(at)) && l.size == IMAGE_BASE + GO_RAM_BYTES && l.heap == at + PAGE
    ensures l.spans == [ARGS_SPAN, Span(IMAGE_BASE, IMAGE_BASE + PAGE, READ | EXEC), Span(at, at + PAGE, READ | WRITE),
                        Span(l.heap, l.size, READ | WRITE), DOORBELL_SPAN]
  {
    hide RoundUp;
    var im := TwoPages(at);
    var p, q := im.loads[0], im.loads[1];
    assert im.loads == [p, q] && p in im.loads && q in im.loads && q.End() == im.end;
    PageItself(IMAGE_BASE + PAGE);
    PageItself(at + PAGE);
    assert SegmentSpans(im.loads) == [SegmentSpan(p), SegmentSpan(q)];
  }

  lemma PageItself(v: nat)
    requires v % PAGE == 0 && v <= TWO_64 - PAGE
    ensures RoundUp(v, PAGE) == v
  {
    hide RoundUp;
    RoundUpPage(v);
  }

  lemma TwoPagesBlock(s: Span, at: nat, b: nat)
    requires at % BLOCK == 0 && at >= DOORBELL + BLOCK && b in Blocks(s)
    requires s in [ARGS_SPAN, Span(IMAGE_BASE, IMAGE_BASE + PAGE, READ | EXEC), Span(at, at + PAGE, READ | WRITE),
                   Span(at + PAGE, IMAGE_BASE + GO_RAM_BYTES, READ | WRITE), DOORBELL_SPAN]
    ensures b in {0, 1, at / BLOCK, DOORBELL / BLOCK}
  {
  }

  lemma TwoPagesPerms(at: Word64, cpus: nat, l: Slot)
    requires at < TWO_64 - 2 * PAGE && at % PAGE == 0 && at >= DOORBELL + PAGE && PlannedGo(TwoPages(at), cpus, l)
    ensures PermAt(l.spans, IMAGE_BASE) == READ | EXEC && PermAt(l.spans, at) == READ | WRITE
  {
    hide PermAt, PlannedGo, Ascending;
    TwoPagesPlan(at, cpus, l);
    PermFirst(l.spans, 1, IMAGE_BASE);
    PermFirst(l.spans, 2, at);
  }

  /** Its tables are few, wherever the second page is. */
  lemma TwoPagesFit(isa: Isa, at: Word64, cpus: nat, l: Slot)
    requires at < TWO_64 - 2 * PAGE && at % BLOCK == 0 && at >= DOORBELL + BLOCK && PlannedGo(TwoPages(at), cpus, l)
    ensures |Needed(Levels(isa), l.spans)| <= PageTree.TABLES
  {
    hide PlannedGo, Touched, Needed, Ascending, Levels;
    BlockPage(at);
    TwoPagesPlan(at, cpus, l);
    TwoPagesTouch(at, l.spans);
    NeededTouched(isa, l.spans);
  }

  lemma TwoPagesTouch(at: Word64, spans: seq<Span>)
    requires at % BLOCK == 0 && at >= DOORBELL + BLOCK
    requires spans == [ARGS_SPAN, Span(IMAGE_BASE, IMAGE_BASE + PAGE, READ | EXEC), Span(at, at + PAGE, READ | WRITE),
                       Span(at + PAGE, IMAGE_BASE + GO_RAM_BYTES, READ | WRITE), DOORBELL_SPAN]
    ensures |Touched(spans)| <= 4
  {
    hide Touched, Blocks;
    var four := {0, 1, at / BLOCK, DOORBELL / BLOCK};
    FourFew(0, 1, at / BLOCK, DOORBELL / BLOCK);
    Subset(Touched(spans), four) by {
      TwoPagesBlocks(at, spans);
    }
  }

  lemma BlockPage(at: nat)
    requires at % BLOCK == 0
    ensures at % PAGE == 0
  {
    assert at == PAGE * (512 * (at / BLOCK));
  }

  lemma FourFew(a: nat, b: nat, c: nat, d: nat)
    ensures |{a, b, c, d}| <= 4
  {
    UnionSize({a, b}, {c, d});
    assert {a, b, c, d} == {a, b} + {c, d};
  }

  lemma TwoPagesBlocks(at: Word64, spans: seq<Span>)
    requires at % BLOCK == 0 && at >= DOORBELL + BLOCK
    requires spans == [ARGS_SPAN, Span(IMAGE_BASE, IMAGE_BASE + PAGE, READ | EXEC), Span(at, at + PAGE, READ | WRITE),
                       Span(at + PAGE, IMAGE_BASE + GO_RAM_BYTES, READ | WRITE), DOORBELL_SPAN]
    ensures Touched(spans) <= {0, 1, at / BLOCK, DOORBELL / BLOCK}
  {
    hide Touched, Blocks;
    forall b | b in Touched(spans)
      ensures b in {0, 1, at / BLOCK, DOORBELL / BLOCK}
    {
      var i := TouchedSome(spans, b);
      TwoPagesBlock(spans[i], at, b);
    }
  }

  /** With the second page where the processor's space ends: the loader, the plan, the boot and the tables
      take the image, and the processor does not find that page. */
  lemma GoOutOfReach(isa: Isa, cpus: nat, l: Slot)
    requires PlannedGo(TwoPages(Space(isa)), cpus, l)
    ensures Ascending(TwoPages(Space(isa))) && Space(isa) + PAGE <= Indexed(isa)
    ensures l.size <= DOORBELL && |Needed(Levels(isa), l.spans)| <= PageTree.TABLES && !InReach(isa, TwoPages(Space(isa)))
  {
    TwoPagesPlan(Space(isa), cpus, l);
    TwoPagesFit(isa, Space(isa), cpus, l);
    assert Shown(TwoPages(Space(isa)).loads[1]);
  }

  /** With it where the tables' indices begin again: the loader, the plan and the boot's check take the image,
      and no tables give each of its pages its own. */
  lemma GoAliases(isa: Isa, cpus: nat, l: Slot, mem: seq<byte>, root: nat)
    requires PlannedGo(TwoPages(Indexed(isa) + IMAGE_BASE), cpus, l)
    ensures Ascending(TwoPages(Indexed(isa) + IMAGE_BASE)) && l.size <= DOORBELL
    ensures var other := Indexed(isa) + IMAGE_BASE;
            && PermAt(l.spans, IMAGE_BASE) == READ | EXEC && PermAt(l.spans, other) == READ | WRITE
            && Translate(isa, mem, root, Levels(isa), other) == Translate(isa, mem, root, Levels(isa), IMAGE_BASE)
            && !(&& Translate(isa, mem, root, Levels(isa), IMAGE_BASE) == Specified(isa, l.spans, IMAGE_BASE)
                 && Translate(isa, mem, root, Levels(isa), other) == Specified(isa, l.spans, other))
  {
    hide Translate, PermAt, PlannedGo, Ascending;
    var other := Indexed(isa) + IMAGE_BASE;
    TwoPagesPlan(other, cpus, l);
    TwoPagesPerms(other, cpus, l);
    StackPerms();
    Aliases(isa, mem, root, other, IMAGE_BASE);
  }
}
