/** The images that the monitor accepts, and the slots that it lays out around them
    (vmm/layout.go, vmm/tamago.go).  Addresses are 64 bits, and their arithmetic wraps.
 */
module Plan {
  import opened Wrappers
  import opened Bits
  import opened PageFormat
  import opened Spans
  import opened PageCount
  import opened PageTree

  const TWO_64: nat := 0x1_0000_0000_0000_0000

  type Word64 = x: nat | x < TWO_64

  /** In 64 bits. */
  function Wrapped(x: int): Word64 {
    x % TWO_64
  }

  const MAX_CPUS: nat := 32

  /** An ELF program header; `load` is PT_LOAD. */
  datatype Prog = Prog(load: bool, vaddr: Word64, paddr: Word64, memsz: Word64,
                       readable: bool, writable: bool, executable: bool)
  {
    function End(): Word64 {
      Wrapped(vaddr + memsz)
    }

    function Perms(): Perm {
      (if readable then READ else 0) | (if writable then WRITE else 0) | (if executable then EXEC else 0)
    }
  }

  /** Permissions that are a program header's flags, and nothing else. */
  predicate OwnPerms(q: Perm, p: Prog) {
    && (Has(q, READ) <==> p.readable) && (Has(q, WRITE) <==> p.writable) && (Has(q, EXEC) <==> p.executable)
    && !Has(q, DEVICE) && (q == 0 <==> !p.readable && !p.writable && !p.executable)
  }

  lemma PermsOwn(p: Prog)
    ensures OwnPerms(p.Perms(), p)
  {
    var r, w, x := if p.readable then READ else 0, if p.writable then WRITE else 0, if p.executable then EXEC else 0;
    assert p.Perms() == r | w | x;
  }

  /** An address on a page of a segment. */
  predicate OnSegment(p: Prog, va: nat) {
    p.vaddr <= va && va / PAGE * PAGE < p.End()
  }

  datatype Symbol = Symbol(name: string, value: Word64)

  /** An ELF file, and its symbols if it has a table of them. */
  datatype Elf = Elf(class64: bool, machine: nat, entry: Word64, progs: seq<Prog>, symbols: Option<seq<Symbol>>)

  datatype Image = Image(loads: seq<Prog>, end: Word64, entry: Word64, vectors: Word64, apEntry: Word64)

  datatype ImageError = WrongMachine | Misplaced(vaddr: nat) | NothingToLoad | NoSymbols | NoVectors

  /** A segment the monitor can map: page-aligned, above its own areas, at its physical address. */
  predicate Placed(p: Prog) {
    p.vaddr >= IMAGE_BASE && p.vaddr % PAGE == 0 && p.paddr == p.vaddr
  }

  predicate Loadable(p: Prog) {
    p.load && p.memsz != 0
  }

  function Loads(progs: seq<Prog>): seq<Prog> {
    if progs == [] then []
    else if Loadable(progs[|progs| - 1]) then Loads(progs[..|progs| - 1]) + [progs[|progs| - 1]]
    else Loads(progs[..|progs| - 1])
  }

  ghost predicate IsEnd(loads: seq<Prog>, end: nat) {
    && (forall p :: p in loads ==> p.End() <= end)
    && (loads != [] ==> exists p :: p in loads && p.End() == end)
  }

  /** The last symbol of a name, or zero. */
  function ValueOf(symbols: seq<Symbol>, name: string): Word64 {
    if symbols == [] then 0
    else if symbols[|symbols| - 1].name == name then symbols[|symbols| - 1].value
    else ValueOf(symbols[..|symbols| - 1], name)
  }

  const VECTORS: string := "whim_vectors"
  const AP_ENTRY: string := "whim_apentry"

  /** What loadImage asks of a file. */
  predicate Acceptable(f: Elf, machine: nat) {
    && f.class64 && f.machine == machine
    && Loads(f.progs) != [] && (forall p :: p in Loads(f.progs) ==> Placed(p))
    && f.symbols.Some? && ValueOf(f.symbols.value, VECTORS) != 0
  }

  /** loadImage: a file is taken exactly when it is acceptable. */
  method LoadImage(f: Elf, machine: nat) returns (r: Result<Image, ImageError>)
    ensures r.Ok? <==> Acceptable(f, machine)
    ensures r.Ok? ==>
              var im := r.value;
              && im.loads == Loads(f.progs) && IsEnd(im.loads, im.end) && im.entry == f.entry
              && im.vectors == ValueOf(f.symbols.value, VECTORS) && im.apEntry == ValueOf(f.symbols.value, AP_ENTRY)
    ensures r.Err? && r.error.NothingToLoad? ==> Loads(f.progs) == []
  {
    if !f.class64 || f.machine != machine {
      return Err(WrongMachine);
    }
    var segments := LoadSegments(f.progs);
    if segments.Err? {
      return Err(segments.error);
    }
    if f.symbols.None? {
      return Err(NoSymbols);
    }
    var vectors, apEntry := FindSymbols(f.symbols.value);
    if vectors == 0 {
      return Err(NoVectors);
    }
    r := Ok(Image(segments.value.0, segments.value.1, f.entry, vectors, apEntry));
  }

  /** loadImage's segments, and the furthest end. */
  method LoadSegments(progs: seq<Prog>) returns (r: Result<(seq<Prog>, Word64), ImageError>)
    ensures r.Ok? <==> Loads(progs) != [] && forall p :: p in Loads(progs) ==> Placed(p)
    ensures r.Ok? ==> r.value.0 == Loads(progs) && IsEnd(r.value.0, r.value.1)
    ensures r.Err? && r.error.NothingToLoad? ==> Loads(progs) == []
  {
    var loads: seq<Prog>, end: Word64, i := [], 0, 0;
    while i < |progs|
      invariant 0 <= i <= |progs|
      invariant loads == Loads(progs[..i]) && IsEnd(loads, end) && (loads == [] ==> end == 0)
      invariant forall p :: p in loads ==> Placed(p)
    {
      var p := progs[i];
      assert progs[..i + 1][..i] == progs[..i];
      i := i + 1;
      if !p.load || p.memsz == 0 {
        continue;
      }
      if p.vaddr < IMAGE_BASE || p.vaddr % PAGE != 0 || p.paddr != p.vaddr {
        LoadsPrefix(progs, i);
        assert p in Loads(progs[..i]);
        return Err(Misplaced(p.vaddr));
      }
      ghost var before := loads;
      loads := loads + [p];
      ExtendEnd(before, end, p);
      end := if p.End() > end then p.End() else end;
    }
    assert progs[..i] == progs;
    if |loads| == 0 {
      return Err(NothingToLoad);
    }
    r := Ok((loads, end));
  }

  /** The loop over the symbols for the two that the monitor needs. */
  method FindSymbols(symbols: seq<Symbol>) returns (vectors: Word64, apEntry: Word64)
    ensures vectors == ValueOf(symbols, VECTORS) && apEntry == ValueOf(symbols, AP_ENTRY)
  {
    vectors, apEntry := 0, 0;
    for i := 0 to |symbols|
      invariant vectors == ValueOf(symbols[..i], VECTORS) && apEntry == ValueOf(symbols[..i], AP_ENTRY)
    {
      assert symbols[..i + 1][..i] == symbols[..i];
      var s := symbols[i];
      if s.name == VECTORS {
        vectors := s.value;
      } else if s.name == AP_ENTRY {
        apEntry := s.value;
      }
    }
    assert symbols[..|symbols|] == symbols;
  }

  lemma ExtendEnd(loads: seq<Prog>, end: nat, p: Prog)
    requires IsEnd(loads, end) && (loads == [] ==> end == 0)
    ensures IsEnd(loads + [p], if p.End() > end then p.End() else end)
  {
    assert p in loads + [p];
    if loads != [] {
      var q :| q in loads && q.End() == end;
      assert q in loads + [p];
    }
  }

  lemma {:induction false} LoadsPrefix(progs: seq<Prog>, i: nat)
    requires i <= |progs|
    ensures forall p :: p in Loads(progs[..i]) ==> p in Loads(progs)
    decreases |progs|
  {
    if i < |progs| {
      var shorter := progs[..|progs| - 1];
      LoadsPrefix(shorter, i);
      assert shorter[..i] == progs[..i];
    } else {
      assert progs[..i] == progs;
    }
  }

  /** The segments to load are the program's with PT_LOAD and a size, each as often and in its order. */
  lemma {:induction false} LoadsJoin(a: seq<Prog>, b: seq<Prog>)
    ensures Loads(a + b) == Loads(a) + Loads(b)
    decreases |b|
  {
    if b == [] {
      assert a + b == a;
    } else {
      var last := |b| - 1;
      assert (a + b)[..|a + b| - 1] == a + b[..last];
      LoadsJoin(a, b[..last]);
    }
  }

  lemma LoadsOne(p: Prog)
    ensures Loads([p]) == if p.load && p.memsz > 0 then [p] else []
  {
    assert [p][..0] == [];
  }

  /** A symbol's value is its last one, and zero if there is none. */
  lemma {:induction false} ValueLast(symbols: seq<Symbol>, name: string, i: nat)
    requires i <= |symbols| && forall j :: i < j < |symbols| ==> symbols[j].name != name
    ensures i < |symbols| && symbols[i].name == name ==> ValueOf(symbols, name) == symbols[i].value
    ensures (forall j :: 0 <= j < |symbols| ==> symbols[j].name != name) ==> ValueOf(symbols, name) == 0
  {
    if symbols != [] && symbols[|symbols| - 1].name != name {
      var shorter := symbols[..|symbols| - 1];
      ValueLast(shorter, name, if i < |symbols| - 1 then i else |symbols| - 1);
    }
  }

  // ----- rounding

  /** roundUp(v, a), for a power of two a: at the top of the address space it wraps to zero. */
  function RoundUp(v: nat, a: nat): nat
    requires a > 0
  {
    AndNot(Wrapped(v + a - 1), a - 1)
  }

  predicate IsCeiling(v: nat, a: nat, r: nat)
    requires a > 0
  {
    v <= r < v + a && r % a == 0
  }

  lemma RoundUpPage(v: nat)
    requires v <= TWO_64 - PAGE
    ensures IsCeiling(v, PAGE, RoundUp(v, PAGE))
  {
    hide AndNot;
    Pow2At12();
    AndNotOnes(v + PAGE - 1, 12);
    PageCeiling(v);
  }

  lemma PageCeiling(v: nat)
    ensures IsCeiling(v, PAGE, v + 0xfff - (v + 0xfff) % 0x1000)
  {
  }

  lemma RoundUpBlock(v: nat)
    requires v <= TWO_64 - BLOCK
    ensures IsCeiling(v, BLOCK, RoundUp(v, BLOCK))
  {
    hide AndNot;
    Pow2At21();
    AndNotOnes(v + BLOCK - 1, 21);
    BlockCeiling(v);
  }

  lemma BlockCeiling(v: nat)
    ensures IsCeiling(v, BLOCK, v + 0x1f_ffff - (v + 0x1f_ffff) % 0x20_0000)
  {
  }

  // ----- the two layouts

  datatype Slot = Slot(spans: seq<Span>, stackTop: nat, faultTop: nat, heap: nat, size: nat, cpus: nat) {
    /** The top of vCPU i's fault stack. */
    function FaultTopOf(i: nat): int {
      faultTop - i * FAULT_STACK_BYTES
    }
  }

  function SegmentSpan(p: Prog): Span {
    Span(p.vaddr, RoundUp(p.End(), PAGE), p.Perms())
  }

  function SegmentSpans(loads: seq<Prog>): seq<Span> {
    seq(|loads|, i requires 0 <= i < |loads| => SegmentSpan(loads[i]))
  }

  const ARGS_SPAN: Span := Span(SYS_BASE, ARGS_END, READ | WRITE)
  const DOORBELL_SPAN: Span := Span(DOORBELL, DOORBELL + PAGE, WRITE | DEVICE)

  /** The C guest's spans: the image, a guard page above it, the stacks, the heap. */
  function CSpans(im: Image, stackLo: nat, faultTop: nat, heap: nat, size: nat): seq<Span> {
    [ARGS_SPAN] + SegmentSpans(im.loads)
    + [Span(stackLo, faultTop, READ | WRITE), Span(heap, size, READ | WRITE), DOORBELL_SPAN]
  }

  /** The Go guest's spans: the image, and one range for the rest. */
  function GoSpans(im: Image, heap: nat, size: nat): seq<Span> {
    [ARGS_SPAN] + SegmentSpans(im.loads) + [Span(heap, size, READ | WRITE), DOORBELL_SPAN]
  }

  /** The C guest's slot. */
  ghost predicate PlannedC(im: Image, cpus: nat, l: Slot) {
    var stackLo := Wrapped(RoundUp(im.end, BLOCK) + PAGE);
    && cpus <= MAX_CPUS && l.cpus == cpus
    && l.stackTop == Wrapped(stackLo + STACK_BYTES)
    && l.faultTop == Wrapped(l.stackTop + cpus * FAULT_STACK_BYTES)
    && l.heap == RoundUp(l.faultTop, BLOCK) && l.size == Wrapped(l.heap + HEAP_BYTES)
    && l.spans == CSpans(im, stackLo, l.faultTop, l.heap, l.size)
  }

  /** The Go guest's slot: its RAM ends below 2^64, since its base is not above the doorbell. */
  ghost predicate PlannedGo(im: Image, cpus: nat, l: Slot) {
    && cpus <= MAX_CPUS && l.cpus == cpus
    && l.heap == RoundUp(im.end, PAGE) && l.faultTop == l.size
    && l.stackTop == l.size - cpus * FAULT_STACK_BYTES
    && l.size >= GO_RAM_BYTES && IsBase(im.loads, l.size - GO_RAM_BYTES)
    && l.spans == GoSpans(im, l.heap, l.size)
  }

  /** plan, of as many vCPUs as the monitor gives. */
  method PlanC(im: Image, cpus: nat) returns (l: Slot)
    requires cpus <= MAX_CPUS
    ensures PlannedC(im, cpus, l)
  {
    hide RoundUp;
    var spans := [ARGS_SPAN];
    var i := 0;
    while i < |im.loads|
      invariant 0 <= i <= |im.loads|
      invariant spans == [ARGS_SPAN] + SegmentSpans(im.loads)[..i]
    {
      spans := spans + [SegmentSpan(im.loads[i])];
      i := i + 1;
    }
    var guard := RoundUp(im.end, BLOCK);
    var stackLo := Wrapped(guard + PAGE);
    var stackTop := Wrapped(stackLo + STACK_BYTES);
    var faultTop := Wrapped(stackTop + cpus * FAULT_STACK_BYTES);
    spans := spans + [Span(stackLo, faultTop, READ | WRITE)];
    var heap := RoundUp(faultTop, BLOCK);
    var size := Wrapped(heap + HEAP_BYTES);
    spans := spans + [Span(heap, size, READ | WRITE)];
    spans := spans + [DOORBELL_SPAN];
    l := Slot(spans, stackTop, faultTop, heap, size, cpus);
  }

  ghost predicate IsBase(loads: seq<Prog>, base: nat) {
    && base <= DOORBELL && (forall p :: p in loads ==> base <= p.vaddr)
    && (base == DOORBELL || exists p :: p in loads && p.vaddr == base)
  }

  /** planGo, of as many vCPUs as the monitor gives. */
  method PlanGo(im: Image, cpus: nat) returns (l: Slot)
    requires cpus <= MAX_CPUS
    ensures PlannedGo(im, cpus, l)
  {
    var spans := [ARGS_SPAN];
    var base: nat := DOORBELL;
    var i := 0;
    while i < |im.loads|
      invariant 0 <= i <= |im.loads|
      invariant spans == [ARGS_SPAN] + SegmentSpans(im.loads)[..i]
      invariant IsBase(im.loads[..i], base)
    {
      var p := im.loads[i];
      spans := spans + [SegmentSpan(p)];
      LowerBase(im.loads[..i], base, p);
      base := if p.vaddr < base then p.vaddr else base;
      i := i + 1;
      assert im.loads[..i] == im.loads[..i - 1] + [p];
    }
    assert im.loads[..i] == im.loads;
    var heap := RoundUp(im.end, PAGE);
    var size := base + GO_RAM_BYTES;
    spans := spans + [Span(heap, size, READ | WRITE)];
    spans := spans + [DOORBELL_SPAN];
    l := Slot(spans, size - cpus * FAULT_STACK_BYTES, size, heap, size, cpus);
  }

  lemma LowerBase(loads: seq<Prog>, base: nat, p: Prog)
    requires IsBase(loads, base)
    ensures IsBase(loads + [p], if p.vaddr < base then p.vaddr else base)
  {
    assert p in loads + [p];
    if base != DOORBELL {
      var q :| q in loads && q.vaddr == base;
      assert q in loads + [p];
    }
  }

  // ----- what holds of a planned slot

  /** Each span ends before the next begins. */
  predicate Sorted(spans: seq<Span>) {
    && (forall i :: 0 <= i < |spans| ==> spans[i].lo <= spans[i].hi)
    && (forall i, j :: 0 <= i < j < |spans| ==> spans[i].hi <= spans[j].lo)
  }

  /** A segment that ends in the address space, and its last page too. */
  predicate Proper(p: Prog) {
    p.vaddr + p.memsz <= TWO_64 - PAGE
  }

  /** The loader takes any segment that is placed; its span is one to map exactly when it ends there. */
  lemma SegmentExact(p: Prog)
    requires Placed(p) && p.memsz > 0
    ensures SegmentSpan(p).lo < SegmentSpan(p).hi <==> Proper(p)
  {
    hide RoundUp;
    var sum := p.vaddr + p.memsz;
    if sum >= TWO_64 {
      RoundedBelow(p.End(), p.vaddr);
    } else if Proper(p) {
      RoundUpPage(sum);
    } else {
      RoundsToZero(sum);
    }
  }

  lemma RoundedBelow(e: nat, v: nat)
    requires e < v < TWO_64 && v % PAGE == 0
    ensures RoundUp(e, PAGE) <= v
  {
    hide RoundUp;
    RoundUpPage(e);
    CeilingBelow(e, v, RoundUp(e, PAGE), v);
  }

  /** In the last page of the address space a ceiling wraps. */
  lemma RoundsToZero(v: nat)
    requires TWO_64 - PAGE < v < TWO_64
    ensures RoundUp(v, PAGE) == 0
  {
    hide AndNot;
    Pow2At12();
    AndNotOnes(v + PAGE - 1 - TWO_64, 12);
  }

  /** An image whose segments follow one another and end in the address space. */
  ghost predicate Ascending(im: Image) {
    && im.loads != [] && IsEnd(im.loads, im.end)
    && (forall p :: p in im.loads ==> Placed(p) && p.memsz > 0 && Proper(p))
    && (forall i, j :: 0 <= i < j < |im.loads| ==> im.loads[i].End() <= im.loads[j].vaddr)
  }

  lemma EndProper(im: Image)
    requires Ascending(im)
    ensures IMAGE_BASE < im.end <= TWO_64 - PAGE
    ensures forall p :: p in im.loads ==> p.End() == p.vaddr + p.memsz
  {
    var p :| p in im.loads && p.End() == im.end;
  }

  /** In sorted spans, the permission of an address is its span's. */
  lemma {:induction false} PermInSpan(spans: seq<Span>, i: nat, va: nat)
    requires Sorted(spans) && i < |spans| && spans[i].lo <= va < spans[i].hi
    ensures PermAt(spans, va) == spans[i].p
  {
    if i > 0 {
      assert spans[0].hi <= spans[i].lo;
      PermInSpan(spans[1..], i - 1, va);
    }
  }

  lemma {:induction false} PermOutside(spans: seq<Span>, va: nat)
    requires forall i :: 0 <= i < |spans| ==> !(spans[i].lo <= va < spans[i].hi)
    ensures PermAt(spans, va) == 0
  {
    if spans != [] {
      assert !(spans[0].lo <= va < spans[0].hi);
      PermOutside(spans[1..], va);
    }
  }

  /** The segments' spans, rounded to pages, stay apart, above the tables and below the image's end. */
  lemma SegmentsApart(im: Image)
    requires Ascending(im)
    ensures Sorted(SegmentSpans(im.loads)) && PageAligned(SegmentSpans(im.loads))
    ensures forall i :: 0 <= i < |im.loads| ==>
              && IMAGE_BASE <= SegmentSpans(im.loads)[i].lo < SegmentSpans(im.loads)[i].hi <= RoundUp(im.end, PAGE)
  {
    hide RoundUp;
    EndProper(im);
    RoundUpPage(im.end);
    forall i | 0 <= i < |im.loads|
      ensures var s := SegmentSpans(im.loads)[i];
              && IMAGE_BASE <= s.lo < s.hi <= RoundUp(im.end, PAGE) && s.lo % PAGE == 0 && s.hi % PAGE == 0
    {
      var p := im.loads[i];
      assert p in im.loads;
      RoundUpPage(p.End());
      CeilingBelow(p.End(), im.end, RoundUp(p.End(), PAGE), RoundUp(im.end, PAGE));
    }
    forall i, j | 0 <= i < j < |im.loads|
      ensures SegmentSpans(im.loads)[i].hi <= SegmentSpans(im.loads)[j].lo
    {
      RoundUpPage(im.loads[i].End());
      assert im.loads[j] in im.loads;
      CeilingBelow(im.loads[i].End(), im.loads[j].vaddr, RoundUp(im.loads[i].End(), PAGE), im.loads[j].vaddr);
    }
  }

  lemma CeilingBelow(v: nat, w: nat, r: nat, s: nat)
    requires IsCeiling(v, PAGE, r) && w <= s && s % PAGE == 0 && v <= w
    ensures r <= s
  {
  }

  /** The fault stack of vCPU i. */
  predicate InFaultStack(l: Slot, i: nat, va: nat) {
    l.FaultTopOf(i) - FAULT_STACK_BYTES <= va < l.FaultTopOf(i)
  }

  lemma Joined(a: seq<Span>, b: seq<Span>, limit: nat)
    requires Sorted(a) && Sorted(b)
    requires forall i :: 0 <= i < |a| ==> a[i].hi <= limit
    requires forall j :: 0 <= j < |b| ==> limit <= b[j].lo
    ensures Sorted(a + b)
  {
  }

  /** The C guest's spans follow one another exactly when the slot ends below the doorbell, and the image
      does: of an image at the top of the address space the slot's end wraps. */
  lemma CSorted(im: Image, cpus: nat, l: Slot)
    requires Ascending(im) && PlannedC(im, cpus, l)
    ensures Sorted(l.spans) <==> im.end <= DOORBELL && l.size <= DOORBELL
    ensures im.end <= DOORBELL ==> PageAligned(l.spans)
  {
    hide RoundUp, Sorted, PageAligned;
    if im.end <= DOORBELL {
      hide Ascending;
      var guard := RoundUp(im.end, BLOCK);
      CExact(im, cpus, l);
      EndBelowGuard(im.end);
      BlocksArePages(guard, l.faultTop, l.heap, cpus);
      CSpansSorted(im, guard, l.faultTop, l.heap, l.size);
    } else {
      CSegments(im, cpus, l);
      SortedBelow(im, l.spans);
    }
  }

  lemma CSegments(im: Image, cpus: nat, l: Slot)
    requires PlannedC(im, cpus, l)
    ensures |l.spans| >= 2 + |im.loads| && l.spans[|l.spans| - 1] == DOORBELL_SPAN
    ensures l.spans[1..1 + |im.loads|] == SegmentSpans(im.loads)
  {
    hide RoundUp;
  }

  /** In a sorted plan the image ends below the doorbell. */
  lemma SortedBelow(im: Image, spans: seq<Span>)
    requires Ascending(im) && |spans| >= 2 + |im.loads|
    requires spans[1..1 + |im.loads|] == SegmentSpans(im.loads) && spans[|spans| - 1] == DOORBELL_SPAN
    ensures Sorted(spans) ==> im.end <= DOORBELL
  {
    hide RoundUp;
    var p :| p in im.loads && p.End() == im.end;
    var i :| 0 <= i < |im.loads| && im.loads[i] == p;
    EndProper(im);
    RoundUpPage(im.end);
    assert spans[i + 1] == SegmentSpans(im.loads)[i];
  }

  /** Of an image below the doorbell nothing wraps. */
  lemma CExact(im: Image, cpus: nat, l: Slot)
    requires PlannedC(im, cpus, l) && im.end <= DOORBELL
    ensures var guard := RoundUp(im.end, BLOCK);
            && IsCeiling(im.end, BLOCK, guard) && IsCeiling(l.faultTop, BLOCK, l.heap)
            && l.stackTop == guard + PAGE + STACK_BYTES && l.faultTop == l.stackTop + cpus * FAULT_STACK_BYTES
            && l.size == l.heap + HEAP_BYTES && l.spans == CSpans(im, guard + PAGE, l.faultTop, l.heap, l.size)
  {
    hide RoundUp;
    RoundUpBlock(im.end);
    RoundUpBlock(l.faultTop);
  }

  /** An image of one page near the top of the address space, which the loader takes and whose slot is below
      the doorbell: its stack and heap are planned below it. */
  lemma CWraps(l: Slot)
    requires var p := Prog(true, TWO_64 - 2 * PAGE, TWO_64 - 2 * PAGE, PAGE, true, false, true);
             PlannedC(Image([p], TWO_64 - PAGE, 0, 1, 0), 1, l)
    ensures var p := Prog(true, TWO_64 - 2 * PAGE, TWO_64 - 2 * PAGE, PAGE, true, false, true);
            Ascending(Image([p], TWO_64 - PAGE, 0, 1, 0))
    ensures l.size <= DOORBELL && !Sorted(l.spans)
  {
    hide RoundUp, Sorted;
    var p := Prog(true, TWO_64 - 2 * PAGE, TWO_64 - 2 * PAGE, PAGE, true, false, true);
    var im := Image([p], TWO_64 - PAGE, 0, 1, 0);
    assert p in im.loads && p.End() == im.end;
    assert Ascending(im);
    hide Ascending, PlannedC;
    WrappedSize(im, l);
    CSorted(im, 1, l);
  }

  lemma WrappedSize(im: Image, l: Slot)
    requires im.end == TWO_64 - PAGE && PlannedC(im, 1, l)
    ensures l.size <= DOORBELL
  {
    hide RoundUp, CSpans;
    BlockWraps(im.end);
    assert l.faultTop == PAGE + STACK_BYTES + FAULT_STACK_BYTES;
    RoundUpBlock(l.faultTop);
  }

  lemma BlockWraps(v: nat)
    requires TWO_64 - BLOCK < v < TWO_64
    ensures RoundUp(v, BLOCK) == 0
  {
    hide AndNot;
    Pow2At21();
    AndNotOnes(v + BLOCK - 1 - TWO_64, 21);
  }

  lemma CSpansSorted(im: Image, guard: nat, faultTop: nat, heap: nat, size: nat)
    requires Ascending(im) && RoundUp(im.end, PAGE) <= guard && guard + PAGE <= faultTop <= heap
    requires guard % PAGE == 0 && faultTop % PAGE == 0 && heap % PAGE == 0 && size == heap + HEAP_BYTES
    ensures Sorted(CSpans(im, guard + PAGE, faultTop, heap, size)) <==> size <= DOORBELL
    ensures PageAligned(CSpans(im, guard + PAGE, faultTop, heap, size))
  {
    hide RoundUp;
    SegmentsApart(im);
    var low := [ARGS_SPAN] + SegmentSpans(im.loads);
    var top := [Span(guard + PAGE, faultTop, READ | WRITE), Span(heap, size, READ | WRITE), DOORBELL_SPAN];
    var spans := CSpans(im, guard + PAGE, faultTop, heap, size);
    assert spans == low + top;
    assert spans[|low| + 1] == top[1] && spans[|low| + 2] == top[2];
    Joined([ARGS_SPAN], SegmentSpans(im.loads), IMAGE_BASE);
    TopSorted(guard, faultTop, heap, size);
    assert IMAGE_BASE <= SegmentSpans(im.loads)[0].lo < guard;
    hide Ascending, CSpans;
    if size <= DOORBELL {
      forall i | 0 <= i < |low|
        ensures low[i].hi <= guard
      {
        assert i > 0 ==> low[i] == SegmentSpans(im.loads)[i - 1];
      }
      Joined(low, top, guard);
    }
    JoinedAligned(low, top);
  }

  lemma TopSorted(guard: nat, faultTop: nat, heap: nat, size: nat)
    requires guard + PAGE <= faultTop <= heap && size == heap + HEAP_BYTES
    requires guard % PAGE == 0 && faultTop % PAGE == 0 && heap % PAGE == 0
    ensures var top := [Span(guard + PAGE, faultTop, READ | WRITE), Span(heap, size, READ | WRITE), DOORBELL_SPAN];
            PageAligned(top) && (size <= DOORBELL ==> Sorted(top))
  {
  }

  lemma JoinedAligned(a: seq<Span>, b: seq<Span>)
    requires PageAligned(a) && PageAligned(b)
    ensures PageAligned(a + b)
  {
  }

  lemma EndBelowGuard(end: nat)
    requires end <= TWO_64 - BLOCK
    ensures RoundUp(end, PAGE) <= RoundUp(end, BLOCK)
  {
    hide RoundUp;
    RoundUpPage(end);
    RoundUpBlock(end);
    BlockIsPages(RoundUp(end, BLOCK));
    CeilingBelow(end, RoundUp(end, BLOCK), RoundUp(end, PAGE), RoundUp(end, BLOCK));
  }

  lemma BlockIsPages(x: nat)
    requires x % BLOCK == 0
    ensures x % PAGE == 0
  {
    assert x == 0x1000 * (x / BLOCK * 512);
  }

  lemma BlocksArePages(guard: nat, faultTop: nat, heap: nat, cpus: nat)
    requires guard % BLOCK == 0 && heap % BLOCK == 0
    requires faultTop == guard + PAGE + STACK_BYTES + cpus * FAULT_STACK_BYTES
    ensures guard % PAGE == 0 && faultTop % PAGE == 0 && heap % PAGE == 0
  {
    BlockIsPages(guard);
    BlockIsPages(heap);
    PagesMore(guard, 1 + 0x4000 + 16 * cpus);
  }

  lemma PagesMore(x: nat, k: nat)
    requires x % PAGE == 0
    ensures (x + 0x1000 * k) % PAGE == 0
  {
  }

  /** The C guest's slot: what must not be mapped is not, and every vCPU has a fault stack of its own. */
  lemma CSafe(im: Image, cpus: nat, l: Slot, va: nat)
    requires Ascending(im) && PlannedC(im, cpus, l) && im.end <= DOORBELL && l.size <= DOORBELL
    ensures va < SYS_BASE ==> PermAt(l.spans, va) == 0
    ensures TABLES_BASE <= va < TABLES_END ==> PermAt(l.spans, va) == 0
    ensures RoundUp(im.end, BLOCK) <= va < RoundUp(im.end, BLOCK) + PAGE ==> PermAt(l.spans, va) == 0
    ensures forall i :: 0 <= i < cpus && InFaultStack(l, i, va) ==> l.stackTop <= va && PermAt(l.spans, va) == READ | WRITE
    ensures forall i, j :: 0 <= i < j < cpus ==> !(InFaultStack(l, i, va) && InFaultStack(l, j, va))
  {
    hide RoundUp;
    var guard, n := RoundUp(im.end, BLOCK), |im.loads|;
    CSorted(im, cpus, l);
    CExact(im, cpus, l);
    SegmentsApart(im);
    EndBelowGuard(im.end);
    if va < SYS_BASE || TABLES_BASE <= va < TABLES_END || guard <= va < guard + PAGE {
      forall i | 0 <= i < |l.spans|
        ensures !(l.spans[i].lo <= va < l.spans[i].hi)
      {
        assert l.spans[n + 1] == Span(guard + PAGE, l.faultTop, READ | WRITE);
        if 1 <= i < n + 1 {
          assert l.spans[i] == SegmentSpans(im.loads)[i - 1];
        }
      }
      PermOutside(l.spans, va);
    }
    StackOf(l.spans, n + 1, l, va);
  }

  /** The fault stacks lie one under another below faultTop, in span k. */
  lemma StackOf(spans: seq<Span>, k: nat, l: Slot, va: nat)
    requires Sorted(spans) && k < |spans| && spans[k].lo <= l.stackTop && spans[k].hi == l.faultTop
    requires l.stackTop == l.faultTop - l.cpus * FAULT_STACK_BYTES
    ensures forall i :: 0 <= i < l.cpus && InFaultStack(l, i, va) ==> l.stackTop <= va && PermAt(spans, va) == spans[k].p
    ensures forall i, j :: 0 <= i < j < l.cpus ==> !(InFaultStack(l, i, va) && InFaultStack(l, j, va))
  {
    if spans[k].lo <= va < spans[k].hi {
      PermInSpan(spans, k, va);
    }
  }

  /** The Go guest's spans follow one another exactly when the image ends within its RAM and the RAM
      below the doorbell; the plan itself checks neither, and the boot only the second. */
  lemma GoSorted(im: Image, cpus: nat, l: Slot)
    requires Ascending(im) && PlannedGo(im, cpus, l)
    ensures Sorted(l.spans) <==> l.heap <= l.size <= DOORBELL
    ensures l.size <= DOORBELL ==> PageAligned(l.spans)
  {
    hide RoundUp;
    EndProper(im);
    RoundUpPage(im.end);
    SegmentsApart(im);
    var top := [Span(l.heap, l.size, READ | WRITE), DOORBELL_SPAN];
    Joined([ARGS_SPAN], SegmentSpans(im.loads), IMAGE_BASE);
    var n := |im.loads|;
    assert l.spans[n + 1] == top[0] && l.spans[n + 2] == DOORBELL_SPAN;
    if l.heap <= l.size <= DOORBELL {
      assert Sorted(top);
      Joined([ARGS_SPAN] + SegmentSpans(im.loads), top, l.heap);
    }
    if l.size <= DOORBELL {
      var p :| p in im.loads && p.vaddr == l.size - GO_RAM_BYTES;
      assert Placed(p);
      GoTopAligned(p.vaddr);
    }
  }

  lemma GoTopAligned(base: nat)
    requires base % PAGE == 0
    ensures (base + GO_RAM_BYTES) % PAGE == 0
  {
  }

  /** An image that the loader and the boot take, and whose Go layout is upside down. */
  lemma GoOverflows(cpus: nat, l: Slot)
    requires var p := Prog(true, IMAGE_BASE, IMAGE_BASE, 0xd000_0000, true, true, false);
             PlannedGo(Image([p], 0xd020_0000, 0, 1, 0), cpus, l)
    ensures var p := Prog(true, IMAGE_BASE, IMAGE_BASE, 0xd000_0000, true, true, false);
            Ascending(Image([p], 0xd020_0000, 0, 1, 0))
    ensures l.size <= DOORBELL && l.size < l.heap && !Sorted(l.spans)
  {
    var p := Prog(true, IMAGE_BASE, IMAGE_BASE, 0xd000_0000, true, true, false);
    var im := Image([p], 0xd020_0000, 0, 1, 0);
    assert p in im.loads && p.End() == im.end;
    RoundUpPage(im.end);
    GoSorted(im, cpus, l);
  }

  // ----- what the Go guest's plan gives an address

  predicate InSegment(im: Image, k: nat, va: nat)
    requires k < |im.loads|
  {
    SegmentSpan(im.loads[k]).lo <= va < SegmentSpan(im.loads[k]).hi
  }

  lemma {:induction false} PermAtJoin(a: seq<Span>, b: seq<Span>, va: nat)
    ensures (exists i :: 0 <= i < |a| && a[i].lo <= va < a[i].hi) ==> PermAt(a + b, va) == PermAt(a, va)
    ensures !(exists i :: 0 <= i < |a| && a[i].lo <= va < a[i].hi) ==> PermAt(a + b, va) == PermAt(b, va)
  {
    if a == [] {
      assert a + b == b;
    } else {
      assert (a + b)[1..] == a[1..] + b;
      PermAtJoin(a[1..], b, va);
      if i :| 0 <= i < |a| && a[i].lo <= va < a[i].hi && i > 0 {
        assert a[1..][i - 1] == a[i];
      }
    }
  }

  lemma InLow(im: Image, va: nat)
    requires Ascending(im) && va >= ARGS_END
    ensures var low := [ARGS_SPAN] + SegmentSpans(im.loads);
            (exists i :: 0 <= i < |low| && low[i].lo <= va < low[i].hi)
            <==> exists k :: 0 <= k < |im.loads| && InSegment(im, k, va)
  {
    hide RoundUp;
    var low := [ARGS_SPAN] + SegmentSpans(im.loads);
    if k :| 0 <= k < |im.loads| && InSegment(im, k, va) {
      assert low[k + 1] == SegmentSpan(im.loads[k]);
    } else {
      forall i | 0 <= i < |low|
        ensures !(low[i].lo <= va < low[i].hi)
      {
        if i > 0 {
          assert low[i] == SegmentSpan(im.loads[i - 1]) && !InSegment(im, i - 1, va);
        }
      }
    }
  }

  lemma GoJoin(im: Image, cpus: nat, l: Slot, va: nat)
    requires Ascending(im) && PlannedGo(im, cpus, l) && va >= ARGS_END
    ensures PermAt(l.spans, va) ==
            if exists k :: 0 <= k < |im.loads| && InSegment(im, k, va) then PermAt([ARGS_SPAN] + SegmentSpans(im.loads), va)
            else PermAt([Span(l.heap, l.size, READ | WRITE), DOORBELL_SPAN], va)
  {
    hide RoundUp, PermAt, InSegment;
    var low, top := [ARGS_SPAN] + SegmentSpans(im.loads), [Span(l.heap, l.size, READ | WRITE), DOORBELL_SPAN];
    assert l.spans == low + top;
    InLow(im, va);
    PermAtJoin(low, top, va);
  }

  /** An address above the monitor's areas has its segment's permissions, whatever the rest of the plan
      is; another is read-write in the RAM above the image, a device to write at the doorbell, and else
      unmapped. */
  lemma GoPermAt(im: Image, cpus: nat, l: Slot, va: nat)
    requires Ascending(im) && PlannedGo(im, cpus, l) && va >= ARGS_END
    ensures forall k :: 0 <= k < |im.loads| && InSegment(im, k, va) ==>
              PermAt(l.spans, va) == im.loads[k].Perms() && OwnPerms(PermAt(l.spans, va), im.loads[k])
    ensures !(exists k :: 0 <= k < |im.loads| && InSegment(im, k, va)) ==>
              PermAt(l.spans, va) == if l.heap <= va < l.size then READ | WRITE
                                     else if DOORBELL <= va < DOORBELL + PAGE then WRITE | DEVICE else 0
  {
    hide RoundUp;
    GoJoin(im, cpus, l, va);
    if k :| 0 <= k < |im.loads| && InSegment(im, k, va) {
      hide PermAt;
      var low := [ARGS_SPAN] + SegmentSpans(im.loads);
      SegmentsApart(im);
      Joined([ARGS_SPAN], SegmentSpans(im.loads), IMAGE_BASE);
      forall k | 0 <= k < |im.loads| && InSegment(im, k, va)
        ensures PermAt(low, va) == im.loads[k].Perms() && OwnPerms(PermAt(low, va), im.loads[k])
      {
        assert low[k + 1] == SegmentSpan(im.loads[k]);
        PermInSpan(low, k + 1, va);
        PermsOwn(im.loads[k]);
      }
    } else {
      var top := [Span(l.heap, l.size, READ | WRITE), DOORBELL_SPAN];
      assert top[1..] == [DOORBELL_SPAN] && top[1..][1..] == [];
      assert PermAt(top[1..], va) == if DOORBELL <= va < DOORBELL + PAGE then DOORBELL_SPAN.p else 0;
    }
  }

  // ----- the Go guest's stacks

  /** An image that leaves room for the vCPUs' stacks in the RAM above its first segment. */
  predicate HasRoom(im: Image, cpus: nat)
    requires im.loads != []
  {
    RoundUp(im.end, PAGE) + cpus * FAULT_STACK_BYTES <= im.loads[0].vaddr + GO_RAM_BYTES
  }

  /** The RAM of a slot below the doorbell begins at the first segment. */
  lemma GoBase(im: Image, cpus: nat, l: Slot)
    requires Ascending(im) && PlannedGo(im, cpus, l) && l.size <= DOORBELL
    ensures l.size == im.loads[0].vaddr + GO_RAM_BYTES
    ensures HasRoom(im, cpus) <==> l.heap <= l.stackTop
  {
    hide RoundUp;
    var p :| p in im.loads && p.vaddr == l.size - GO_RAM_BYTES;
    assert im.loads[0] in im.loads;
    FirstLowest(im);
  }

  lemma FirstLowest(im: Image)
    requires Ascending(im)
    ensures forall k :: 0 <= k < |im.loads| ==> im.loads[0].vaddr <= im.loads[k].vaddr
  {
    EndProper(im);
    assert im.loads[0] in im.loads;
    forall k | 0 <= k < |im.loads|
      ensures im.loads[0].vaddr <= im.loads[k].vaddr
    {
      if k > 0 {
        assert im.loads[0].End() <= im.loads[k].vaddr;
      }
    }
  }

  /** In some vCPU's stack. */
  ghost predicate InStack(l: Slot, va: nat) {
    exists i: nat :: i < l.cpus && InFaultStack(l, i, va)
  }

  /** The vCPUs' stacks together. */
  lemma StacksTogether(l: Slot, va: nat)
    requires l.stackTop == l.faultTop - l.cpus * FAULT_STACK_BYTES
    ensures InStack(l, va) <==> l.stackTop <= va < l.faultTop
  {
    if l.stackTop <= va < l.faultTop {
      var i := (l.faultTop - 1 - va) / FAULT_STACK_BYTES;
      assert i < l.cpus && InFaultStack(l, i, va);
    }
  }

  /** The stacks are above the image exactly when it leaves room for them. */
  lemma GoStacksApart(im: Image, cpus: nat, l: Slot)
    requires Ascending(im) && PlannedGo(im, cpus, l) && l.size <= DOORBELL && cpus > 0
    ensures HasRoom(im, cpus) <==> forall i: nat, va: nat :: i < cpus && InFaultStack(l, i, va) ==> l.heap <= va
  {
    hide RoundUp, HasRoom, InFaultStack;
    GoBase(im, cpus, l);
    StacksTogether(l, l.stackTop);
    forall i: nat, va: nat | i < cpus && InFaultStack(l, i, va)
      ensures l.stackTop <= va
    {
      StacksTogether(l, va);
    }
  }

  /** In a segment that is read-write. */
  ghost predicate InWritable(im: Image, va: nat) {
    exists k :: 0 <= k < |im.loads| && InSegment(im, k, va)
      && im.loads[k].readable && im.loads[k].writable && !im.loads[k].executable
  }

  /** Where the stacks are not in the RAM above the image they are in segments that are read-write. */
  ghost predicate StacksWritable(im: Image, l: Slot) {
    forall va: nat :: l.stackTop <= va < l.size && va < l.heap ==> InWritable(im, va)
  }

  lemma GoStackAt(im: Image, cpus: nat, l: Slot, va: nat)
    requires Ascending(im) && PlannedGo(im, cpus, l) && l.size <= DOORBELL && l.stackTop <= va < l.size
    ensures PermAt(l.spans, va) == READ | WRITE <==>
            va >= l.heap || InWritable(im, va)
  {
    hide RoundUp;
    SegmentsApart(im);
    GoPermAt(im, cpus, l, va);
    if k :| 0 <= k < |im.loads| && InSegment(im, k, va) {
      assert SegmentSpans(im.loads)[k] == SegmentSpan(im.loads[k]);
      OnlySegment(im, k, va);
      ReadWrite(PermAt(l.spans, va), im.loads[k]);
    }
  }

  lemma ReadWrite(q: Perm, p: Prog)
    requires OwnPerms(q, p) && q == p.Perms()
    ensures q == READ | WRITE <==> p.readable && p.writable && !p.executable
  {
  }

  lemma OnlySegment(im: Image, k: nat, va: nat)
    requires Ascending(im) && k < |im.loads| && InSegment(im, k, va)
    ensures forall j :: 0 <= j < |im.loads| && InSegment(im, j, va) ==> j == k
  {
    hide RoundUp;
    SegmentsApart(im);
    forall j | 0 <= j < |im.loads| && InSegment(im, j, va)
      ensures j == k
    {
      assert SegmentSpans(im.loads)[j] == SegmentSpan(im.loads[j]) && SegmentSpans(im.loads)[k] == SegmentSpan(im.loads[k]);
    }
  }

  /** Every vCPU's stack is read-write exactly when what the image leaves of the stacks' place is. */
  lemma GoStacksExact(im: Image, cpus: nat, l: Slot)
    requires Ascending(im) && PlannedGo(im, cpus, l) && l.size <= DOORBELL
    ensures StacksWritable(im, l) <==>
            forall i: nat, va: nat :: i < cpus && InFaultStack(l, i, va) ==> PermAt(l.spans, va) == READ | WRITE
    ensures HasRoom(im, cpus) ==> StacksWritable(im, l)
  {
    hide RoundUp, HasRoom, InFaultStack, InWritable, PermAt;
    GoBase(im, cpus, l);
    forall va: nat | l.stackTop <= va < l.size
      ensures InStack(l, va)
      ensures PermAt(l.spans, va) == READ | WRITE <==> va >= l.heap || InWritable(im, va)
    {
      StacksTogether(l, va);
      GoStackAt(im, cpus, l, va);
    }
    forall i: nat, va: nat | i < cpus && InFaultStack(l, i, va)
      ensures l.stackTop <= va < l.size
    {
      StacksTogether(l, va);
    }
  }

  /** An image that fills all but a page of the RAM, which the loader and the boot take and whose plan is in
      order: the boot vCPU's stack is in its text. */
  lemma GoStackInText(l: Slot)
    requires var p := Prog(true, IMAGE_BASE, IMAGE_BASE, GO_RAM_BYTES - PAGE, true, false, true);
             PlannedGo(Image([p], IMAGE_BASE + GO_RAM_BYTES - PAGE, 0, 1, 0), 1, l)
    ensures var p := Prog(true, IMAGE_BASE, IMAGE_BASE, GO_RAM_BYTES - PAGE, true, false, true);
            Ascending(Image([p], IMAGE_BASE + GO_RAM_BYTES - PAGE, 0, 1, 0))
    ensures l.size <= DOORBELL && Sorted(l.spans)
    ensures InFaultStack(l, 0, l.stackTop) && PermAt(l.spans, l.stackTop) == READ | EXEC
  {
    var p := Prog(true, IMAGE_BASE, IMAGE_BASE, GO_RAM_BYTES - PAGE, true, false, true);
    var im := Image([p], IMAGE_BASE + GO_RAM_BYTES - PAGE, 0, 1, 0);
    assert p in im.loads && p.End() == im.end;
    RoundUpPage(im.end);
    GoSorted(im, 1, l);
    GoBase(im, 1, l);
    GoPermAt(im, 1, l, l.stackTop);
    assert InSegment(im, 0, l.stackTop);
  }

  /** The Go guest's slot below the doorbell: what must not be mapped is not, every vCPU has a fault stack of
      its own, and with room for them the stacks are read-write. */
  lemma GoSafe(im: Image, cpus: nat, l: Slot, va: nat)
    requires Ascending(im) && PlannedGo(im, cpus, l) && l.size <= DOORBELL
    ensures va < SYS_BASE ==> PermAt(l.spans, va) == 0
    ensures TABLES_BASE <= va < TABLES_END ==> PermAt(l.spans, va) == 0
    ensures forall i: nat :: i < cpus && InFaultStack(l, i, va) ==> l.stackTop <= va < l.size
    ensures forall i: nat :: i < cpus && InFaultStack(l, i, va) && HasRoom(im, cpus) ==> PermAt(l.spans, va) == READ | WRITE
    ensures forall i, j :: 0 <= i < j < cpus ==> !(InFaultStack(l, i, va) && InFaultStack(l, j, va))
  {
    hide RoundUp, HasRoom, StacksWritable;
    var n := |im.loads|;
    EndProper(im);
    RoundUpPage(im.end);
    SegmentsApart(im);
    if va < SYS_BASE || TABLES_BASE <= va < TABLES_END {
      forall i | 0 <= i < |l.spans|
        ensures !(l.spans[i].lo <= va < l.spans[i].hi)
      {
        assert l.spans[n + 1] == Span(l.heap, l.size, READ | WRITE);
        if 1 <= i < n + 1 {
          assert l.spans[i] == SegmentSpans(im.loads)[i - 1];
        }
      }
      PermOutside(l.spans, va);
    }
    StacksTogether(l, va);
    GoStacksExact(im, cpus, l);
  }

  /** A sorted plan's segments keep their own permissions. */
  lemma SegmentPerms(im: Image, spans: seq<Span>, k: nat, va: nat)
    requires Sorted(spans) && |spans| >= 1 + |im.loads| && k < |im.loads|
    requires spans[1..1 + |im.loads|] == SegmentSpans(im.loads) && Proper(im.loads[k])
    requires im.loads[k].vaddr <= va < im.loads[k].End()
    ensures PermAt(spans, va) == im.loads[k].Perms() && OwnPerms(PermAt(spans, va), im.loads[k])
  {
    RoundUpPage(im.loads[k].End());
    assert spans[k + 1] == SegmentSpans(im.loads)[k];
    PermInSpan(spans, k + 1, va);
    PermsOwn(im.loads[k]);
  }

  // ----- what a plan gives every address

  /** Of a segment that ends in the address space, its span is its pages. */
  lemma OnPages(im: Image, k: nat, va: nat)
    requires Ascending(im) && k < |im.loads|
    ensures InSegment(im, k, va) <==> OnSegment(im.loads[k], va)
  {
    hide RoundUp;
    assert im.loads[k] in im.loads;
    EndProper(im);
    RoundUpPage(im.loads[k].End());
    PagesBelow(im.loads[k].End(), RoundUp(im.loads[k].End(), PAGE), va);
  }

  lemma PagesBelow(end: nat, r: nat, va: nat)
    requires IsCeiling(end, PAGE, r)
    ensures va < r <==> va / PAGE * PAGE < end
  {
  }

  /** What the monitor gives an address that no segment is on, `ram` being what it plans beside the image. */
  function Beside(va: nat, ram: bool): Perm {
    if SYS_BASE <= va < ARGS_END || ram then READ | WRITE
    else if DOORBELL <= va < DOORBELL + PAGE then WRITE | DEVICE
    else 0
  }

  ghost predicate Gives(im: Image, q: Perm, va: nat, ram: bool) {
    && (forall k :: 0 <= k < |im.loads| && OnSegment(im.loads[k], va) ==> OwnPerms(q, im.loads[k]))
    && ((forall k :: 0 <= k < |im.loads| ==> !OnSegment(im.loads[k], va)) ==> q == Beside(va, ram))
  }

  /** The C guest's memory beside its image: the stack and the fault stacks above it, and the heap. */
  predicate CRam(l: Slot, va: nat) {
    l.stackTop - STACK_BYTES <= va < l.stackTop + l.cpus * FAULT_STACK_BYTES || l.heap <= va < l.heap + HEAP_BYTES
  }

  /** The Go guest's: from the image's end to that of its RAM. */
  predicate GoRam(l: Slot, va: nat) {
    l.heap <= va < l.size
  }

  /** The C guest's plan, address by address. */
  lemma CGives(im: Image, cpus: nat, l: Slot, va: nat)
    requires Ascending(im) && PlannedC(im, cpus, l) && im.end <= DOORBELL && l.size <= DOORBELL
    ensures Gives(im, PermAt(l.spans, va), va, CRam(l, va))
  {
    hide RoundUp, PermAt, OwnPerms, OnSegment, InSegment;
    var n := |im.loads|;
    CSorted(im, cpus, l);
    CExact(im, cpus, l);
    forall k | 0 <= k < n
      ensures OnSegment(im.loads[k], va) <==> InSegment(im, k, va)
      ensures OnSegment(im.loads[k], va) ==> OwnPerms(PermAt(l.spans, va), im.loads[k])
    {
      OnPages(im, k, va);
      CInSegment(im, cpus, l, k, va);
    }
    if forall k :: 0 <= k < n ==> !InSegment(im, k, va) {
      CBeside(im, cpus, l, va);
    }
  }

  lemma CInSegment(im: Image, cpus: nat, l: Slot, k: nat, va: nat)
    requires PlannedC(im, cpus, l) && Sorted(l.spans) && k < |im.loads|
    ensures InSegment(im, k, va) ==> OwnPerms(PermAt(l.spans, va), im.loads[k])
  {
    hide RoundUp, PermAt, OwnPerms;
    CSegments(im, cpus, l);
    assert l.spans[k + 1] == l.spans[1..1 + |im.loads|][k] == SegmentSpan(im.loads[k]);
    if InSegment(im, k, va) {
      PermInSpan(l.spans, k + 1, va);
      PermsOwn(im.loads[k]);
    }
  }

  lemma CBeside(im: Image, cpus: nat, l: Slot, va: nat)
    requires PlannedC(im, cpus, l) && Sorted(l.spans) && im.end <= DOORBELL
    requires forall k :: 0 <= k < |im.loads| ==> !InSegment(im, k, va)
    ensures PermAt(l.spans, va) == Beside(va, CRam(l, va))
  {
    hide RoundUp, PermAt;
    var n := |im.loads|;
    CExact(im, cpus, l);
    assert l.spans[0] == ARGS_SPAN && l.spans[n + 3] == DOORBELL_SPAN;
    assert l.spans[n + 1] == Span(l.stackTop - STACK_BYTES, l.faultTop, READ | WRITE);
    assert l.spans[n + 2] == Span(l.heap, l.size, READ | WRITE);
    if i :| 0 <= i < |l.spans| && l.spans[i].lo <= va < l.spans[i].hi {
      if 1 <= i <= n {
        assert l.spans[i] == SegmentSpan(im.loads[i - 1]);
        assert !InSegment(im, i - 1, va);
      }
      PermInSpan(l.spans, i, va);
    } else {
      PermOutside(l.spans, va);
    }
  }

  /** The Go guest's, whether its spans are in order or not. */
  lemma GoGives(im: Image, cpus: nat, l: Slot, va: nat)
    requires Ascending(im) && PlannedGo(im, cpus, l) && l.size <= DOORBELL
    ensures Gives(im, PermAt(l.spans, va), va, GoRam(l, va))
  {
    hide RoundUp, PermAt, OwnPerms, OnSegment, InSegment;
    forall k | 0 <= k < |im.loads|
      ensures OnSegment(im.loads[k], va) <==> InSegment(im, k, va)
    {
      OnPages(im, k, va);
    }
    if va >= ARGS_END {
      GoPermAt(im, cpus, l, va);
    } else {
      GoArgs(im, cpus, l, va);
    }
  }

  lemma GoArgs(im: Image, cpus: nat, l: Slot, va: nat)
    requires Ascending(im) && PlannedGo(im, cpus, l) && va < ARGS_END
    ensures PermAt(l.spans, va) == if SYS_BASE <= va then READ | WRITE else 0
    ensures l.heap > va && forall k :: 0 <= k < |im.loads| ==> !InSegment(im, k, va)
  {
    hide RoundUp;
    SegmentsApart(im);
    EndProper(im);
    RoundUpPage(im.end);
    forall k | 0 <= k < |im.loads|
      ensures !InSegment(im, k, va)
    {
      assert SegmentSpans(im.loads)[k] == SegmentSpan(im.loads[k]);
    }
    if va < SYS_BASE {
      forall i | 0 <= i < |l.spans|
        ensures !(l.spans[i].lo <= va < l.spans[i].hi)
      {
        if 1 <= i <= |im.loads| {
          assert l.spans[i] == SegmentSpans(im.loads)[i - 1];
        }
      }
      PermOutside(l.spans, va);
    }
  }

  // ----- the tables of a planned slot

  /** The table area holds the tables of any plan of up to 241 segments. */
  lemma PlanFits(isa: Isa, im: Image, cpus: nat, l: Slot)
    requires Ascending(im) && l.size <= DOORBELL
    requires (PlannedC(im, cpus, l) && im.end <= DOORBELL) || (PlannedGo(im, cpus, l) && l.heap <= l.size)
    ensures Within(l.spans, Indexed(isa))
    ensures |im.loads| <= 241 ==> |Needed(Levels(isa), l.spans)| <= TABLES
  {
    hide RoundUp;
    SegmentsApart(im);
    if im.end <= DOORBELL {
      EndBelowGuard(im.end);
      if PlannedC(im, cpus, l) {
        CExact(im, cpus, l);
      }
    }
    assert Within(l.spans, 0x1_0000_0000);
    NeededFew(isa, l.spans);
  }
}
