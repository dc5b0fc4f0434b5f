/** What the hardware finds in a table area that holds the tree. */
module PageWalk {
  import opened Bits
  import opened Memory
  import opened PageFormat
  import opened Spans
  import opened PageTree

  /** The 64-bit entry for a slot. */
  function Code(isa: Isa, s: Slot): nat {
    match s
    case Empty => 0
    case Points(t) => Table(isa, Addr(t))
    case Maps(pa, p, big) => Leaf(isa, pa, p, big)
  }

  /** A slot that the builder writes. */
  predicate Sound(s: Slot) {
    match s
    case Empty => true
    case Points(t) => t < TABLES
    case Maps(pa, p, big) => pa < 0x1_0000_0000_0000 && pa % (if big then BLOCK else PAGE) == 0
  }

  /** The word with this number in the table area. */
  function WordAt(mem: seq<byte>, k: nat): nat
    requires k < WORDS && |mem| >= TABLES_END
  {
    Word(mem, TABLES_BASE + 8 * k)
  }

  /** The table area's words are the slots. */
  ghost predicate Holds(isa: Isa, mem: seq<byte>, slots: seq<Slot>) {
    && |mem| >= TABLES_END && |slots| == WORDS
    && (forall k :: 0 <= k < WORDS ==> WordAt(mem, k) == Code(isa, slots[k]))
    && (forall k :: 0 <= k < WORDS ==> Sound(slots[k]))
  }

  /** How an entry's slot is read by the hardware. */
  lemma CodeReads(isa: Isa, s: Slot, height: nat)
    requires Sound(s) && 1 <= height <= Levels(isa)
    requires s.Points? ==> height > 1
    requires s.Maps? ==> height == if s.big then 2 else 1
    ensures s.Empty? ==> Decode(isa, height, Code(isa, s)) == Absent
    ensures s.Points? ==> Decode(isa, height, Code(isa, s)) == Next(Addr(s.table), true, true)
    ensures s.Maps? ==> Decode(isa, height, Code(isa, s)) == Grants(isa, s.pa, s.p)
  {
    match s
    case Empty => ZeroReads(isa, height);
    case Points(t) => TableReads(isa, Addr(t), height);
    case Maps(pa, p, big) => LeafReads(isa, pa, p, big);
  }

  lemma ZeroReads(isa: Isa, height: nat)
    requires 1 <= height <= Levels(isa)
    ensures Decode(isa, height, 0) == Absent
  {
  }

  /** The table of the given height that translates va. */
  function TableFor(height: nat, va: nat): Node
    requires 1 <= height <= 4
  {
    Node(height, Region(height, va))
  }

  /** Five levels of one address: each region is 512 of those below. */
  lemma Chain(height: nat, va: nat)
    requires 1 <= height <= 4
    ensures Region(height - 1, va) / 512 == Region(height, va)
    ensures Region(height, va) * 512 + Region(height - 1, va) % 512 == Region(height - 1, va)
    ensures height > 1 ==> TableFor(height - 1, va).Parent() == TableFor(height, va)
  {
    match height
    case 1 =>
    case 2 =>
    case 3 =>
    case 4 =>
  }

  /** What the processor must find at va. */
  ghost function Specified(isa: Isa, spans: seq<Span>, va: nat): Mapping {
    var p := PermAt(spans, va / PAGE * PAGE);
    if p == 0 then Unmapped else Mapped(va, Has(p, WRITE), Has(p, EXEC), isa.Arm64? && Has(p, DEVICE))
  }

  /** The slot of the entry that the walk reads in table number t. */
  function SlotFor(slots: seq<Slot>, t: nat, height: nat, va: nat): Slot
    requires t < TABLES && |slots| == WORDS && 1 <= height <= 4
  {
    slots[512 * t + Region(height - 1, va) % 512]
  }

  /** One step of the walk, from the slot of the entry that it reads. */
  lemma Step(isa: Isa, mem: seq<byte>, slots: seq<Slot>, t: nat, height: nat, va: nat, s: Slot)
    requires Holds(isa, mem, slots) && t < TABLES && 1 <= height <= Levels(isa)
    requires s == SlotFor(slots, t, height, va)
    requires (s.Points? ==> height > 1) && (s.Maps? ==> height == if s.big then 2 else 1)
    ensures s.Empty? ==> Translate(isa, mem, Addr(t), height, va) == Unmapped
    ensures s.Points? ==> Translate(isa, mem, Addr(t), height, va) == Translate(isa, mem, Addr(s.table), height - 1, va)
    ensures s.Maps? ==> Translate(isa, mem, Addr(t), height, va)
                        == Mapped(s.pa + Offset(height, va), Has(s.p, WRITE), Has(s.p, EXEC), isa.Arm64? && Has(s.p, DEVICE))
  {
    var k := 512 * t + Region(height - 1, va) % 512;
    assert WordAt(mem, k) == Code(isa, s);
    assert Sound(slots[k]);
    CodeReads(isa, s, height);
    StepReads(isa, mem, t, height, va, k, Code(isa, s));
  }

  /** The walk's reading of one word. */
  lemma StepReads(isa: Isa, mem: seq<byte>, t: nat, height: nat, va: nat, k: nat, e: nat)
    requires |mem| >= TABLES_END && t < TABLES && 1 <= height <= Levels(isa)
    requires k == 512 * t + Region(height - 1, va) % 512 && WordAt(mem, k) == e
    ensures match Decode(isa, height, e)
            case Absent => Translate(isa, mem, Addr(t), height, va) == Unmapped
            case Reserved => true
            case Memory(pa, w, x, d) => Translate(isa, mem, Addr(t), height, va) == Mapped(pa + Offset(height, va), w, x, d)
            case Next(table, w, x) =>
              w && x && height > 1 ==>
                Translate(isa, mem, Addr(t), height, va) == Translate(isa, mem, table, height - 1, va)
  {
    hide Decode, Word;
    EntryAddress(t, Region(height - 1, va), k);
    hide Region, Offset, Addr;
  }

  lemma EntryAddress(t: nat, region: nat, k: nat)
    requires t < TABLES && k == 512 * t + region % 512
    ensures Addr(t) + region % 512 * 8 == TABLES_BASE + 8 * k && k < WORDS && TABLES_BASE + 8 * k + 8 <= TABLES_END
  {
  }

  /** A finished block's tables are all there. */
  lemma DoneTables(levels: nat, spans: seq<Span>, tree: Tree, done: set<nat>, va: nat, height: nat)
    requires Closed(levels, tree) && Marks(spans, tree, done) && va / BLOCK in done
    requires 2 <= height <= levels <= 4
    ensures TableFor(height, va) in tree
    decreases height
  {
    if height == 2 {
      Chain(2, va);
      assert Node(2, va / BLOCK / 512) in tree;
    } else {
      DoneTables(levels, spans, tree, done, va, height - 1);
      Chain(height, va);
    }
  }

  /** A page of a uniform block has the block's permission. */
  lemma UniformPage(spans: seq<Span>, va: nat)
    requires Uniform(spans, va / BLOCK)
    ensures PermAt(spans, va / PAGE * PAGE) == PermAt(spans, va / BLOCK * BLOCK)
  {
    hide PermAt;
    PageInBlock(va);
  }

  lemma PageInBlock(va: nat)
    ensures va / PAGE * PAGE == va / BLOCK * BLOCK + va / PAGE % 512 * PAGE
    ensures va / PAGE * PAGE / BLOCK == va / BLOCK
  {
    var page := va / PAGE;
    var q, t := page / 512, page % 512;
    assert va == BLOCK * q + (PAGE * t + va % PAGE) && PAGE * t + va % PAGE < BLOCK;
    DivUnique(va, BLOCK, q, PAGE * t + va % PAGE);
    DivUnique(page * PAGE, BLOCK, q, PAGE * t);
  }

  /** The tables of the finished blocks, with every entry what it must be. */
  ghost predicate Complete(levels: nat, spans: seq<Span>, tree: Tree, done: set<nat>, slots: seq<Slot>) {
    && Closed(levels, tree) && Marks(spans, tree, done) && |slots| == WORDS
    && (forall n :: n in tree ==> tree[n] < TABLES && Entries(spans, tree, done, slots, n))
  }

  /** From any table on va's path, the walk finds what the spans say. */
  lemma {:induction false} TranslateFinds(isa: Isa, mem: seq<byte>, spans: seq<Span>, tree: Tree, done: set<nat>,
                                          slots: seq<Slot>, height: nat, va: nat)
    requires Complete(Levels(isa), spans, tree, done, slots) && Holds(isa, mem, slots)
    requires PermAt(spans, va / PAGE * PAGE) != 0 ==> va / BLOCK in done
    requires 1 <= height <= Levels(isa) && TableFor(height, va) in tree
    ensures Translate(isa, mem, Addr(tree[TableFor(height, va)]), height, va) == Specified(isa, spans, va)
    decreases height
  {
    var t := tree[TableFor(height, va)];
    EntryFor(spans, tree, done, slots, height, va);
    if height == 1 {
      PageFinds(isa, mem, spans, slots, t, va);
    } else if TableFor(height - 1, va) in tree {
      Step(isa, mem, slots, t, height, va, Points(tree[TableFor(height - 1, va)]));
      TranslateFinds(isa, mem, spans, tree, done, slots, height - 1, va);
    } else {
      NotInTree(Levels(isa), spans, tree, done, va, height);
      if height == 2 && va / BLOCK in done {
        BlockFinds(isa, mem, spans, slots, t, va);
      } else {
        Step(isa, mem, slots, t, height, va, Empty);
      }
    }
  }

  lemma PageFinds(isa: Isa, mem: seq<byte>, spans: seq<Span>, slots: seq<Slot>, t: nat, va: nat)
    requires Holds(isa, mem, slots) && t < TABLES && SlotFor(slots, t, 1, va) == PageSlot(spans, va / PAGE)
    ensures Translate(isa, mem, Addr(t), 1, va) == Specified(isa, spans, va)
  {
    Step(isa, mem, slots, t, 1, va, PageSlot(spans, va / PAGE));
    assert va / PAGE * PAGE + va % PAGE == va;
  }

  lemma BlockFinds(isa: Isa, mem: seq<byte>, spans: seq<Span>, slots: seq<Slot>, t: nat, va: nat)
    requires Holds(isa, mem, slots) && t < TABLES && SlotFor(slots, t, 2, va) == BlockSlot(spans, va / BLOCK)
    requires Uniform(spans, va / BLOCK) && PermAt(spans, va / PAGE * PAGE) == PermAt(spans, va / BLOCK * BLOCK)
    ensures Translate(isa, mem, Addr(t), 2, va) == Specified(isa, spans, va)
  {
    Step(isa, mem, slots, t, 2, va, BlockSlot(spans, va / BLOCK));
    assert va / BLOCK * BLOCK + va % BLOCK == va;
  }

  lemma EntryFor(spans: seq<Span>, tree: Tree, done: set<nat>, slots: seq<Slot>, height: nat, va: nat)
    requires 1 <= height <= 4 && TableFor(height, va) in tree && tree[TableFor(height, va)] < TABLES && |slots| == WORDS
    requires Entries(spans, tree, done, slots, TableFor(height, va))
    ensures SlotFor(slots, tree[TableFor(height, va)], height, va)
            == Content(spans, tree, done, height, Region(height - 1, va))
  {
    Chain(height, va);
    assert At(slots, tree[TableFor(height, va)], Region(height - 1, va) % 512)
           == Content(spans, tree, done, height, Region(height, va) * 512 + Region(height - 1, va) % 512);
  }

  /** Where the next table is missing: a leaf of the whole block, or nothing mapped. */
  lemma NotInTree(levels: nat, spans: seq<Span>, tree: Tree, done: set<nat>, va: nat, height: nat)
    requires Closed(levels, tree) && Marks(spans, tree, done)
    requires PermAt(spans, va / PAGE * PAGE) != 0 ==> va / BLOCK in done
    requires 2 <= height <= levels <= 4 && TableFor(height - 1, va) !in tree
    ensures height > 2 || va / BLOCK !in done ==> PermAt(spans, va / PAGE * PAGE) == 0
    ensures height == 2 && va / BLOCK in done ==>
              && Uniform(spans, va / BLOCK)
              && PermAt(spans, va / PAGE * PAGE) == PermAt(spans, va / BLOCK * BLOCK)
  {
    hide Closed, PermAt, Uniform;
    if height > 2 && va / BLOCK in done {
      DoneTables(levels, spans, tree, done, va, height - 1);
    } else if height == 2 && va / BLOCK in done {
      UniformPage(spans, va);
    }
  }

  /** The finished area: the tables map each address that their indices tell apart to itself, writable,
      executable and device exactly as the spans say of its page, and map nothing where they say nothing;
      and the processor's walk finds it, of an address that it translates. */
  lemma WalkFinds(isa: Isa, mem: seq<byte>, spans: seq<Span>, tree: Tree, slots: seq<Slot>, used: nat, va: nat)
    requires Image(Levels(isa), spans, tree, Touched(spans), slots, used, NO_HOLE) && Marks(spans, tree, Touched(spans))
    requires Holds(isa, mem, slots) && va < Indexed(isa)
    ensures Translate(isa, mem, TABLES_BASE, Levels(isa), va) == Specified(isa, spans, va)
    ensures va < Space(isa) ==> Walk(isa, mem, TABLES_BASE, va) == Specified(isa, spans, va)
  {
    ImageComplete(Levels(isa), spans, tree, Touched(spans), slots, used);
    if PermAt(spans, va / PAGE * PAGE) != 0 {
      TouchedPage(spans, va);
    }
    RootFor(isa, va);
    TranslateFinds(isa, mem, spans, tree, Touched(spans), slots, Levels(isa), va);
  }

  /** Of spans that map an address above, no tables do. */
  lemma NoTables(isa: Isa, mem: seq<byte>, root: nat, spans: seq<Span>, va: nat)
    requires va >= Indexed(isa) && PermAt(spans, va / PAGE * PAGE) != 0
    ensures !(&& Translate(isa, mem, root, Levels(isa), va) == Specified(isa, spans, va)
              && Translate(isa, mem, root, Levels(isa), va % Indexed(isa)) == Specified(isa, spans, va % Indexed(isa)))
  {
    hide Translate, PermAt;
    Aliases(isa, mem, root, va, va % Indexed(isa));
  }

  lemma TouchedPage(spans: seq<Span>, va: nat)
    requires PermAt(spans, va / PAGE * PAGE) != 0
    ensures va / BLOCK in Touched(spans)
  {
    hide PermAt, Touched;
    MappedIsTouched(spans, va / PAGE * PAGE);
    PageInBlock(va);
  }

  lemma RootFor(isa: Isa, va: nat)
    requires va < Indexed(isa)
    ensures TableFor(Levels(isa), va) == Node(Levels(isa), 0)
  {
  }

  lemma ImageComplete(levels: nat, spans: seq<Span>, tree: Tree, done: set<nat>, slots: seq<Slot>, used: nat)
    requires Image(levels, spans, tree, done, slots, used, NO_HOLE) && Marks(spans, tree, done)
    ensures Complete(levels, spans, tree, done, slots)
    ensures Node(levels, 0) in tree && tree[Node(levels, 0)] == 0
  {
  }
}
