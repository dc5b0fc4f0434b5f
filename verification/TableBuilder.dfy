/** buildTables: the identity map of a layout's spans, written into the table area of the guest's memory. */
module TableBuilder {
  import opened Wrappers
  import opened Bits
  import opened Memory
  import opened PageFormat
  import opened Spans
  import opened PageTree
  import opened PageWalk
  import opened PageCount

  /** Rewriting one word of the area rewrites one slot. */
  lemma PutHolds(isa: Isa, before: seq<byte>, after: seq<byte>, slots: seq<Slot>, k: nat, s: Slot)
    requires Holds(isa, before, slots) && k < WORDS && Sound(s) && |after| == |before|
    requires var a := TABLES_BASE + 8 * k; after[..a] == before[..a] && after[a + 8..] == before[a + 8..]
    requires Word(after, TABLES_BASE + 8 * k) == Code(isa, s)
    ensures Holds(isa, after, slots[k := s])
  {
    hide Code, Word, Sound;
    forall i | 0 <= i < WORDS
      ensures WordAt(after, i) == Code(isa, slots[k := s][i])
    {
      if i != k {
        OtherWord(before, after, TABLES_BASE + 8 * k, TABLES_BASE + 8 * i);
        assert WordAt(before, i) == Code(isa, slots[i]);
      }
    }
  }

  lemma OtherWord(before: seq<byte>, after: seq<byte>, a: nat, b: nat)
    requires |after| == |before| && a + 8 <= |before| && b + 8 <= |before|
    requires after[..a] == before[..a] && after[a + 8..] == before[a + 8..]
    requires b + 8 <= a || a + 8 <= b
    ensures Word(after, b) == Word(before, b)
  {
    if b + 8 <= a {
      assert after[b..b + 8] == after[..a][b..b + 8] == before[..a][b..b + 8] == before[b..b + 8];
    } else {
      var c := b - (a + 8);
      assert after[b..b + 8] == after[a + 8..][c..c + 8] == before[a + 8..][c..c + 8] == before[b..b + 8];
    }
  }

  /** An entry of the builder's fits its word. */
  lemma CodeFits(isa: Isa, s: Slot)
    requires Sound(s)
    ensures Code(isa, s) < WORD_LIMIT && (Code(isa, s) == 0 <==> s.Empty?)
    ensures s.Points? ==> And(Code(isa, s), 0x0000_ffff_ffff_f000) == Addr(s.table)
  {
    match s
    case Empty =>
    case Points(t) => TableReads(isa, Addr(t), 2);
    case Maps(pa, p, big) => LeafReads(isa, pa, p, big);
  }

  lemma CodeOfTable(isa: Isa, t: nat)
    ensures Code(isa, Points(t)) == Table(isa, Addr(t))
  {
  }

  lemma InnerNeeded(levels: nat, spans: seq<Span>, va: nat, c: Node)
    requires levels <= 4 && va % BLOCK == 0 && va / BLOCK in Touched(spans)
    requires 2 <= c.height < levels && c == TableFor(c.height, va)
    ensures c in Needed(levels, spans)
  {
    NeedsInner(levels, spans, va / BLOCK, c.height);
  }

  lemma ImageRoot(levels: nat, spans: seq<Span>, tree: Tree, done: set<nat>, slots: seq<Slot>, used: nat)
    requires Image(levels, spans, tree, done, slots, used, NO_HOLE)
    ensures Node(levels, 0) in tree && tree[Node(levels, 0)] == 0
  {
  }

  /** The word of the entry for the block at b. */
  lemma BlockEntry(isa: Isa, b: nat)
    requires b % BLOCK == 0
    ensures TableFor(2, b) == Node(2, b / BLOCK / 512) && And(Shr(b, 21), 511) == b / BLOCK % 512
  {
    IndexBits(b, 1);
  }

  lemma BlockCode(isa: Isa, spans: seq<Span>, b: nat)
    requires b % BLOCK == 0 && b < Indexed(isa) && Uniform(spans, b / BLOCK)
    ensures var s := BlockSlot(spans, b / BLOCK);
            && Sound(s)
            && (PermAt(spans, b) != 0 ==> Code(isa, s) == Leaf(isa, b, PermAt(spans, b), true))
            && (PermAt(spans, b) == 0 ==> s == Empty)
  {
    assert b / BLOCK * BLOCK == b;
  }

  lemma PageCode(isa: Isa, spans: seq<Span>, b: nat, va: nat, i: nat)
    requires b % BLOCK == 0 && b < Indexed(isa) && i < 512 && va == b + i * PAGE
    ensures var s := PageSlot(spans, b / BLOCK * 512 + i);
            && Sound(s)
            && (PermAt(spans, va) != 0 ==> Code(isa, s) == Leaf(isa, va, PermAt(spans, va), false))
            && (PermAt(spans, va) == 0 ==> s == Empty)
    ensures And(Shr(va, 12), 511) == i
  {
    hide Leaf, Region, Shr, And, PermAt, Indexed;
    PageNumber(b, va, i);
    IndexBits(va, 0);
    WholePage(isa, b, va, i);
  }

  lemma WholePage(isa: Isa, b: nat, va: nat, i: nat)
    requires b % BLOCK == 0 && b < Indexed(isa) && i < 512 && va == b + i * PAGE
    ensures va % PAGE == 0 && va < 0x1_0000_0000_0000
  {
  }

  lemma PageNumber(b: nat, va: nat, i: nat)
    requires b % BLOCK == 0 && i < 512 && va == b + i * PAGE
    ensures (b / BLOCK * 512 + i) * PAGE == va && Region(0, va) % 512 == i
  {
  }

  lemma PagesNotLinked(spans: seq<Span>, tree: Tree, done: set<nat>, b: nat)
    requires Marks(spans, tree, done) && b !in done
    ensures Node(1, b) !in tree
  {
  }

  /** The number of bits below a level's index. */
  function Shift(isa: Isa, level: nat): nat
    requires level < Levels(isa)
  {
    12 + 9 * (Levels(isa) - 1 - level)
  }

  lemma IndexBits(va: nat, height: nat)
    requires height <= 3
    ensures And(Shr(va, 12 + 9 * height), 511) == Region(height, va) % 512
  {
    ShrIsDiv(va, 12 + 9 * height);
    Pow2Regions(height);
    NineOnes(Region(height, va));
  }

  lemma NineOnes(x: nat)
    ensures And(x, 511) == x % 512
  {
    Pow2Low();
    AndOnes(x, 9);
  }

  lemma Pow2Regions(height: nat)
    requires height <= 3
    ensures Pow2(12 + 9 * height) == [0x1000, 0x20_0000, 0x4000_0000, 0x80_0000_0000][height]
  {
    Pow2At12();
    Pow2Low();
    Pow2Add(9, 12);
    Pow2Add(9, 21);
    Pow2Add(9, 30);
  }

  lemma BlockFloor(a: nat)
    ensures AndNot(a, BLOCK - 1) == a / BLOCK * BLOCK
  {
    Pow2At21();
    AndNotOnes(a, 21);
  }

  /** The state of `buildTables` over one layout's spans and one machine's memory. */
  class Builder {
    const isa: Isa
    const spans: seq<Span>
    const mem: array<byte>
    var next: nat
    ghost var used: nat
    ghost var slots: seq<Slot>
    ghost var tree: Tree
    ghost var done: set<nat>

    /** The area's words are the slots, whatever they mean. */
    ghost predicate Area()
      reads this, mem
    {
      && mem.Length >= TABLES_END && used <= TABLES && next == Addr(used)
      && Holds(isa, mem[..], slots)
    }

    ghost predicate Valid()
      reads this, mem
    {
      && Area()
      && Image(Levels(isa), spans, tree, done, slots, used, NO_HOLE)
      && Marks(spans, tree, done)
      && tree.Keys <= Needed(Levels(isa), spans)
      && Within(spans, Indexed(isa))
    }

    /** What is outside the table area. */
    ghost function Outside(): seq<byte>
      reads mem
      requires mem.Length >= TABLES_END
    {
      mem[..TABLES_BASE] + mem[TABLES_END..]
    }

    /** The next page of the area, while there is one. */
    method Alloc() returns (r: Option<nat>)
      requires used <= TABLES && next == Addr(used)
      modifies this`next, this`used
      ensures used <= TABLES && next == Addr(used)
      ensures r == if old(used) == TABLES then None else Some(Addr(old(used)))
      ensures used == if old(used) == TABLES then TABLES else old(used) + 1
    {
      if next >= TABLES_END {
        return None;
      }
      r := Some(next);
      next := next + PAGE;
      used := used + 1;
    }

    /** Writes the entry for slot s into word k of the area. */
    method Put(a: nat, e: nat, ghost k: nat, ghost s: Slot)
      requires Area() && k < WORDS && a == TABLES_BASE + 8 * k && Sound(s) && e == Code(isa, s)
      modifies mem, this`slots
      ensures Area() && slots == old(slots)[k := s]
      ensures Outside() == old(Outside())
    {
      ghost var before := mem[..];
      hide Code, Word, Sound, Holds;
      CodeFits(isa, s);
      PutWord(mem, a, e);
      assert mem[..a] == before[..a] && mem[a + 8..] == before[a + 8..];
      assert mem[..TABLES_BASE] == before[..TABLES_BASE] && mem[TABLES_END..] == before[TABLES_END..];
      slots := slots[k := s];
      PutHolds(isa, before, mem[..], old(slots), k, s);
    }

    /** Reads the entry in word k of the area. */
    method Get(a: nat, ghost k: nat) returns (e: nat)
      requires Area() && k < WORDS && a == TABLES_BASE + 8 * k
      ensures e == Code(isa, slots[k]) && Sound(slots[k])
      ensures e == 0 <==> slots[k].Empty?
    {
      e := GetWord(mem, a);
      assert WordAt(mem[..], k) == Code(isa, slots[k]);
      CodeFits(isa, slots[k]);
    }

    /** The tree is whole but for the table just allocated. */
    ghost predicate Pending()
      reads this, mem
    {
      && Area() && used > 0
      && Image(Levels(isa), spans, tree, done, slots, used - 1, NO_HOLE)
      && Marks(spans, tree, done)
      && tree.Keys <= Needed(Levels(isa), spans)
      && Within(spans, Indexed(isa))
    }

    /** Writes the entry that points at the table of tables just allocated. */
    method Link(a: nat, e: nat, ghost c: Node)
      requires Pending() && 2 <= c.height < Levels(isa) && c !in tree && c.Parent() in tree
      requires a == TABLES_BASE + 8 * EntryWord(tree, c) && e == Code(isa, Points(used - 1))
      requires c in Needed(Levels(isa), spans)
      modifies mem, this`slots, this`tree
      ensures Valid() && tree == old(tree)[c := used - 1] && Outside() == old(Outside())
    {
      hide Shape, Entries, Zeros, Marks, Needed, Within, Holds, Code;
      ghost var t := used - 1;
      LinkImage(Levels(isa), spans, tree, done, slots, t, c);
      Put(a, e, EntryWord(tree, c), Points(t));
      tree := tree[c := t];
    }

    /** walk.  The tree has the table on va's path with entries of a block each, and r is its address; there is
        none only when the tables that the spans need are more than the area holds. */
    method Descend(va: nat) returns (r: Option<nat>)
      requires Valid() && va < Indexed(isa) && va % BLOCK == 0 && va / BLOCK in Touched(spans)
      modifies mem, this`next, this`used, this`slots, this`tree
      ensures Outside() == old(Outside())
      ensures r.Some? ==> Valid() && TableFor(2, va) in tree && r.value == Addr(tree[TableFor(2, va)])
      ensures r.None? ==> |Needed(Levels(isa), spans)| > TABLES
    {
      hide Shape, Entries, Zeros, Marks, Needed, Within, Holds, Code, Region;
      var t, level := TABLES_BASE, 0;
      RootFor(isa, va);
      ImageRoot(Levels(isa), spans, tree, done, slots, used);
      while level < Levels(isa) - 2
        invariant 0 <= level <= Levels(isa) - 2
        invariant Valid() && Outside() == old(Outside())
        invariant TableFor(Levels(isa) - level, va) in tree
        invariant t == Addr(tree[TableFor(Levels(isa) - level, va)])
      {
        ghost var c := TableFor(Levels(isa) - level - 1, va);
        Chain(Levels(isa) - level, va);
        IndexBits(va, Levels(isa) - level - 1);
        InnerNeeded(Levels(isa), spans, va, c);
        var ix := And(Shr(va, Shift(isa, level)), 511);
        t := Child(t, ix, c);
        if t == 0 {
          return None;
        }
        level := level + 1;
      }
      r := Some(t);
    }

    /** One step of `Descend`: the table that entry ix of t points at, or 0 when there is no room for it. */
    method Child(t: nat, ix: nat, ghost c: Node) returns (u: nat)
      requires Valid() && 2 <= c.height < Levels(isa) && c in Needed(Levels(isa), spans)
      requires c.Parent() in tree && t == Addr(tree[c.Parent()]) && ix == c.index % 512
      modifies mem, this`next, this`used, this`slots, this`tree
      ensures Outside() == old(Outside())
      ensures u != 0 ==> Valid() && c in tree && u == Addr(tree[c])
      ensures u == 0 ==> |Needed(Levels(isa), spans)| > TABLES
    {
      hide Zeros, Marks, Needed, Within, Holds, Code, Closed;
      ghost var k := EntryWord(tree, c);
      TableEntry(spans, tree, done, slots, c);
      var e := Get(t + ix * 8, k);
      if e == 0 {
        e := NewTable(t + ix * 8, c);
        if e == 0 {
          return 0;
        }
      }
      CodeFits(isa, Points(tree[c]));
      u := And(e, 0x0000_ffff_ffff_f000);
    }

    /** Allocates the table for c and writes the entry for it; 0 when there is no room. */
    method NewTable(a: nat, ghost c: Node) returns (e: nat)
      requires Valid() && 2 <= c.height < Levels(isa) && c !in tree && c in Needed(Levels(isa), spans)
      requires c.Parent() in tree && a == TABLES_BASE + 8 * EntryWord(tree, c)
      modifies mem, this`next, this`used, this`slots, this`tree
      ensures Outside() == old(Outside())
      ensures e != 0 ==> Valid() && c in tree && tree[c] < TABLES && e == Code(isa, Points(tree[c]))
      ensures e == 0 ==> |Needed(Levels(isa), spans)| > TABLES
    {
      hide Shape, Entries, Zeros, Marks, Needed, Within, Holds, Code;
      var n := Alloc();
      if n.None? {
        TooMany(Levels(isa), spans, tree, c);
        return 0;
      }
      CodeOfTable(isa, used - 1);
      e := Table(isa, n.value);
      Link(a, e, c);
      CodeFits(isa, Points(tree[c]));
    }

    /** Whether the block at b has one permission. */
    method IsUniform(b: nat) returns (uniform: bool)
      requires b % BLOCK == 0
      ensures uniform == Uniform(spans, b / BLOCK)
    {
      var p0 := PermAt(spans, b);
      uniform := true;
      var va := b;
      ghost var i := 0;
      assert b / BLOCK * BLOCK == b;
      while va < b + BLOCK
        invariant 0 <= i <= 512 && va == b + i * PAGE
        invariant uniform && forall j :: 0 <= j < i ==> PermAt(spans, b + j * PAGE) == p0
        decreases b + BLOCK - va
      {
        if PermAt(spans, va) != p0 {
          uniform := false;
          break;
        }
        va, i := va + PAGE, i + 1;
      }
    }

    /** Maps the block at b, leaf or table of pages; false when there is no room for a table. */
    method MapBlock(b: nat) returns (ok: bool)
      requires Valid() && b % BLOCK == 0 && b < Indexed(isa)
      requires b / BLOCK in Touched(spans) && b / BLOCK !in done
      modifies mem, this`next, this`used, this`slots, this`tree, this`done
      ensures Outside() == old(Outside())
      ensures ok ==> Valid() && done == old(done) + {b / BLOCK}
      ensures !ok ==> |Needed(Levels(isa), spans)| > TABLES
    {
      hide Shape, Entries, Zeros, Marks, Needed, Within, Holds, Code, Region, Uniform;
      var p0 := PermAt(spans, b);
      var uniform := IsUniform(b);
      var t := Descend(b);
      if t.None? {
        return false;
      }
      BlockEntry(isa, b);
      var ix := And(Shr(b, 21), 511);
      if uniform {
        MapUniform(t.value + ix * 8, b, p0);
        return true;
      }
      ok := MapPages(t.value + ix * 8, b);
    }

    /** A block of one permission: its 2 MiB leaf, or nothing. */
    method MapUniform(a: nat, b: nat, p0: Perm)
      requires Valid() && b % BLOCK == 0 && b < Indexed(isa) && p0 == PermAt(spans, b)
      requires b / BLOCK !in done && Uniform(spans, b / BLOCK)
      requires Node(2, b / BLOCK / 512) in tree && a == TABLES_BASE + 8 * EntryWord(tree, Node(1, b / BLOCK))
      modifies mem, this`slots, this`done
      ensures Outside() == old(Outside()) && Valid() && done == old(done) + {b / BLOCK}
    {
      hide Shape, Entries, Zeros, Marks, Needed, Within, Holds, Code, Uniform;
      FinishUniform(Levels(isa), spans, tree, done, slots, used, b / BLOCK);
      BlockCode(isa, spans, b);
      ghost var k := EntryWord(tree, Node(1, b / BLOCK));
      if p0 != 0 {
        Put(a, Leaf(isa, b, p0, true), k, BlockSlot(spans, b / BLOCK));
      } else {
        assert slots[k := BlockSlot(spans, b / BLOCK)] == slots;
      }
      done := done + {b / BLOCK};
    }

    /** A block of several permissions: a table of its pages. */
    method MapPages(a: nat, b: nat) returns (ok: bool)
      requires Valid() && b % BLOCK == 0 && b < Indexed(isa)
      requires b / BLOCK in Touched(spans) && b / BLOCK !in done && !Uniform(spans, b / BLOCK)
      requires Node(2, b / BLOCK / 512) in tree && a == TABLES_BASE + 8 * EntryWord(tree, Node(1, b / BLOCK))
      modifies mem, this`next, this`used, this`slots, this`tree, this`done
      ensures Outside() == old(Outside())
      ensures ok ==> Valid() && done == old(done) + {b / BLOCK}
      ensures !ok ==> |Needed(Levels(isa), spans)| > TABLES
    {
      hide Shape, Entries, Zeros, Marks, Needed, Within, Holds, Code, Uniform;
      ghost var c := Node(1, b / BLOCK);
      NeedsPages(Levels(isa), spans, b / BLOCK);
      PagesNotLinked(spans, tree, done, b / BLOCK);
      var pt := Alloc();
      if pt.None? {
        TooMany(Levels(isa), spans, tree, c);
        return false;
      }
      LinkPages(Levels(isa), spans, tree, done, slots, used - 1, b / BLOCK);
      CodeOfTable(isa, used - 1);
      Put(a, Table(isa, pt.value), EntryWord(tree, c), Points(used - 1));
      tree := tree[c := used - 1];
      done := done + {b / BLOCK};
      FillPages(pt.value, b);
      ok := true;
    }

    /** Writes the entries of block b's table of pages, at pt. */
    method FillPages(pt: nat, b: nat)
      requires Area() && b % BLOCK == 0 && b < Indexed(isa) && Node(1, b / BLOCK) in tree
      requires Image(Levels(isa), spans, tree, done, slots, used, Node(1, b / BLOCK))
      requires pt == Addr(tree[Node(1, b / BLOCK)]) && tree[Node(1, b / BLOCK)] < TABLES
      requires Filled(spans, slots, tree[Node(1, b / BLOCK)], b / BLOCK, 0)
      modifies mem, this`slots
      ensures Area() && Outside() == old(Outside())
      ensures Image(Levels(isa), spans, tree, done, slots, used, NO_HOLE)
    {
      hide Shape, Entries, Zeros, Filled, Holds, Code;
      ghost var t := tree[Node(1, b / BLOCK)];
      var va := b;
      ghost var i := 0;
      while va < b + BLOCK
        invariant 0 <= i <= 512 && va == b + i * PAGE
        invariant Area() && Outside() == old(Outside())
        invariant Image(Levels(isa), spans, tree, done, slots, used, Node(1, b / BLOCK))
        invariant Filled(spans, slots, t, b / BLOCK, i)
        decreases b + BLOCK - va
      {
        FillPage(pt, b, va, i);
        va, i := va + PAGE, i + 1;
      }
      FillClose(Levels(isa), spans, tree, done, slots, used, b / BLOCK);
    }

    /** Writes one page's entry, if the page has a permission. */
    method FillPage(pt: nat, b: nat, va: nat, ghost i: nat)
      requires Area() && b % BLOCK == 0 && b < Indexed(isa) && i < 512 && va == b + i * PAGE
      requires Node(1, b / BLOCK) in tree && tree[Node(1, b / BLOCK)] < TABLES && pt == Addr(tree[Node(1, b / BLOCK)])
      requires Image(Levels(isa), spans, tree, done, slots, used, Node(1, b / BLOCK))
      requires Filled(spans, slots, tree[Node(1, b / BLOCK)], b / BLOCK, i)
      modifies mem, this`slots
      ensures Area() && Outside() == old(Outside())
      ensures Image(Levels(isa), spans, tree, done, slots, used, Node(1, b / BLOCK))
      ensures Filled(spans, slots, tree[Node(1, b / BLOCK)], b / BLOCK, i + 1)
    {
      hide Shape, Entries, Zeros, Filled, Holds, Code;
      ghost var t := tree[Node(1, b / BLOCK)];
      ghost var s := PageSlot(spans, b / BLOCK * 512 + i);
      FillOne(spans, slots, t, b / BLOCK, i);
      FillOthers(Levels(isa), spans, tree, done, slots, used, Node(1, b / BLOCK), i, s);
      PageCode(isa, spans, b, va, i);
      var p := PermAt(spans, va);
      if p != 0 {
        Put(pt + And(Shr(va, 12), 511) * 8, Leaf(isa, va, p, false), 512 * t + i, s);
      } else {
        assert slots[512 * t + i := s] == slots;
      }
    }

    /** The table area of a machine not yet set up: the root allocated, and every word zero. */
    constructor (isa: Isa, spans: seq<Span>, mem: array<byte>)
      requires mem.Length >= TABLES_END && Within(spans, Indexed(isa))
      requires forall i :: TABLES_BASE <= i < TABLES_END ==> mem[i] == 0
      ensures Valid() && done == {}
      ensures this.isa == isa && this.spans == spans && this.mem == mem
    {
      this.isa, this.spans, this.mem := isa, spans, mem;
      next := TABLES_BASE + PAGE;
      used := 1;
      slots := seq(WORDS, _ => Empty);
      tree := map[Node(Levels(isa), 0) := 0];
      done := {};
      new;
      ZeroHolds(isa, mem[..]);
      EmptyImage(isa, spans);
    }

    /** The blocks of span i, each mapped once; false when there is no room for a table. */
    method MapSpan(i: nat, seen: set<nat>) returns (ok: bool, seen': set<nat>)
      requires Valid() && i < |spans| && done == Touched(spans[..i]) && seen == done
      modifies mem, this`next, this`used, this`slots, this`tree, this`done
      ensures Outside() == old(Outside())
      ensures ok ==> Valid() && done == Touched(spans[..i + 1]) && seen' == done
      ensures !ok ==> |Needed(Levels(isa), spans)| > TABLES
    {
      hide Image, Marks, Needed, Holds;
      seen' := seen;
      var s := spans[i];
      BlockFloor(s.lo);
      TouchedBy(spans, i);
      TouchedNext(spans, i);
      var b := AndNot(s.lo, BLOCK - 1);
      while b < s.hi
        invariant s.lo / BLOCK * BLOCK <= b && b % BLOCK == 0
        invariant Valid() && seen' == done && Outside() == old(Outside())
        invariant done == Touched(spans[..i]) + BlocksBelow(s, b)
      {
        BlocksStep(s, b);
        if b / BLOCK !in seen' {
          seen' := seen' + {b / BLOCK};
          ok := MapBlock(b);
          if !ok {
            return false, seen';
          }
        }
        b := b + BLOCK;
      }
      BlocksAll(s, b);
      ok := true;
    }
  }

  /** The blocks of a span before address b. */
  ghost function BlocksBelow(s: Span, b: nat): set<nat> {
    set x | x in Blocks(s) && x * BLOCK < b
  }

  lemma BlocksStep(s: Span, b: nat)
    requires s.lo / BLOCK * BLOCK <= b < s.hi && b % BLOCK == 0
    ensures b / BLOCK in Blocks(s) && BlocksBelow(s, b + BLOCK) == BlocksBelow(s, b) + {b / BLOCK}
  {
    assert b / BLOCK * BLOCK == b;
    assert b / BLOCK in Blocks(s);
  }

  lemma BlocksAll(s: Span, b: nat)
    requires s.hi <= b
    ensures BlocksBelow(s, b) == Blocks(s)
  {
  }

  lemma ZeroHolds(isa: Isa, mem: seq<byte>)
    requires |mem| >= TABLES_END
    requires forall i :: TABLES_BASE <= i < TABLES_END ==> mem[i] == 0
    ensures Holds(isa, mem, seq(WORDS, _ => Empty))
  {
    forall k | 0 <= k < WORDS
      ensures WordAt(mem, k) == 0
    {
      var a := TABLES_BASE + 8 * k;
      ZeroWord(mem[a..a + 8]);
    }
  }

  lemma {:induction false} ZeroWord(s: seq<byte>)
    requires forall i :: 0 <= i < |s| ==> s[i] == 0
    ensures FromBytes(s) == 0
  {
    if s != [] {
      ZeroWord(s[1..]);
    }
  }

  lemma EmptyImage(isa: Isa, spans: seq<Span>)
    ensures var tree := map[Node(Levels(isa), 0) := 0];
            && Image(Levels(isa), spans, tree, {}, seq(WORDS, _ => Empty), 1, NO_HOLE)
            && Marks(spans, tree, {})
            && tree.Keys <= Needed(Levels(isa), spans)
  {
    var tree := map[Node(Levels(isa), 0) := 0];
    assert tree.Keys == {Node(Levels(isa), 0)};
    assert Entries(spans, tree, {}, seq(WORDS, _ => Empty), Node(Levels(isa), 0));
  }

  lemma OutsideParts(after: seq<byte>, before: seq<byte>)
    requires |after| == |before| >= TABLES_END
    requires after[..TABLES_BASE] + after[TABLES_END..] == before[..TABLES_BASE] + before[TABLES_END..]
    ensures after[..TABLES_BASE] == before[..TABLES_BASE] && after[TABLES_END..] == before[TABLES_END..]
  {
    var a, b := after[..TABLES_BASE] + after[TABLES_END..], before[..TABLES_BASE] + before[TABLES_END..];
    assert a[..TABLES_BASE] == b[..TABLES_BASE] && a[TABLES_BASE..] == b[TABLES_BASE..];
  }

  /** The finished tables: exactly those needed, and the walk that the spans specify. */
  lemma Finished(isa: Isa, mem: seq<byte>, spans: seq<Span>, tree: Tree, slots: seq<Slot>, used: nat)
    requires Image(Levels(isa), spans, tree, Touched(spans), slots, used, NO_HOLE) && Marks(spans, tree, Touched(spans))
    requires tree.Keys <= Needed(Levels(isa), spans) && Holds(isa, mem, slots)
    ensures |Needed(Levels(isa), spans)| == used <= TABLES
    ensures forall va: nat | va < Indexed(isa) ::
              Translate(isa, mem, TABLES_BASE, Levels(isa), va) == Specified(isa, spans, va)
    ensures forall va: nat | va < Space(isa) :: Walk(isa, mem, TABLES_BASE, va) == Specified(isa, spans, va)
  {
    hide Marks, Needed, Holds, Walk, Translate, Specified;
    AllThere(isa, spans, tree, used);
    forall va: nat | va < Indexed(isa)
      ensures Translate(isa, mem, TABLES_BASE, Levels(isa), va) == Specified(isa, spans, va)
      ensures va < Space(isa) ==> Walk(isa, mem, TABLES_BASE, va) == Specified(isa, spans, va)
    {
      WalkFinds(isa, mem, spans, tree, slots, used, va);
    }
  }
}
