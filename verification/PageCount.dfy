/** Which tables a layout needs, and how many. */
module PageCount {
  import opened PageFormat
  import opened Spans
  import opened PageTree
  import opened PageWalk

  /** The tables of tables that the touched blocks need below the root. */
  ghost function InnerTables(levels: nat, spans: seq<Span>): set<Node>
    requires levels <= 4
  {
    set b, h | b in Touched(spans) && 2 <= h < levels :: Node(h, Region(h, b * BLOCK))
  }

  /** The tables of pages: one for each touched block of more than one permission. */
  ghost function PageTables(spans: seq<Span>): set<Node> {
    set b | b in Touched(spans) && !Uniform(spans, b) :: Node(1, b)
  }

  /** Every table that the spans need, the root first. */
  ghost function Needed(levels: nat, spans: seq<Span>): set<Node>
    requires levels <= 4
  {
    {Node(levels, 0)} + InnerTables(levels, spans) + PageTables(spans)
  }

  lemma NeedsInner(levels: nat, spans: seq<Span>, b: nat, h: nat)
    requires levels <= 4 && b in Touched(spans) && 2 <= h < levels
    ensures Node(h, Region(h, b * BLOCK)) in Needed(levels, spans)
  {
    assert Node(h, Region(h, b * BLOCK)) in InnerTables(levels, spans);
  }

  lemma NeedsPages(levels: nat, spans: seq<Span>, b: nat)
    requires levels <= 4 && b in Touched(spans) && !Uniform(spans, b)
    ensures Node(1, b) in Needed(levels, spans)
  {
    assert Node(1, b) in PageTables(spans);
  }

  /** With every table taken and one more needed, the area is too small. */
  lemma TooMany(levels: nat, spans: seq<Span>, tree: Tree, c: Node)
    requires levels <= 4 && Shape(levels, tree, TABLES) && tree.Keys <= Needed(levels, spans)
    requires c in Needed(levels, spans) && c !in tree
    ensures |Needed(levels, spans)| > TABLES
  {
    Subset(tree.Keys + {c}, Needed(levels, spans));
    assert |tree.Keys + {c}| == |tree| + 1;
  }

  lemma {:induction false} Subset<T>(s: set<T>, t: set<T>)
    requires s <= t
    ensures |s| <= |t|
  {
    if s != {} {
      var x :| x in s;
      Subset(s - {x}, t - {x});
    }
  }

  /** When every touched block is finished, the tree has exactly the tables needed. */
  lemma AllThere(isa: Isa, spans: seq<Span>, tree: Tree, used: nat)
    requires Shape(Levels(isa), tree, used) && Marks(spans, tree, Touched(spans))
    requires tree.Keys <= Needed(Levels(isa), spans)
    ensures tree.Keys == Needed(Levels(isa), spans) && |Needed(Levels(isa), spans)| == used
  {
    var levels := Levels(isa);
    forall n | n in Needed(levels, spans)
      ensures n in tree
    {
      if n in InnerTables(levels, spans) {
        var b, h :| b in Touched(spans) && 2 <= h < levels && n == Node(h, Region(h, b * BLOCK));
        BlockOf(b);
        DoneTables(levels, spans, tree, Touched(spans), b * BLOCK, h);
      } else if n in PageTables(spans) {
        assert n.index in Touched(spans) && !Uniform(spans, n.index);
      }
    }
    assert tree.Keys == Needed(levels, spans);
  }

  lemma BlockOf(b: nat)
    ensures b * BLOCK / BLOCK == b && Region(2, b * BLOCK) == b / 512
    ensures b * BLOCK / PAGE % 512 == 0
  {
  }

  // ----- how many tables

  /** Where no span begins or ends inside a block, the block has one permission. */
  lemma {:induction false} SameInBlock(spans: seq<Span>, b: nat, va: nat)
    requires va / BLOCK == b
    requires forall i :: 0 <= i < |spans| ==> !Inside(spans[i].lo, b) && !Inside(spans[i].hi, b)
    ensures PermAt(spans, va) == PermAt(spans, b * BLOCK)
  {
    if spans != [] {
      var s := spans[0];
      assert !Inside(s.lo, b) && !Inside(s.hi, b);
      Straddles(s.lo, s.hi, b, va);
      SameInBlock(spans[1..], b, va);
    }
  }

  /** A boundary inside block b, not at its start. */
  predicate Inside(x: nat, b: nat) {
    b * BLOCK < x < b * BLOCK + BLOCK
  }

  lemma Straddles(lo: nat, hi: nat, b: nat, va: nat)
    requires va / BLOCK == b && !Inside(lo, b) && !Inside(hi, b)
    ensures lo <= va < hi <==> lo <= b * BLOCK < hi
  {
  }

  /** The blocks in which the spans begin and end. */
  function Boundaries(spans: seq<Span>): set<Node> {
    if spans == [] then {} else {Node(1, spans[0].lo / BLOCK), Node(1, spans[0].hi / BLOCK)} + Boundaries(spans[1..])
  }

  lemma {:induction false} BoundariesSize(spans: seq<Span>)
    ensures |Boundaries(spans)| <= 2 * |spans|
  {
    if spans != [] {
      BoundariesSize(spans[1..]);
      var s := {Node(1, spans[0].lo / BLOCK), Node(1, spans[0].hi / BLOCK)};
      UnionSize(s, Boundaries(spans[1..]));
      assert |s| <= 2;
    }
  }

  lemma UnionSize<T>(s: set<T>, t: set<T>)
    ensures |s + t| <= |s| + |t|
  {
    assert s + t == s + (t - s);
    Subset(t - s, t);
  }

  lemma {:induction false} BoundaryIn(spans: seq<Span>, i: nat)
    requires i < |spans|
    ensures Node(1, spans[i].lo / BLOCK) in Boundaries(spans) && Node(1, spans[i].hi / BLOCK) in Boundaries(spans)
  {
    if i > 0 {
      BoundaryIn(spans[1..], i - 1);
    }
  }

  /** A block of several permissions has a span's boundary inside it. */
  lemma MixedHasBoundary(spans: seq<Span>, b: nat)
    requires !Uniform(spans, b)
    ensures Node(1, b) in Boundaries(spans)
  {
    if i :| 0 <= i < |spans| && (Inside(spans[i].lo, b) || Inside(spans[i].hi, b)) {
      BoundaryIn(spans, i);
    } else {
      var i :| 0 <= i < 512 && PermAt(spans, b * BLOCK + i * PAGE) != PermAt(spans, b * BLOCK);
      InBlock(b, i);
      SameInBlock(spans, b, b * BLOCK + i * PAGE);
    }
  }

  lemma InBlock(b: nat, i: nat)
    requires i < 512
    ensures (b * BLOCK + i * PAGE) / BLOCK == b
  {
  }

  lemma {:induction false} TouchedBelow(spans: seq<Span>, limit: nat, b: nat)
    requires Within(spans, limit) && b in Touched(spans)
    ensures b * BLOCK < limit
  {
    if b !in Blocks(spans[0]) {
      TouchedBelow(spans[1..], limit, b);
    }
  }

  /** Below 4 GiB the tables of tables are few. */
  lemma InnerFew(levels: nat, spans: seq<Span>)
    requires 3 <= levels <= 4 && Within(spans, 0x1_0000_0000)
    ensures |InnerTables(levels, spans)| <= levels + 1
  {
    var few := {Node(2, 0), Node(2, 1), Node(2, 2), Node(2, 3)} + if levels == 4 then {Node(3, 0)} else {};
    forall n | n in InnerTables(levels, spans)
      ensures n in few
    {
      var b, h :| b in Touched(spans) && 2 <= h < levels && n == Node(h, Region(h, b * BLOCK));
      TouchedBelow(spans, 0x1_0000_0000, b);
      FewRegions(h, b * BLOCK);
    }
    Subset(InnerTables(levels, spans), few);
  }

  lemma FewRegions(h: nat, va: nat)
    requires 2 <= h <= 3 && va < 0x1_0000_0000
    ensures h == 2 ==> Region(h, va) in {0, 1, 2, 3}
    ensures h == 3 ==> Region(h, va) == 0
  {
  }

  /** The tables of a height on the blocks' paths. */
  ghost function OnPaths(h: nat, blocks: set<nat>): set<Node>
    requires h <= 4
  {
    set b | b in blocks :: Node(h, Region(h, b * BLOCK))
  }

  lemma {:induction false} RegionsFew(h: nat, blocks: set<nat>)
    requires h <= 4
    ensures |OnPaths(h, blocks)| <= |blocks|
  {
    hide Region;
    if blocks != {} {
      var x :| x in blocks;
      RegionsFew(h, blocks - {x});
      UnionSize(OnPaths(h, blocks - {x}), {Node(h, Region(h, x * BLOCK))});
      assert OnPaths(h, blocks) == OnPaths(h, blocks - {x}) + {Node(h, Region(h, x * BLOCK))};
    }
  }

  /** Wherever the spans are, a touched block needs at most a table of pages, and one of each height on its path. */
  lemma NeededTouched(isa: Isa, spans: seq<Span>)
    ensures |Needed(Levels(isa), spans)| <= 1 + 3 * |Touched(spans)|
  {
    var levels, blocks := Levels(isa), Touched(spans);
    var ones, twos, threes := OnPaths(1, blocks), OnPaths(2, blocks), OnPaths(3, blocks);
    RegionsFew(1, blocks);
    RegionsFew(2, blocks);
    RegionsFew(3, blocks);
    NeededOnPaths(levels, spans);
    hide *;
    UnionSize(ones, twos);
    UnionSize(ones + twos, threes);
    UnionSize({Node(levels, 0)}, ones + twos + threes);
    Subset(Needed(levels, spans), {Node(levels, 0)} + (ones + twos + threes));
  }

  lemma NeededOnPaths(levels: nat, spans: seq<Span>)
    requires 3 <= levels <= 4
    ensures var blocks := Touched(spans);
            Needed(levels, spans) <= {Node(levels, 0)} + (OnPaths(1, blocks) + OnPaths(2, blocks) + OnPaths(3, blocks))
  {
    hide Region, Touched, Uniform, OnPaths;
    var blocks := Touched(spans);
    forall n | n in Needed(levels, spans) && n != Node(levels, 0)
      ensures n in OnPaths(1, blocks) + OnPaths(2, blocks) + OnPaths(3, blocks)
    {
      if n in PageTables(spans) {
        FirstRegion(n.index);
        OnPath(1, n.index, blocks);
      } else {
        var b, h :| b in blocks && 2 <= h < levels && n == Node(h, Region(h, b * BLOCK));
        OnPath(h, b, blocks);
      }
    }
  }

  lemma OnPath(h: nat, b: nat, blocks: set<nat>)
    requires h <= 4 && b in blocks
    ensures Node(h, Region(h, b * BLOCK)) in OnPaths(h, blocks)
  {
  }

  lemma FirstRegion(b: nat)
    ensures Region(1, b * BLOCK) == b
  {
  }

  /** A layout of n spans below 4 GiB takes at most 6 + 2n tables. */
  lemma NeededFew(isa: Isa, spans: seq<Span>)
    requires Within(spans, 0x1_0000_0000)
    ensures |Needed(Levels(isa), spans)| <= 6 + 2 * |spans|
  {
    var levels := Levels(isa);
    InnerFew(levels, spans);
    forall n | n in PageTables(spans)
      ensures n in Boundaries(spans)
    {
      MixedHasBoundary(spans, n.index);
    }
    Subset(PageTables(spans), Boundaries(spans));
    BoundariesSize(spans);
    UnionSize({Node(levels, 0)}, InnerTables(levels, spans));
    UnionSize({Node(levels, 0)} + InnerTables(levels, spans), PageTables(spans));
  }
}
