/** The page tables as a tree: which tables there are, and what every entry of them is.

    The area's pages are numbered from its base, and its 64-bit words from its first.  A table is
    named by its height (1 for the tables of pages) and by the number of the region it covers.
    `Image` says that the words are the tree's, the spans' and the finished blocks', and nothing else.
 */
module PageTree {
  import opened PageFormat
  import opened Spans

  datatype Node = Node(height: nat, index: nat) {
    function Parent(): Node {
      Node(height + 1, index / 512)
    }
  }

  type Tree = map<Node, nat>

  /** What a word of the table area holds. */
  datatype Slot = Empty | Points(table: nat) | Maps(pa: nat, p: Perm, big: bool)

  const TABLES: nat := 496
  const WORDS: nat := 253952

  /** The address of table number t. */
  function Addr(t: nat): nat {
    TABLES_BASE + PAGE * t
  }

  /** The leaf for block b, if it has one permission that is not none. */
  ghost function BlockSlot(spans: seq<Span>, b: nat): Slot {
    if Uniform(spans, b) && PermAt(spans, b * BLOCK) != 0 then Maps(b * BLOCK, PermAt(spans, b * BLOCK), true) else Empty
  }

  /** The leaf for page v, if it has a permission. */
  ghost function PageSlot(spans: seq<Span>, v: nat): Slot {
    if PermAt(spans, v * PAGE) != 0 then Maps(v * PAGE, PermAt(spans, v * PAGE), false) else Empty
  }

  /** What the entry for region j of a table of the given height must be. */
  ghost function Content(spans: seq<Span>, tree: Tree, done: set<nat>, height: nat, j: nat): Slot {
    if height == 1 then PageSlot(spans, j)
    else if height >= 2 && Node(height - 1, j) in tree then Points(tree[Node(height - 1, j)])
    else if height == 2 && j in done then BlockSlot(spans, j)
    else Empty
  }

  /** Entry ix of table number t. */
  ghost function At(slots: seq<Slot>, t: nat, ix: nat): Slot
    requires 512 * t + ix < |slots|
  {
    slots[512 * t + ix]
  }

  /** A table is reached from the root. */
  ghost predicate Closed(levels: nat, tree: Tree) {
    forall n :: n in tree && n.height < levels ==> n.Parent() in tree
  }

  /** The tables that the blocks in done need, each once, the root the first. */
  ghost predicate Shape(levels: nat, tree: Tree, used: nat) {
    && Node(levels, 0) in tree && tree[Node(levels, 0)] == 0
    && (forall n :: n in tree ==> 1 <= n.height <= levels && tree[n] < used)
    && (forall n :: n in tree && n.height == levels ==> n.index == 0)
    && Closed(levels, tree)
    && (forall m, n :: m in tree && n in tree && tree[m] == tree[n] ==> m == n)
    && |tree| == used <= TABLES
  }

  ghost predicate Marks(spans: seq<Span>, tree: Tree, done: set<nat>) {
    && (forall n :: n in tree && n.height == 1 ==> n.index in done && !Uniform(spans, n.index))
    && (forall b :: b in done ==> Node(2, b / 512) in tree)
    && (forall b :: b in done && !Uniform(spans, b) ==> Node(1, b) in tree)
  }

  ghost predicate Entries(spans: seq<Span>, tree: Tree, done: set<nat>, slots: seq<Slot>, n: Node)
    requires n in tree && tree[n] < TABLES && |slots| == WORDS
  {
    forall ix :: 0 <= ix < 512 ==> At(slots, tree[n], ix) == Content(spans, tree, done, n.height, n.index * 512 + ix)
  }

  ghost predicate Zeros(slots: seq<Slot>, used: nat) {
    forall k :: 512 * used <= k < |slots| ==> slots[k] == Empty
  }

  /** The words are the tree's, but for the table hole, which is being filled. */
  ghost predicate Image(levels: nat, spans: seq<Span>, tree: Tree, done: set<nat>, slots: seq<Slot>, used: nat, hole: Node) {
    && Shape(levels, tree, used)
    && |slots| == WORDS
    && (forall n :: n in tree && n != hole ==> Entries(spans, tree, done, slots, n))
    && Zeros(slots, used)
  }

  const NO_HOLE: Node := Node(0, 0)

  /** The word of the entry that points at node c, or maps region c. */
  function EntryWord(tree: Tree, c: Node): nat
    requires c.Parent() in tree
  {
    512 * tree[c.Parent()] + c.index % 512
  }

  lemma Digit(i: nat, ix: nat)
    requires ix < 512
    ensures (i * 512 + ix) / 512 == i && (i * 512 + ix) % 512 == ix
  {
  }

  // ----- a new table

  /** Adding a table and the entry that points at it keeps the tree a tree. */
  lemma LinkShape(levels: nat, tree: Tree, used: nat, c: Node)
    requires Shape(levels, tree, used) && used < TABLES
    requires 1 <= c.height < levels && c !in tree && c.Parent() in tree
    ensures Shape(levels, tree[c := used], used + 1)
  {
    var tree' := tree[c := used];
    assert tree'.Keys == tree.Keys + {c};
    assert |tree'| == |tree'.Keys| == |tree.Keys| + 1;
  }

  /** One entry of a table that was there, after the link. */
  lemma LinkOther(spans: seq<Span>, tree: Tree, done: set<nat>, slots: seq<Slot>, used: nat, c: Node, n: Node, ix: nat)
    requires n in tree && c !in tree && c.Parent() in tree && c.height > 0 && n.height > 0
    requires tree[n] < TABLES && tree[c.Parent()] < TABLES && |slots| == WORDS && ix < 512
    requires tree[n] == tree[c.Parent()] ==> n == c.Parent()
    requires At(slots, tree[n], ix) == Content(spans, tree, done, n.height, n.index * 512 + ix)
    ensures At(slots[EntryWord(tree, c) := Points(used)], tree[n], ix)
            == Content(spans, tree[c := used], done, n.height, n.index * 512 + ix)
  {
    Digit(n.index, ix);
  }

  /** No entry but the one that points at the new table changes. */
  lemma LinkOthers(spans: seq<Span>, tree: Tree, done: set<nat>, slots: seq<Slot>, used: nat, c: Node, n: Node)
    requires n in tree && c !in tree && c.Parent() in tree && c.height > 0 && n.height > 0
    requires tree[n] < TABLES && tree[c.Parent()] < TABLES && |slots| == WORDS
    requires tree[n] == tree[c.Parent()] ==> n == c.Parent()
    requires Entries(spans, tree, done, slots, n)
    ensures Entries(spans, tree[c := used], done, slots[EntryWord(tree, c) := Points(used)], n)
  {
    var tree', slots' := tree[c := used], slots[EntryWord(tree, c) := Points(used)];
    forall ix | 0 <= ix < 512
      ensures At(slots', tree'[n], ix) == Content(spans, tree', done, n.height, n.index * 512 + ix)
    {
      assert At(slots, tree[n], ix) == Content(spans, tree, done, n.height, n.index * 512 + ix);
      LinkOther(spans, tree, done, slots, used, c, n, ix);
    }
  }

  /** A fresh table of tables is empty, as it must be: nothing under it is done. */
  lemma LinkFresh(levels: nat, spans: seq<Span>, tree: Tree, done: set<nat>, slots: seq<Slot>, used: nat, c: Node)
    requires Closed(levels, tree) && used < TABLES && |slots| == WORDS && Zeros(slots, used)
    requires 2 <= c.height < levels && c !in tree && c.Parent() in tree && tree[c.Parent()] < used
    requires c.height == 2 ==> forall b :: b in done ==> Node(2, b / 512) in tree
    ensures Entries(spans, tree[c := used], done, slots[EntryWord(tree, c) := Points(used)], c)
  {
    var tree', slots' := tree[c := used], slots[EntryWord(tree, c) := Points(used)];
    forall ix | 0 <= ix < 512
      ensures At(slots', used, ix) == Content(spans, tree', done, c.height, c.index * 512 + ix)
    {
      var j := c.index * 512 + ix;
      Digit(c.index, ix);
      NothingBelow(levels, tree, c, j);
      assert slots[512 * used + ix] == Empty;
    }
  }

  lemma NothingBelow(levels: nat, tree: Tree, c: Node, j: nat)
    requires Closed(levels, tree) && 2 <= c.height <= levels && c !in tree && j / 512 == c.index
    ensures Node(c.height - 1, j) !in tree
  {
    assert Node(c.height - 1, j).Parent() == c;
  }

  /** Adding a table of tables and the entry for it keeps the image. */
  lemma LinkImage(levels: nat, spans: seq<Span>, tree: Tree, done: set<nat>, slots: seq<Slot>, used: nat, c: Node)
    requires Image(levels, spans, tree, done, slots, used, NO_HOLE) && Marks(spans, tree, done) && used < TABLES
    requires 2 <= c.height < levels && c !in tree && c.Parent() in tree
    ensures EntryWord(tree, c) < 512 * used
    ensures Image(levels, spans, tree[c := used], done, slots[EntryWord(tree, c) := Points(used)], used + 1, NO_HOLE)
    ensures Marks(spans, tree[c := used], done)
  {
    hide Entries, Zeros, Shape, Marks;
    LinkShape(levels, tree, used, c);
    LinkMarks(spans, tree, done, used, c);
    LinkZeros(levels, tree, slots, used, c);
    var tree', slots' := tree[c := used], slots[EntryWord(tree, c) := Points(used)];
    ShapeBounds(levels, tree', used + 1);
    forall n | n in tree' && n != NO_HOLE
      ensures Entries(spans, tree', done, slots', n)
    {
      if n == c {
        BelowDone(spans, tree, done);
        LinkFresh(levels, spans, tree, done, slots, used, c);
      } else {
        ApartFrom(levels, tree, used, c.Parent(), n);
        LinkOthers(spans, tree, done, slots, used, c, n);
      }
    }
  }

  lemma LinkMarks(spans: seq<Span>, tree: Tree, done: set<nat>, used: nat, c: Node)
    requires Marks(spans, tree, done) && c.height >= 2
    ensures Marks(spans, tree[c := used], done)
  {
    hide Uniform;
  }

  lemma LinkZeros(levels: nat, tree: Tree, slots: seq<Slot>, used: nat, c: Node)
    requires Shape(levels, tree, used) && Zeros(slots, used) && |slots| == WORDS && used < TABLES
    requires c.Parent() in tree && c.height < levels
    ensures Closed(levels, tree) && tree[c.Parent()] < used <= TABLES && EntryWord(tree, c) < 512 * used <= WORDS
    ensures Zeros(slots[EntryWord(tree, c) := Points(used)], used + 1)
  {
  }

  lemma ShapeBounds(levels: nat, tree: Tree, used: nat)
    requires Shape(levels, tree, used)
    ensures forall n :: n in tree ==> tree[n] < TABLES
  {
  }

  lemma BelowDone(spans: seq<Span>, tree: Tree, done: set<nat>)
    requires Marks(spans, tree, done)
    ensures forall b :: b in done ==> Node(2, b / 512) in tree
  {
  }

  lemma ApartFrom(levels: nat, tree: Tree, used: nat, m: Node, n: Node)
    requires Shape(levels, tree, used) && m in tree && n in tree
    ensures tree[n] < used <= TABLES && n.height > 0 && (tree[n] == tree[m] ==> n == m)
  {
  }

  /** The entry for a table of tables points at it, if it is there. */
  lemma TableEntry(spans: seq<Span>, tree: Tree, done: set<nat>, slots: seq<Slot>, c: Node)
    requires c.height >= 2 && c.Parent() in tree && tree[c.Parent()] < TABLES && |slots| == WORDS
    requires Entries(spans, tree, done, slots, c.Parent())
    ensures EntryWord(tree, c) < WORDS
    ensures slots[EntryWord(tree, c)] == if c in tree then Points(tree[c]) else Empty
  {
    assert At(slots, tree[c.Parent()], c.index % 512)
           == Content(spans, tree, done, c.height + 1, c.index / 512 * 512 + c.index % 512);
  }

  // ----- a finished block

  /** Finishing a block changes only the entry for it. */
  lemma FinishOthers(spans: seq<Span>, tree: Tree, done: set<nat>, slots: seq<Slot>, n: Node, b: nat)
    requires n in tree && n.height > 0 && Node(2, b / 512) in tree && Node(1, b) !in tree
    requires tree[n] < TABLES && tree[Node(2, b / 512)] < TABLES && |slots| == WORDS
    requires tree[n] == tree[Node(2, b / 512)] ==> n == Node(2, b / 512)
    requires Entries(spans, tree, done, slots, n)
    ensures Entries(spans, tree, done + {b}, slots[EntryWord(tree, Node(1, b)) := BlockSlot(spans, b)], n)
  {
    var slots' := slots[EntryWord(tree, Node(1, b)) := BlockSlot(spans, b)];
    forall ix | 0 <= ix < 512
      ensures At(slots', tree[n], ix) == Content(spans, tree, done + {b}, n.height, n.index * 512 + ix)
    {
      assert At(slots, tree[n], ix) == Content(spans, tree, done, n.height, n.index * 512 + ix);
      FinishOther(spans, tree, done, slots, n, b, ix);
    }
  }

  lemma FinishOther(spans: seq<Span>, tree: Tree, done: set<nat>, slots: seq<Slot>, n: Node, b: nat, ix: nat)
    requires n in tree && n.height > 0 && Node(2, b / 512) in tree && Node(1, b) !in tree
    requires tree[n] < TABLES && tree[Node(2, b / 512)] < TABLES && |slots| == WORDS && ix < 512
    requires tree[n] == tree[Node(2, b / 512)] ==> n == Node(2, b / 512)
    requires At(slots, tree[n], ix) == Content(spans, tree, done, n.height, n.index * 512 + ix)
    ensures At(slots[EntryWord(tree, Node(1, b)) := BlockSlot(spans, b)], tree[n], ix)
            == Content(spans, tree, done + {b}, n.height, n.index * 512 + ix)
  {
    Digit(n.index, ix);
  }

  /** A block of one permission: its leaf, or nothing. */
  lemma FinishUniform(levels: nat, spans: seq<Span>, tree: Tree, done: set<nat>, slots: seq<Slot>, used: nat, b: nat)
    requires Image(levels, spans, tree, done, slots, used, NO_HOLE) && Marks(spans, tree, done)
    requires b !in done && Uniform(spans, b) && Node(2, b / 512) in tree
    ensures EntryWord(tree, Node(1, b)) < 512 * used && slots[EntryWord(tree, Node(1, b))] == Empty
    ensures Image(levels, spans, tree, done + {b}, slots[EntryWord(tree, Node(1, b)) := BlockSlot(spans, b)], used, NO_HOLE)
    ensures Marks(spans, tree, done + {b})
  {
    assert Node(1, b) !in tree;
    EmptyEntry(spans, tree, done, slots, b);
    forall n | n in tree
      ensures Entries(spans, tree, done + {b}, slots[EntryWord(tree, Node(1, b)) := BlockSlot(spans, b)], n)
    {
      FinishOthers(spans, tree, done, slots, n, b);
    }
  }

  lemma EmptyEntry(spans: seq<Span>, tree: Tree, done: set<nat>, slots: seq<Slot>, b: nat)
    requires Node(2, b / 512) in tree && Node(1, b) !in tree && b !in done
    requires tree[Node(2, b / 512)] < TABLES && |slots| == WORDS
    requires Entries(spans, tree, done, slots, Node(2, b / 512))
    ensures slots[EntryWord(tree, Node(1, b))] == Empty
  {
    assert At(slots, tree[Node(2, b / 512)], b % 512) == Content(spans, tree, done, 2, b / 512 * 512 + b % 512);
  }

  // ----- a table of pages

  /** The first k pages of block b's table are written, and the rest are still zero. */
  ghost predicate Filled(spans: seq<Span>, slots: seq<Slot>, t: nat, b: nat, k: nat)
    requires t < TABLES && |slots| == WORDS
  {
    forall ix :: 0 <= ix < 512 ==> At(slots, t, ix) == if ix < k then PageSlot(spans, b * 512 + ix) else Empty
  }

  /** Linking a table of pages: the block is finished but for the table's own entries. */
  lemma LinkPages(levels: nat, spans: seq<Span>, tree: Tree, done: set<nat>, slots: seq<Slot>, used: nat, b: nat)
    requires Image(levels, spans, tree, done, slots, used, NO_HOLE) && Marks(spans, tree, done) && used < TABLES
    requires b !in done && !Uniform(spans, b) && Node(2, b / 512) in tree && levels > 1
    ensures Node(1, b) !in tree && EntryWord(tree, Node(1, b)) < 512 * used
    ensures var slots' := slots[EntryWord(tree, Node(1, b)) := Points(used)];
            && Image(levels, spans, tree[Node(1, b) := used], done + {b}, slots', used + 1, Node(1, b))
            && Filled(spans, slots', used, b, 0)
    ensures Marks(spans, tree[Node(1, b) := used], done + {b})
  {
    var c := Node(1, b);
    var tree', slots' := tree[c := used], slots[EntryWord(tree, c) := Points(used)];
    LinkShape(levels, tree, used, c);
    forall n | n in tree' && n != c
      ensures Entries(spans, tree', done + {b}, slots', n)
    {
      LinkPagesOther(spans, tree, done, slots, used, b, n);
    }
    FreshPages(spans, tree, slots, used, b);
    LinkPagesMarks(spans, tree, done, used, b);
  }

  lemma LinkPagesMarks(spans: seq<Span>, tree: Tree, done: set<nat>, used: nat, b: nat)
    requires Marks(spans, tree, done) && !Uniform(spans, b) && Node(2, b / 512) in tree
    ensures Marks(spans, tree[Node(1, b) := used], done + {b})
  {
  }

  lemma LinkPagesOther(spans: seq<Span>, tree: Tree, done: set<nat>, slots: seq<Slot>, used: nat, b: nat, n: Node)
    requires n in tree && Node(1, b) !in tree && Node(2, b / 512) in tree && n.height > 0
    requires tree[n] < TABLES && tree[Node(2, b / 512)] < TABLES && |slots| == WORDS
    requires tree[n] == tree[Node(2, b / 512)] ==> n == Node(2, b / 512)
    requires Entries(spans, tree, done, slots, n)
    ensures Entries(spans, tree[Node(1, b) := used], done + {b}, slots[EntryWord(tree, Node(1, b)) := Points(used)], n)
  {
    LinkOthers(spans, tree, done, slots, used, Node(1, b), n);
    SameContent(spans, tree[Node(1, b) := used], done, slots[EntryWord(tree, Node(1, b)) := Points(used)], n, b);
  }

  lemma FreshPages(spans: seq<Span>, tree: Tree, slots: seq<Slot>, used: nat, b: nat)
    requires |slots| == WORDS && Zeros(slots, used) && used < TABLES
    requires Node(2, b / 512) in tree && tree[Node(2, b / 512)] < used
    ensures Filled(spans, slots[EntryWord(tree, Node(1, b)) := Points(used)], used, b, 0)
  {
    var slots' := slots[EntryWord(tree, Node(1, b)) := Points(used)];
    forall ix | 0 <= ix < 512
      ensures At(slots', used, ix) == Empty
    {
      assert slots[512 * used + ix] == Empty;
    }
  }

  /** Once its table is there, whether a block is marked done changes no entry. */
  lemma SameContent(spans: seq<Span>, tree: Tree, done: set<nat>, slots: seq<Slot>, n: Node, b: nat)
    requires n in tree && tree[n] < TABLES && |slots| == WORDS && Node(1, b) in tree
    requires Entries(spans, tree, done, slots, n)
    ensures Entries(spans, tree, done + {b}, slots, n)
  {
    forall ix | 0 <= ix < 512
      ensures At(slots, tree[n], ix) == Content(spans, tree, done + {b}, n.height, n.index * 512 + ix)
    {
      assert At(slots, tree[n], ix) == Content(spans, tree, done, n.height, n.index * 512 + ix);
    }
  }

  /** Writing one page's entry. */
  lemma FillOne(spans: seq<Span>, slots: seq<Slot>, t: nat, b: nat, k: nat)
    requires t < TABLES && |slots| == WORDS && k < 512 && Filled(spans, slots, t, b, k)
    ensures At(slots, t, k) == Empty
    ensures Filled(spans, slots[512 * t + k := PageSlot(spans, b * 512 + k)], t, b, k + 1)
  {
    var slots' := slots[512 * t + k := PageSlot(spans, b * 512 + k)];
    forall ix | 0 <= ix < 512
      ensures At(slots', t, ix) == if ix < k + 1 then PageSlot(spans, b * 512 + ix) else Empty
    {
      assert At(slots, t, ix) == if ix < k then PageSlot(spans, b * 512 + ix) else Empty;
    }
  }

  /** A write in the hole's table is none of the others'. */
  lemma FillOthers(levels: nat, spans: seq<Span>, tree: Tree, done: set<nat>, slots: seq<Slot>, used: nat, hole: Node, k: nat, e: Slot)
    requires Image(levels, spans, tree, done, slots, used, hole) && hole in tree && k < 512
    ensures Image(levels, spans, tree, done, slots[512 * tree[hole] + k := e], used, hole)
  {
    var at := 512 * tree[hole] + k;
    forall n | n in tree && n != hole
      ensures Entries(spans, tree, done, slots[at := e], n)
    {
      FillOther(spans, tree, done, slots, n, at, e);
    }
  }

  lemma FillOther(spans: seq<Span>, tree: Tree, done: set<nat>, slots: seq<Slot>, n: Node, at: nat, e: Slot)
    requires n in tree && tree[n] < TABLES && |slots| == WORDS && at < WORDS && at / 512 != tree[n]
    requires Entries(spans, tree, done, slots, n)
    ensures Entries(spans, tree, done, slots[at := e], n)
  {
    var slots' := slots[at := e];
    forall ix | 0 <= ix < 512
      ensures At(slots', tree[n], ix) == Content(spans, tree, done, n.height, n.index * 512 + ix)
    {
      assert At(slots, tree[n], ix) == Content(spans, tree, done, n.height, n.index * 512 + ix);
    }
  }

  /** A full table of pages closes the hole. */
  lemma FillClose(levels: nat, spans: seq<Span>, tree: Tree, done: set<nat>, slots: seq<Slot>, used: nat, b: nat)
    requires Node(1, b) in tree && Image(levels, spans, tree, done, slots, used, Node(1, b))
    requires Filled(spans, slots, tree[Node(1, b)], b, 512)
    ensures Image(levels, spans, tree, done, slots, used, NO_HOLE)
  {
    FilledEntries(spans, tree, done, slots, b);
  }

  lemma FilledEntries(spans: seq<Span>, tree: Tree, done: set<nat>, slots: seq<Slot>, b: nat)
    requires Node(1, b) in tree && tree[Node(1, b)] < TABLES && |slots| == WORDS
    requires Filled(spans, slots, tree[Node(1, b)], b, 512)
    ensures Entries(spans, tree, done, slots, Node(1, b))
  {
  }
}
