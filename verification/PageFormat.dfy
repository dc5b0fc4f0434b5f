/** How each ISA writes a page-table entry, and how its hardware reads one.

    `Table` and `Leaf` are the monitor's (vmm/setup_amd64.go, vmm/setup_arm64.go).  `Decode` and
    `Translate` are the processors': 4-level paging in section 4.5 of the Intel 64 and IA-32
    Architectures Software Developer's Manual, volume 3A, and the VMSAv8-64 descriptors of
    section D8.3 of the Arm Architecture Reference Manual.
 */
module PageFormat {
  import opened Bits
  import opened Memory

  // ----- permissions

  type Perm = bv8

  const READ: Perm := 1
  const WRITE: Perm := 2
  const EXEC: Perm := 4
  const DEVICE: Perm := 8

  predicate Has(p: Perm, flag: Perm) {
    p & flag != 0
  }

  // ----- the two formats

  datatype Isa = Amd64 | Arm64

  const PAGE: nat := 0x1000
  const BLOCK: nat := 0x200000

  /** The tables from the root to the pages. */
  function Levels(isa: Isa): nat {
    if isa.Amd64? then 4 else 3
  }

  /** The addresses translated: canonical lower half, and TCR_EL1's 32-bit space. */
  function Space(isa: Isa): nat {
    if isa.Amd64? then 0x8000_0000_0000 else 0x1_0000_0000
  }

  /** The addresses that the tables' indices tell apart. */
  function Indexed(isa: Isa): nat {
    if isa.Amd64? then 0x1_0000_0000_0000 else 0x80_0000_0000
  }

  const PT_P: nat := 0x1
  const PT_RW: nat := 0x2
  const PT_PS: nat := 0x80
  const PT_NX: nat := 0x8000_0000_0000_0000

  const D_VALID: nat := 0x1
  const D_TABLE: nat := 0x2
  const D_PAGE: nat := 0x2
  const D_ATTR_DEVICE: nat := 0x4
  const D_RO: nat := 0x80
  const D_SH_INNER: nat := 0x300
  const D_AF: nat := 0x400
  const D_PXN: nat := 0x20_0000_0000_0000
  const D_UXN: nat := 0x40_0000_0000_0000

  /** The entry that points at the table at pa. */
  function Table(isa: Isa, pa: nat): nat {
    match isa
    case Amd64 => Or(Or(pa, PT_P), PT_RW)
    case Arm64 => Or(Or(pa, D_VALID), D_TABLE)
  }

  /** The entry that maps the page (or the 2 MiB block) at pa with permission p. */
  function Leaf(isa: Isa, pa: nat, p: Perm, big: bool): nat {
    match isa
    case Amd64 =>
      var e := Or(pa, PT_P);
      var e := if Has(p, WRITE) then Or(e, PT_RW) else e;
      var e := if !Has(p, EXEC) then Or(e, PT_NX) else e;
      if big then Or(e, PT_PS) else e
    case Arm64 =>
      var e := Or(Or(Or(pa, D_VALID), D_AF), D_UXN);
      var e := if !big then Or(e, D_PAGE) else e;
      var e := if Has(p, DEVICE) then Or(e, D_ATTR_DEVICE) else Or(e, D_SH_INNER);
      var e := if !Has(p, WRITE) then Or(e, D_RO) else e;
      if !Has(p, EXEC) then Or(e, D_PXN) else e
  }

  // ----- the hardware's reading of an entry

  predicate Bit(e: nat, weight: nat)
    requires weight > 0
  {
    e / weight % 2 == 1
  }

  /** The number of the region of va that a table of the given height covers: height 1 holds pages,
      height 2 blocks of 2 MiB, and so on up to the root, of height `Levels(isa)`.  At height 0 it is
      va's page. */
  function Region(height: nat, va: nat): nat
    requires height <= 4
  {
    match height
    case 0 => va / 0x1000
    case 1 => va / 0x20_0000
    case 2 => va / 0x4000_0000
    case 3 => va / 0x80_0000_0000
    case 4 => va / 0x1_0000_0000_0000
  }

  /** The pages that one entry of a table of the given height covers. */
  function Frames(height: nat): nat
    requires 1 <= height <= 4
  {
    match height
    case 1 => 1
    case 2 => 0x200
    case 3 => 0x4_0000
    case 4 => 0x800_0000
  }

  /** The byte of va within what one entry of a table of the given height maps. */
  function Offset(height: nat, va: nat): nat
    requires 1 <= height <= 4
  {
    match height
    case 1 => va % 0x1000
    case 2 => va % 0x20_0000
    case 3 => va % 0x4000_0000
    case 4 => va % 0x80_0000_0000
  }

  /** What an entry says: nothing there, a pattern the architecture reserves, the next table and
      what it still lets through, or memory. */
  datatype Entry =
    | Absent
    | Reserved
    | Next(table: nat, write: bool, exec: bool)
    | Memory(pa: nat, write: bool, exec: bool, device: bool)

  /** An entry's reading: its bits 11 to 0 are the low word, the others the frame's number with
      the high flags above it. */
  function Decode(isa: Isa, height: nat, e: nat): Entry
    requires 1 <= height <= Levels(isa)
  {
    DecodeParts(isa, height, e % 0x1000, e / 0x1000)
  }

  function DecodeParts(isa: Isa, height: nat, low: nat, high: nat): Entry
    requires 1 <= height <= Levels(isa)
  {
    var frames := Frames(height);
    match isa
    case Amd64 =>
      // bits 51:12 the address, bit 63 execute-disable
      var frame := high % 0x100_0000_0000;
      var write, exec := Bit(low, 0x2), !Bit(high, 0x8_0000_0000_0000);
      if !Bit(low, 0x1) then Absent
      else if height == 1 then Memory(frame * 0x1000, write, exec, false)
      else if !Bit(low, 0x80) then Next(frame * 0x1000, write, exec)
      else if height == 4 || frame % frames / 2 != 0 then Reserved
      else Memory(frame / frames * frames * 0x1000, write, exec, false)
    case Arm64 =>
      // bits 47:12 the address, bits 53, 59 and 62 execute-never and the tables' limits
      var frame := high % 0x10_0000_0000;
      var write, exec := !Bit(low, 0x80), !Bit(high, 0x200_0000_0000);
      if !Bit(low, 0x1) then Absent
      else if height > 1 && Bit(low, 0x2) then
        Next(frame * 0x1000, !Bit(high, 0x4_0000_0000_0000), !Bit(high, 0x8000_0000_0000))
      else if (height == 1 && !Bit(low, 0x2)) || !Bit(low, 0x400) then Reserved
      else Memory(frame / frames * frames * 0x1000, write, exec, low / 4 % 8 != 0)
  }

  // ----- the hardware's walk

  /** What the processor finds for an address. */
  datatype Mapping =
    | Unmapped
    | Malformed
    | Mapped(pa: nat, write: bool, exec: bool, device: bool)

  /** The walk from the table of the given height at t, in physical memory mem. */
  function Translate(isa: Isa, mem: seq<byte>, t: nat, height: nat, va: nat): Mapping
    requires 1 <= height <= Levels(isa)
    decreases height
  {
    var at := t + Region(height - 1, va) % 512 * 8;
    if at + 8 > |mem| then Malformed
    else
      match Decode(isa, height, Word(mem, at))
      case Absent => Unmapped
      case Reserved => Malformed
      case Memory(pa, write, exec, device) => Mapped(pa + Offset(height, va), write, exec, device)
      case Next(table, write, exec) =>
        if height == 1 then Malformed
        else
          match Translate(isa, mem, table, height - 1, va)
          case Mapped(pa, w, x, device) => Mapped(pa, write && w, exec && x, device)
          case other => other
  }

  /** The whole walk, from the root the processor is given. */
  function Walk(isa: Isa, mem: seq<byte>, root: nat, va: nat): Mapping {
    if va >= Space(isa) then Unmapped else Translate(isa, mem, root, Levels(isa), va)
  }

  /** Of an address no more is looked at than what the indices tell apart. */
  lemma {:induction false} TranslateWraps(isa: Isa, mem: seq<byte>, t: nat, height: nat, va: nat)
    requires 1 <= height <= Levels(isa)
    ensures Translate(isa, mem, t, height, va) == Translate(isa, mem, t, height, va % Indexed(isa))
    decreases height
  {
    hide Decode, Word;
    IndexWraps(isa, height, va);
    hide Region, Offset, Indexed;
    var at := t + Region(height - 1, va) % 512 * 8;
    if at + 8 <= |mem| {
      var e := Decode(isa, height, Word(mem, at));
      if e.Next? && height > 1 {
        TranslateWraps(isa, mem, e.table, height - 1, va);
      }
    }
  }

  lemma IndexWraps(isa: Isa, height: nat, va: nat)
    requires 1 <= height <= Levels(isa)
    ensures Region(height - 1, va) % 512 == Region(height - 1, va % Indexed(isa)) % 512
    ensures Offset(height, va) == Offset(height, va % Indexed(isa))
  {
    var q, r := va / Indexed(isa), va % Indexed(isa);
    match isa
    case Amd64 =>
      if height == 4 {
        RootWraps(q, r);
      } else {
        LowerWraps(height, 512 * q, r);
      }
    case Arm64 => LowerWraps(height, q, r);
  }

  lemma {:induction false} RootWraps(q: nat, r: nat)
    ensures Region(3, 0x1_0000_0000_0000 * q + r) % 512 == Region(3, r) % 512
    ensures Offset(4, 0x1_0000_0000_0000 * q + r) == Offset(4, r)
  {
    assert (0x1_0000_0000_0000 * q + r) / 0x80_0000_0000 == 512 * q + r / 0x80_0000_0000;
    Wholes(q, r / 0x80_0000_0000);
  }

  lemma {:induction false} LowerWraps(height: nat, q: nat, r: nat)
    requires 1 <= height <= 3
    ensures Region(height - 1, 0x80_0000_0000 * q + r) % 512 == Region(height - 1, r) % 512
    ensures Offset(height, 0x80_0000_0000 * q + r) == Offset(height, r)
  {
    match height
    case 1 => Pages(q, r);
    case 2 => BlocksOf(q, r);
    case 3 => Gigabytes(q, r);
  }

  lemma {:induction false} Wholes(q: nat, x: nat)
    ensures (512 * q + x) % 512 == x % 512
  {
  }

  lemma {:induction false} Pages(q: nat, r: nat)
    ensures (0x80_0000_0000 * q + r) / 0x1000 % 512 == r / 0x1000 % 512
    ensures (0x80_0000_0000 * q + r) % 0x1000 == r % 0x1000
  {
    assert (0x80_0000_0000 * q + r) / 0x1000 == 512 * (0x4_0000 * q) + r / 0x1000;
    Wholes(0x4_0000 * q, r / 0x1000);
  }

  lemma {:induction false} BlocksOf(q: nat, r: nat)
    ensures (0x80_0000_0000 * q + r) / 0x20_0000 % 512 == r / 0x20_0000 % 512
    ensures (0x80_0000_0000 * q + r) % 0x20_0000 == r % 0x20_0000
  {
    assert (0x80_0000_0000 * q + r) / 0x20_0000 == 512 * (0x200 * q) + r / 0x20_0000;
    Wholes(0x200 * q, r / 0x20_0000);
  }

  lemma {:induction false} Gigabytes(q: nat, r: nat)
    ensures (0x80_0000_0000 * q + r) / 0x4000_0000 % 512 == r / 0x4000_0000 % 512
    ensures (0x80_0000_0000 * q + r) % 0x4000_0000 == r % 0x4000_0000
  {
    assert (0x80_0000_0000 * q + r) / 0x4000_0000 == 512 * q + r / 0x4000_0000;
    Wholes(q, r / 0x4000_0000);
  }

  /** No tables translate each of two addresses to itself that the indices do not tell apart. */
  lemma Aliases(isa: Isa, mem: seq<byte>, root: nat, va: nat, other: nat)
    requires va != other && va % Indexed(isa) == other % Indexed(isa)
    ensures Translate(isa, mem, root, Levels(isa), va) == Translate(isa, mem, root, Levels(isa), other)
    ensures forall w, x, d, w', x', d' ::
              !(&& Translate(isa, mem, root, Levels(isa), va) == Mapped(va, w, x, d)
                && Translate(isa, mem, root, Levels(isa), other) == Mapped(other, w', x', d'))
  {
    hide Translate;
    TranslateWraps(isa, mem, root, Levels(isa), va);
    TranslateWraps(isa, mem, root, Levels(isa), other);
  }

  // ----- the monitor's entries, as the hardware reads them

  /** What a leaf for p should read as. */
  function Grants(isa: Isa, pa: nat, p: Perm): Entry {
    Memory(pa, Has(p, WRITE), Has(p, EXEC), isa.Arm64? && Has(p, DEVICE))
  }

  /** Or-ing a flag among the low twelve bits, or above them. */
  lemma OrLow(n: nat, low: nat, flag: nat)
    requires low < 0x1000 && flag < 0x1000
    ensures Or(0x1000 * n + low, flag) == 0x1000 * n + Or(low, flag)
  {
    Pow2At12();
    OrSplit(n, low, 0, flag, 12);
    ShlTwelve(n);
    assert Or(n, 0) == n;
  }

  lemma OrHigh(n: nat, low: nat, flag: nat)
    requires low < 0x1000
    ensures Or(0x1000 * n + low, 0x1000 * flag) == 0x1000 * Or(n, flag) + low
  {
    Pow2At12();
    OrSplit(n, low, flag, 0, 12);
    ShlTwelve(n);
    ShlTwelve(flag);
    ShlTwelve(Or(n, flag));
    assert Or(low, 0) == low;
  }

  /** One bit above a frame number. */
  lemma OrAboveFrame(n: nat, k: nat, weight: nat)
    requires weight == Pow2(k) && n / weight % 2 == 0
    ensures Or(n, weight) == n + weight
  {
    ShrIsDiv(n, k);
    OrBit(n, k);
  }

  lemma TableSum(isa: Isa, n: nat)
    ensures Table(isa, 0x1000 * n) == 0x1000 * n + 3
  {
    OrLow(n, 0, 1);
    OrLow(n, 1, 2);
    assert Or(1, 2) == 3;
  }

  lemma Parts(high: nat, low: nat)
    requires low < 0x1000
    ensures (0x1000 * high + low) % 0x1000 == low && (0x1000 * high + low) / 0x1000 == high
  {
  }

  /** A table entry is read as that table, with every permission let through. */
  lemma TableReads(isa: Isa, pa: nat, height: nat)
    requires pa % PAGE == 0 && pa < 0x1_0000_0000_0000 && 2 <= height <= Levels(isa)
    ensures 0 < Table(isa, pa) < WORD_LIMIT
    ensures Decode(isa, height, Table(isa, pa)) == Next(pa, true, true)
    ensures And(Table(isa, pa), 0x0000_ffff_ffff_f000) == pa
  {
    var n := pa / 0x1000;
    TableSum(isa, n);
    Parts(n, 3);
    TableAddress(n, 3);
    TablePartsRead(isa, n, height);
  }

  lemma TablePartsRead(isa: Isa, n: nat, height: nat)
    requires n < 0x10_0000_0000 && 2 <= height <= Levels(isa)
    ensures DecodeParts(isa, height, 3, n) == Next(n * 0x1000, true, true)
  {
  }

  /** The mask with which the monitor reads a table's address out of an entry. */
  lemma TableAddress(n: nat, low: nat)
    requires n < 0x10_0000_0000 && low < 0x1000
    ensures And(0x1000 * n + low, 0x0000_ffff_ffff_f000) == 0x1000 * n
  {
    var ones := 0xf_ffff_ffff;
    ShlTwelve(ones);
    AndAbove(0x1000 * n + low, ones, 12);
    ShrTwelve(n, low);
    AndFrame(n);
    ShlTwelve(n);
  }

  lemma ShrTwelve(n: nat, low: nat)
    requires low < 0x1000
    ensures Shr(0x1000 * n + low, 12) == n
  {
    ShrIsDiv(0x1000 * n + low, 12);
    Pow2At12();
    Parts(n, low);
  }

  lemma AndFrame(n: nat)
    requires n < 0x10_0000_0000
    ensures And(n, 0xf_ffff_ffff) == n
  {
    Pow2At36();
    AndOnes(n, 36);
  }

  lemma ShlTwelve(n: nat)
    ensures Shl(n, 12) == 0x1000 * n
  {
    ShlIsMul(n, 12);
    Pow2At12();
  }

  /** amd64's leaf: the low flags, and execute-disable above the frame. */
  lemma Amd64LeafSum(n: nat, p: Perm, big: bool)
    requires n < 0x10_0000_0000
    ensures Leaf(Amd64, 0x1000 * n, p, big) ==
            0x1000 * (if Has(p, EXEC) then n else n + 0x8_0000_0000_0000)
            + (if Has(p, WRITE) then 3 else 1) + (if big then 0x80 else 0)
  {
    Pow2Low();
    OrFlag(n, 0, 0, 1);
    OrFlag(n, 1, 1, 2);
    var low := if Has(p, WRITE) then 3 else 1;
    Amd64LeafNoExec(n, low);
    if Has(p, EXEC) {
      Amd64LeafBig(n, low);
    } else {
      Amd64LeafBig(n + 0x8_0000_0000_0000, low);
    }
  }

  lemma Amd64LeafBig(n: nat, low: nat)
    requires low == 1 || low == 3
    ensures Or(0x1000 * n + low, PT_PS) == 0x1000 * n + low + 0x80
  {
    assert low / 0x80 % 2 == 0;
    Pow2Low();
    OrFlag(n, low, 7, 0x80);
  }

  lemma Amd64LeafNoExec(n: nat, low: nat)
    requires n < 0x10_0000_0000 && low < 0x1000
    ensures Or(0x1000 * n + low, PT_NX) == 0x1000 * (n + 0x8_0000_0000_0000) + low
  {
    OrHigh(n, low, 0x8_0000_0000_0000);
    Pow2At51();
    OrAboveFrame(n, 51, 0x8_0000_0000_0000);
  }

  function Arm64Low(p: Perm, big: bool): nat {
    0x401 + (if big then 0 else 2) + (if Has(p, DEVICE) then 4 else 0x300) + (if Has(p, WRITE) then 0 else 0x80)
  }

  function Arm64High(p: Perm): nat {
    0x400_0000_0000 + (if Has(p, EXEC) then 0 else 0x200_0000_0000)
  }

  /** arm64's leaf: the low flags, and the two execute-never bits above the frame. */
  lemma Arm64LeafSum(n: nat, p: Perm, big: bool)
    requires n < 0x10_0000_0000
    ensures Leaf(Arm64, 0x1000 * n, p, big) == 0x1000 * (n + Arm64High(p)) + Arm64Low(p, big)
  {
    Arm64LeafBase(n);
    Arm64LeafFlags(n + 0x400_0000_0000, p, big);
    Arm64LeafNoExec(n, Arm64Low(p, big));
  }

  lemma Arm64LeafFlags(n: nat, p: Perm, big: bool)
    ensures var e := 0x1000 * n + 0x401;
            var e := if !big then Or(e, D_PAGE) else e;
            var e := if Has(p, DEVICE) then Or(e, D_ATTR_DEVICE) else Or(e, D_SH_INNER);
            (if !Has(p, WRITE) then Or(e, D_RO) else e) == 0x1000 * n + Arm64Low(p, big)
  {
    Pow2Low();
    OrFlag(n, 0x401, 1, 2);
    if big {
      Arm64LeafAttributes(n, 0x401, p);
    } else {
      Arm64LeafAttributes(n, 0x403, p);
    }
  }

  lemma Arm64LeafAttributes(n: nat, low: nat, p: Perm)
    requires low == 0x401 || low == 0x403
    ensures var e := 0x1000 * n + low;
            var e := if Has(p, DEVICE) then Or(e, D_ATTR_DEVICE) else Or(e, D_SH_INNER);
            (if !Has(p, WRITE) then Or(e, D_RO) else e)
            == 0x1000 * n + low + (if Has(p, DEVICE) then 4 else 0x300) + (if Has(p, WRITE) then 0 else 0x80)
  {
    hide Has, Or;
    if Has(p, DEVICE) {
      ClearTwo(low);
      OrFlag(n, low, 2, 4);
      Arm64LeafReadOnly(n, low + 4);
    } else {
      OrLow(n, low, 0x300);
      OrShareable(low);
      Arm64LeafReadOnly(n, low + 0x300);
    }
  }

  lemma ClearTwo(low: nat)
    requires low == 0x401 || low == 0x403
    ensures low / 4 % 2 == 0 && Pow2(2) == 4
  {
  }

  lemma Arm64LeafReadOnly(n: nat, low: nat)
    requires low in {0x405, 0x407, 0x701, 0x703}
    ensures Or(0x1000 * n + low, D_RO) == 0x1000 * n + low + 0x80
  {
    assert low / 0x80 % 2 == 0;
    Pow2Low();
    OrFlag(n, low, 7, 0x80);
  }

  lemma OrShareable(low: nat)
    requires low == 0x401 || low == 0x403
    ensures Or(low, 0x300) == low + 0x300
  {
    OrSplitByte(4, low - 0x400, 3);
    assert Or(4, 3) == 7;
  }

  lemma OrSplitByte(x: nat, low: nat, y: nat)
    requires low < 0x100
    ensures Or(0x100 * x + low, 0x100 * y) == 0x100 * Or(x, y) + low
  {
    Pow2At8();
    OrSplit(x, low, y, 0, 8);
    ShlIsMul(x, 8);
    ShlIsMul(y, 8);
    ShlIsMul(Or(x, y), 8);
  }

  /** Setting one of the low twelve bits that is clear. */
  lemma OrFlag(n: nat, low: nat, k: nat, flag: nat)
    requires low < 0x1000 && flag < 0x1000 && flag == Pow2(k)
    requires low / flag % 2 == 0
    ensures Or(0x1000 * n + low, flag) == 0x1000 * n + low + flag
  {
    OrLow(n, low, flag);
    OrAboveFrame(low, k, flag);
  }

  lemma Arm64LeafBase(n: nat)
    requires n < 0x10_0000_0000
    ensures Or(Or(Or(0x1000 * n, D_VALID), D_AF), D_UXN) == 0x1000 * (n + 0x400_0000_0000) + 0x401
  {
    Pow2Low();
    OrFlag(n, 0, 0, 1);
    OrFlag(n, 1, 10, 0x400);
    Arm64LeafUserNoExec(n);
  }

  lemma Arm64LeafUserNoExec(n: nat)
    requires n < 0x10_0000_0000
    ensures Or(0x1000 * n + 0x401, D_UXN) == 0x1000 * (n + 0x400_0000_0000) + 0x401
  {
    OrHigh(n, 0x401, 0x400_0000_0000);
    Pow2At42();
    OrAboveFrame(n, 42, 0x400_0000_0000);
  }

  lemma Arm64LeafNoExec(n: nat, low: nat)
    requires n < 0x10_0000_0000 && low < 0x1000
    ensures Or(0x1000 * (n + 0x400_0000_0000) + low, D_PXN) == 0x1000 * (n + 0x600_0000_0000) + low
  {
    var n1 := n + 0x400_0000_0000;
    assert n1 / 0x200_0000_0000 == 2;
    OrHigh(n1, low, 0x200_0000_0000);
    Pow2At41();
    OrAboveFrame(n1, 41, 0x200_0000_0000);
  }

  /** An arm64 leaf, field by field: valid, a page or a block, the attributes of device or of normal memory,
      read-only, the shareability of normal memory, accessed, the address, and who may not execute. */
  lemma Arm64Fields(pa: nat, p: Perm, big: bool)
    requires pa < 0x1_0000_0000_0000 && pa % 0x1000 == 0
    ensures var e := Leaf(Arm64, pa, p, big);
            && e % 2 == 1 && (e / 0x2 % 2 == 1 <==> !big)
            && e / 0x4 % 8 == (if Has(p, DEVICE) then 1 else 0)
            && e / 0x20 % 4 == 0 && (e / 0x80 % 2 == 1 <==> !Has(p, WRITE))
            && e / 0x100 % 4 == (if Has(p, DEVICE) then 0 else 3)
            && e / 0x400 % 2 == 1 && e / 0x800 % 2 == 0
            && e / 0x1000 % 0x10_0000_0000 * 0x1000 == pa
            && (e / 0x20_0000_0000_0000 % 2 == 1 <==> !Has(p, EXEC)) && e / 0x40_0000_0000_0000 % 2 == 1
  {
    var n := pa / 0x1000;
    hide Leaf, Has;
    Arm64LeafSum(n, p, big);
    var high, low := n + Arm64High(p), Arm64Low(p, big);
    LowField(high, low);
    HighField(high, low);
    assert pa == 0x1000 * n;
    hide Arm64High;
    Arm64LowFields(p, big);
    hide Arm64Low;
    Arm64HighFields(n, p);
  }

  lemma LowField(high: nat, low: nat)
    requires low < 0x1000
    ensures var e := 0x1000 * high + low;
            && e % 2 == low % 2 && e / 0x2 % 2 == low / 0x2 % 2 && e / 0x4 % 8 == low / 0x4 % 8
            && e / 0x20 % 4 == low / 0x20 % 4 && e / 0x80 % 2 == low / 0x80 % 2 && e / 0x100 % 4 == low / 0x100 % 4
            && e / 0x400 % 2 == low / 0x400 % 2 && e / 0x800 % 2 == low / 0x800 % 2
  {
    FirstFields(high, low);
    MiddleFields(high, low);
    LastFields(high, low);
  }

  lemma {:induction false} FirstFields(high: nat, low: nat)
    ensures var e := 0x1000 * high + low;
            e % 2 == low % 2 && e / 0x2 % 2 == low / 0x2 % 2 && e / 0x4 % 8 == low / 0x4 % 8
  {
    assert (0x1000 * high + low) / 0x2 == 2 * (0x400 * high) + low / 0x2;
    assert (0x1000 * high + low) / 0x4 == 8 * (0x80 * high) + low / 0x4;
  }

  lemma {:induction false} MiddleFields(high: nat, low: nat)
    ensures var e := 0x1000 * high + low;
            e / 0x20 % 4 == low / 0x20 % 4 && e / 0x80 % 2 == low / 0x80 % 2 && e / 0x100 % 4 == low / 0x100 % 4
  {
    var x, y, z := low / 0x20, low / 0x80, low / 0x100;
    assert (0x1000 * high + low) / 0x20 == 0x80 * high + x;
    assert (0x1000 * high + low) / 0x80 == 0x20 * high + y;
    assert (0x1000 * high + low) / 0x100 == 0x10 * high + z;
    FieldMods(high, x, y, z);
  }

  lemma {:induction false} FieldMods(high: nat, x: nat, y: nat, z: nat)
    ensures (0x80 * high + x) % 4 == x % 4 && (0x20 * high + y) % 2 == y % 2 && (0x10 * high + z) % 4 == z % 4
  {
  }

  lemma {:induction false} LastFields(high: nat, low: nat)
    ensures var e := 0x1000 * high + low;
            e / 0x400 % 2 == low / 0x400 % 2 && e / 0x800 % 2 == low / 0x800 % 2
  {
    var e := 0x1000 * high + low;
    DivUnique(e, 0x400, 2 * (2 * high) + low / 0x400, low % 0x400);
    DivUnique(e, 0x800, 2 * high + low / 0x800, low % 0x800);
  }

  lemma HighField(high: nat, low: nat)
    requires low < 0x1000
    ensures var e := 0x1000 * high + low;
            && e / 0x1000 == high && e / 0x20_0000_0000_0000 == high / 0x200_0000_0000
            && e / 0x40_0000_0000_0000 == high / 0x400_0000_0000
  {
  }

  lemma Arm64LowFields(p: Perm, big: bool)
    ensures var low := Arm64Low(p, big);
            && low < 0x1000 && low % 2 == 1 && (low / 0x2 % 2 == 1 <==> !big)
            && low / 0x4 % 8 == (if Has(p, DEVICE) then 1 else 0)
            && low / 0x20 % 4 == 0 && (low / 0x80 % 2 == 1 <==> !Has(p, WRITE))
            && low / 0x100 % 4 == (if Has(p, DEVICE) then 0 else 3) && low / 0x400 % 2 == 1 && low / 0x800 % 2 == 0
  {
    hide Has;
  }

  lemma Arm64HighFields(n: nat, p: Perm)
    requires n < 0x10_0000_0000
    ensures var high := n + Arm64High(p);
            && high % 0x10_0000_0000 == n && (high / 0x200_0000_0000 % 2 == 1 <==> !Has(p, EXEC))
            && high / 0x400_0000_0000 % 2 == 1
  {
    hide Has;
  }

  /** A leaf is read as the page or block it was written for, with exactly p's permissions. */
  lemma LeafReads(isa: Isa, pa: nat, p: Perm, big: bool)
    requires pa < 0x1_0000_0000_0000 && pa % (if big then BLOCK else PAGE) == 0
    ensures 0 < Leaf(isa, pa, p, big) < WORD_LIMIT
    ensures Decode(isa, if big then 2 else 1, Leaf(isa, pa, p, big)) == Grants(isa, pa, p)
  {
    hide Decode, Leaf, Grants;
    var n := pa / 0x1000;
    LeafFrame(pa, big);
    if isa.Amd64? {
      Amd64LeafReads(n, p, big);
    } else {
      Arm64LeafReads(n, p, big);
    }
  }

  lemma LeafFrame(pa: nat, big: bool)
    requires pa < 0x1_0000_0000_0000 && pa % (if big then BLOCK else PAGE) == 0
    ensures pa == 0x1000 * (pa / 0x1000) && pa / 0x1000 < 0x10_0000_0000
    ensures big ==> pa / 0x1000 % 0x200 == 0
  {
    if big {
      BlockFrame(pa / 0x20_0000);
    }
  }

  lemma BlockFrame(q: nat)
    ensures 0x20_0000 * q % 0x1000 == 0 && 0x20_0000 * q / 0x1000 == 0x200 * q && 0x200 * q % 0x200 == 0
  {
  }

  lemma Amd64LeafReads(n: nat, p: Perm, big: bool)
    requires n < 0x10_0000_0000 && (big ==> n % 0x200 == 0)
    ensures 0 < Leaf(Amd64, 0x1000 * n, p, big) < WORD_LIMIT
    ensures Decode(Amd64, if big then 2 else 1, Leaf(Amd64, 0x1000 * n, p, big)) == Grants(Amd64, n * 0x1000, p)
  {
    Amd64LeafSum(n, p, big);
    Parts(Amd64High(n, p), Amd64Low(p, big));
    Amd64LeafParts(n, p, big);
  }

  lemma Arm64LeafReads(n: nat, p: Perm, big: bool)
    requires n < 0x10_0000_0000 && (big ==> n % 0x200 == 0)
    ensures 0 < Leaf(Arm64, 0x1000 * n, p, big) < WORD_LIMIT
    ensures Decode(Arm64, if big then 2 else 1, Leaf(Arm64, 0x1000 * n, p, big)) == Grants(Arm64, n * 0x1000, p)
  {
    Arm64LeafSum(n, p, big);
    Parts(n + Arm64High(p), Arm64Low(p, big));
    Arm64LeafParts(n, p, big);
  }

  function Amd64Low(p: Perm, big: bool): nat {
    (if Has(p, WRITE) then 3 else 1) + (if big then 0x80 else 0)
  }

  function Amd64High(n: nat, p: Perm): nat {
    if Has(p, EXEC) then n else n + 0x8_0000_0000_0000
  }

  lemma Amd64LowBits(p: Perm, big: bool)
    ensures var low := Amd64Low(p, big);
            Bit(low, 0x1) && Bit(low, 0x2) == Has(p, WRITE) && Bit(low, 0x80) == big
  {
    hide Has;
  }

  lemma Amd64HighBits(n: nat, p: Perm)
    requires n < 0x10_0000_0000
    ensures Amd64High(n, p) % 0x100_0000_0000 == n && Bit(Amd64High(n, p), 0x8_0000_0000_0000) == !Has(p, EXEC)
  {
    hide Has;
  }

  lemma Amd64LeafParts(n: nat, p: Perm, big: bool)
    requires n < 0x10_0000_0000 && (big ==> n % 0x200 == 0)
    ensures DecodeParts(Amd64, if big then 2 else 1, Amd64Low(p, big), Amd64High(n, p)) == Grants(Amd64, n * 0x1000, p)
  {
    hide Has, Bit, Amd64Low, Amd64High;
    Amd64LowBits(p, big);
    Amd64HighBits(n, p);
  }

  lemma Arm64LeafParts(n: nat, p: Perm, big: bool)
    requires n < 0x10_0000_0000 && (big ==> n % 0x200 == 0)
    ensures DecodeParts(Arm64, if big then 2 else 1, Arm64Low(p, big), n + Arm64High(p))
            == Grants(Arm64, n * 0x1000, p)
  {
  }
}
