/** A vCPU of arm64 on KVM that answers as Hypervisor.framework does (hv/kvm_linux_arm64.go).

    Where a store leaves the guest for the monitor, the framework leaves PC on it and the monitor
    advances it; KVM adds 4 to PC itself when the vCPU next runs.  A vCPU's methods make KVM's machine
    look like the framework's, of which the state is its PC and X0.
 */
module Arm64Shim {
  import opened Bits

  const TWO_64: nat := 0x1_0000_0000_0000_0000

  newtype Word = x: int | 0 <= x < 0x1_0000_0000_0000_0000

  /** In 64 bits. */
  function Plus(x: Word, y: int): Word {
    ((x as int + y) % TWO_64) as Word
  }

  // ----- the framework's machine

  datatype Framework = Framework(pc: Word, x0: Word)

  /** How a run ends: where PC and X0 are, and whether it is at a store, of n bytes and its data. */
  datatype Exit = Exit(pc: Word, x0: Word, store: bool, n: nat, data: Word)

  datatype Event =
    | Run(exit: Exit)
    | GetPC
    | SetPC(pc: Word)
    | GetX0
    | SetX0(x0: Word)

  /** What is seen of an event: the address from which a run goes on, or a register read. */
  datatype Seen = From(pc: Word) | Value(v: Word) | Nothing

  function Step(f: Framework, e: Event): Framework {
    match e
    case Run(exit) => Framework(exit.pc, exit.x0)
    case SetPC(pc) => f.(pc := pc)
    case SetX0(x0) => f.(x0 := x0)
    case _ => f
  }

  function See(f: Framework, e: Event): Seen {
    match e
    case Run(_) => From(f.pc)
    case GetPC => Value(f.pc)
    case GetX0 => Value(f.x0)
    case _ => Nothing
  }

  /** What a framework's vCPU shows of a sequence of events. */
  function Trace(f: Framework, events: seq<Event>): seq<Seen>
    decreases |events|
  {
    if events == [] then [] else [See(f, events[0])] + Trace(Step(f, events[0]), events[1..])
  }

  // ----- what a store was of

  function Power256(n: nat): nat {
    if n == 0 then 1 else 256 * Power256(n - 1)
  }

  /** x0 & mask. */
  function Masked(x: Word, n: nat): Word {
    if n < 8 then MaskedLow(x, n) else x
  }

  function MaskedLow(x: Word, n: nat): Word {
    PowerPositive(n);
    var r := x as int % Power256(n);
    assert r <= x as int by { Remainder(x as int, Power256(n)); }
    r as Word
  }

  lemma {:induction false} PowerPositive(n: nat)
    ensures Power256(n) > 0
  {
    if n > 0 {
      PowerPositive(n - 1);
    }
  }

  lemma Remainder(x: nat, m: nat)
    requires m > 0
    ensures 0 <= x % m <= x
  {
    if x < m {
      assert x % m == x;
    }
  }

  /** Byte k of a word, the lowest the first. */
  function ByteOf(x: nat, k: nat): nat {
    PowerPositive(k);
    x / Power256(k) % 256
  }

  /** What a store of n bytes of x0 gives: those bytes, and no others. */
  ghost predicate Stored(x0: Word, n: nat, data: Word) {
    forall k: nat :: k < 8 ==> StoredByte(x0, n, data, k)
  }

  predicate StoredByte(x0: Word, n: nat, data: Word, k: nat) {
    ByteOf(data as nat, k) == if k < n then ByteOf(x0 as nat, k) else 0
  }

  lemma Split(x: nat, p: nat)
    requires p > 0
    ensures 256 * p > 0
    ensures x / 256 / p == x / (256 * p)
    ensures x % (256 * p) % 256 == x % 256 && x % (256 * p) / 256 == x / 256 % p
  {
    var q, r := x / 256 / p, x / 256 % p;
    assert x / 256 == q * p + r;
    assert x == q * (256 * p) + (256 * r + x % 256);
    DivUnique(x, 256 * p, q, 256 * r + x % 256);
  }

  lemma {:induction false} NextByte(x: nat, k: nat)
    ensures ByteOf(x / 256, k) == ByteOf(x, k + 1)
  {
    PowerPositive(k);
    Split(x, Power256(k));
  }

  /** The low n bytes of a number, byte by byte. */
  lemma {:induction false} LowBytes(x: nat, n: nat, k: nat)
    ensures Power256(n) > 0 && ByteOf(x % Power256(n), k) == if k < n then ByteOf(x, k) else 0
  {
    PowerPositive(n);
    if n == 0 {
      ZeroBytes(k);
    } else {
      PowerPositive(n - 1);
      Split(x, Power256(n - 1));
      if k > 0 {
        LowBytes(x / 256, n - 1, k - 1);
        NextByte(x, k - 1);
        NextByte(x % Power256(n), k - 1);
      }
    }
  }

  lemma {:induction false} ZeroBytes(k: nat)
    ensures ByteOf(0, k) == 0
  {
    PowerPositive(k);
  }

  /** Numbers of n bytes that have the same are the same. */
  lemma {:induction false} SameBytes(x: nat, y: nat, n: nat)
    requires x < Power256(n) && y < Power256(n) && forall k: nat :: k < n ==> ByteOf(x, k) == ByteOf(y, k)
    ensures x == y
  {
    if n > 0 {
      forall k: nat | k < n - 1
        ensures ByteOf(x / 256, k) == ByteOf(y / 256, k)
      {
        NextByte(x, k);
        NextByte(y, k);
      }
      SameBytes(x / 256, y / 256, n - 1);
      assert ByteOf(x, 0) == x % 256 && ByteOf(y, 0) == y % 256;
    }
  }

  lemma EightBytes()
    ensures Power256(8) == TWO_64
  {
    assert Power256(4) == 0x1_0000_0000;
  }

  /** The mask leaves what such a store gives. */
  lemma MaskedBytes(x0: Word, n: nat, data: Word)
    ensures Masked(x0, n) == data <==> Stored(x0, n, data)
  {
    hide ByteOf, Power256;
    var m := Masked(x0, n);
    EightBytes();
    forall k: nat | k < 8
      ensures StoredByte(x0, n, m, k)
    {
      if n < 8 {
        LowBytes(x0 as nat, n, k);
      }
    }
    if Stored(x0, n, data) {
      var x: nat, y: nat := m as nat, data as nat;
      forall k: nat | k < 8
        ensures ByteOf(x, k) == ByteOf(y, k)
      {
        assert StoredByte(x0, n, data, k) && StoredByte(x0, n, m, k);
      }
      SameBytes(x, y, 8);
    }
  }

  /** A store of X0 gives its low bytes: all of it when of eight. */
  lemma StoredExact(x0: Word, n: nat, data: Word)
    ensures Stored(x0, 8, data) <==> data == x0
    ensures n < 8 ==> (Stored(x0, n, data) <==> Power256(n) > 0 && data as nat == x0 as nat % Power256(n))
  {
    MaskedBytes(x0, n, data);
    MaskedBytes(x0, 8, data);
    PowerPositive(n);
  }

  /** Whether X0 is what a store was of, or has been set since, after an event. */
  ghost function Known(known: bool, e: Event): bool {
    match e
    case Run(exit) => !exit.store || Stored(exit.x0, exit.n, exit.data)
    case SetX0(_) => true
    case _ => known
  }

  /** What a vCPU on KVM shows: the framework's, but a zero of an X0 that is not known. */
  ghost function Shown(f: Framework, known: bool, events: seq<Event>): seq<Seen>
    decreases |events|
  {
    if events == [] then []
    else
      [if events[0].GetX0? && !known then Value(0) else See(f, events[0])]
      + Shown(Step(f, events[0]), Known(known, events[0]), events[1..])
  }

  /** X0 is read only where it is known. */
  ghost predicate AsksKnown(known: bool, events: seq<Event>)
    decreases |events|
  {
    events == [] || ((events[0].GetX0? ==> known) && AsksKnown(Known(known, events[0]), events[1..]))
  }

  /** It is the framework's but for that: PC, and where a run goes on from, always. */
  lemma {:induction false} ShownIsTrace(f: Framework, known: bool, events: seq<Event>)
    ensures |Shown(f, known, events)| == |Trace(f, events)| == |events|
    ensures forall k :: 0 <= k < |events| && !events[k].GetX0? ==> Shown(f, known, events)[k] == Trace(f, events)[k]
    ensures AsksKnown(known, events) ==> Shown(f, known, events) == Trace(f, events)
    decreases |events|
  {
    if events != [] {
      hide Known, Step, See;
      ShownIsTrace(Step(f, events[0]), Known(known, events[0]), events[1..]);
      assert forall k :: 1 <= k < |events| ==> events[k] == events[1..][k - 1];
    }
  }

  // ----- KVM's machine behind it

  class VCpu {
    // KVM's
    var kvmPC: Word
    var kvmX0: Word
    var pending: bool      // an MMIO exit that the next run completes, adding 4

    // vcpuISA
    var mmio: bool
    var faultPC: Word
    var pcKnown: bool
    var pcSet: bool
    var newPC: Word
    var x0: Word

    ghost var shown: bool  // X0 is what was stored, or has been set since

    /** The framework's state that this vCPU stands for. */
    ghost function State(): Framework
      reads this
    {
      Framework(if mmio && pcSet then newPC else kvmPC, kvmX0)
    }

    ghost predicate Valid()
      reads this
    {
      && mmio == pending
      && (mmio && pcKnown ==> faultPC == kvmPC)
      && (mmio ==> x0 == if shown then kvmX0 else 0)
    }

    constructor (pc: Word, x0: Word)
      ensures Valid() && State() == Framework(pc, x0) && !mmio
    {
      kvmPC, kvmX0, pending := pc, x0, false;
      mmio, faultPC, pcKnown, pcSet, newPC, this.x0, shown := false, 0, false, false, 0, 0, false;
    }

    /** KVM_RUN: the completion of a pending store, then the guest from there. */
    method KvmRun(exit: Exit) returns (from: Word)
      modifies this`kvmPC, this`kvmX0, this`pending
      ensures from as int == if old(pending) then (old(kvmPC) as int + 4) % TWO_64 else old(kvmPC) as int
      ensures kvmPC == exit.pc && kvmX0 == exit.x0 && pending == exit.store
    {
      from := if pending then Plus(kvmPC, 4) else kvmPC;
      kvmPC, kvmX0, pending := exit.pc, exit.x0, exit.store;
    }

    /** storePC: the store's address, read once. */
    method StorePC() returns (pc: Word)
      requires Valid() && mmio
      modifies this`faultPC, this`pcKnown
      ensures pc == kvmPC && Valid()
    {
      if !pcKnown {
        faultPC, pcKnown := kvmPC, true;
      }
      pc := faultPC;
    }

    /** beforeRun: KVM's PC put so that what it adds brings it to the framework's. */
    method BeforeRun()
      requires Valid()
      modifies this`mmio, this`faultPC, this`pcKnown, this`kvmPC
      ensures (if pending then Plus(kvmPC, 4) else kvmPC) == old(State()).pc
    {
      if !mmio {
        return;
      }
      var pc := StorePC();
      mmio := false;
      if pcSet {
        if newPC == Plus(pc, 4) {
          return;
        }
        kvmPC := Plus(newPC, -4);
      } else {
        kvmPC := Plus(pc, -4);
      }
    }

    /** mmioExit: whether the store was of X0, as its syndrome says. */
    method MmioExit(exit: Exit) returns (isv: bool)
      requires mmio == false && pending && x0 == 0 && !pcKnown && !pcSet
      modifies this`mmio, this`x0, this`shown
      ensures Valid() && mmio && State() == Framework(kvmPC, kvmX0)
      ensures isv == shown == Stored(kvmX0, exit.n, exit.data)
      ensures isv ==> x0 == kvmX0
    {
      MaskedBytes(kvmX0, exit.n, exit.data);
      mmio, shown := true, false;
      if Masked(kvmX0, exit.n) != exit.data {
        return false;
      }
      x0, shown := kvmX0, true;
      isv := true;
    }

    /** VCPURun: from where the framework's would go on, whatever was set while a store was pending. */
    method VCPURun(exit: Exit) returns (from: Word)
      requires Valid()
      modifies this
      ensures Valid() && from == old(State()).pc && State() == Framework(exit.pc, exit.x0)
      ensures mmio == exit.store && (exit.store ==> shown == Stored(exit.x0, exit.n, exit.data))
    {
      BeforeRun();
      from := KvmRun(exit);
      mmio, faultPC, pcKnown, pcSet, newPC, x0 := false, 0, false, false, 0, 0;
      if exit.store {
        var isv := MmioExit(exit);
      }
    }

    method GetPC() returns (pc: Word)
      requires Valid()
      modifies this`faultPC, this`pcKnown
      ensures Valid() && pc == State().pc && State() == old(State())
    {
      if mmio {
        if pcSet {
          return newPC;
        }
        pc := StorePC();
        return;
      }
      pc := kvmPC;
    }

    method SetPC(pc: Word)
      requires Valid()
      modifies this`pcSet, this`newPC, this`kvmPC
      ensures Valid() && State() == old(State()).(pc := pc)
    {
      if mmio {
        pcSet, newPC := true, pc;
      } else {
        kvmPC := pc;
      }
    }

    /** X0 as it was at the exit: a store that was not of X0 leaves a zero in its place. */
    method GetX0() returns (v: Word)
      requires Valid()
      ensures v == if mmio && !shown then 0 else State().x0
    {
      v := if mmio then x0 else kvmX0;
    }

    method SetX0(v: Word)
      requires Valid()
      modifies this`x0, this`kvmX0, this`shown
      ensures Valid() && State() == old(State()).(x0 := v) && shown
    {
      if mmio {
        x0 := v;
      }
      kvmX0, shown := v, true;
    }

    /** X0 is known: nothing is pending, or what is was of it. */
    ghost predicate X0Known()
      reads this
    {
      mmio ==> shown
    }

    /** An event of a sequence, and what is seen of it. */
    method Do(e: Event) returns (seen: Seen)
      requires Valid()
      modifies this
      ensures Valid() && State() == Step(old(State()), e) && X0Known() == Known(old(X0Known()), e)
      ensures seen == if e.GetX0? && !old(X0Known()) then Value(0) else See(old(State()), e)
    {
      seen := Nothing;
      match e
      case Run(exit) =>
        var from := VCPURun(exit);
        seen := From(from);
      case GetPC =>
        var pc := GetPC();
        seen := Value(pc);
      case SetPC(pc) => SetPC(pc);
      case GetX0 =>
        var v := GetX0();
        seen := Value(v);
      case SetX0(v) => SetX0(v);
    }
  }

  /** The vCPU on KVM and the framework's show the same of every sequence of events: of runs and of gets
      and sets of PC always, and of X0 where it is known. */
  method Drive(pc: Word, x0: Word, events: seq<Event>) returns (seen: seq<Seen>)
    ensures seen == Shown(Framework(pc, x0), true, events)
    ensures |seen| == |events| == |Trace(Framework(pc, x0), events)|
    ensures forall k :: 0 <= k < |events| && !events[k].GetX0? ==> seen[k] == Trace(Framework(pc, x0), events)[k]
    ensures AsksKnown(true, events) ==> seen == Trace(Framework(pc, x0), events)
  {
    hide Known, See, Step;
    var c := new VCpu(pc, x0);
    seen := [];
    for i := 0 to |events|
      invariant c.Valid() && fresh(c)
      invariant seen + Shown(c.State(), c.X0Known(), events[i..]) == Shown(Framework(pc, x0), true, events)
    {
      assert events[i..][1..] == events[i + 1..];
      var one := c.Do(events[i]);
      seen := seen + [one];
    }
    ShownIsTrace(Framework(pc, x0), true, events);
  }
}
