/** The monitor's system-call filter: a compiler from two lists to a classic BPF program
    (filter of vmm/seccomp_linux.go), and what the kernel makes of such a program.
 */
module Seccomp {
  import opened Wrappers

  const RET_KILL_PROCESS: nat := 0x8000_0000
  const RET_ALLOW: nat := 0x7fff_0000

  const LD_W_ABS: nat := 0x20
  const JEQ_K: nat := 0x15
  const RET_K: nat := 0x06

  const OFF_NR: nat := 0
  const OFF_ARCH: nat := 4
  const OFF_ARG1: nat := 24

  datatype SockFilter = SockFilter(code: nat, jt: nat, jf: nat, k: nat)

  // ----- the kernel's side

  type Word32 = x: nat | x < 0x1_0000_0000
  type Word64 = x: nat | x < 0x1_0000_0000_0000_0000

  /** A call as the kernel shows it to a filter. */
  datatype Call = Call(nr: Word32, arch: Word32, ip: Word64, args: seq<Word64>)

  function Half(v: Word64, high: bool): Word32 {
    if high then v / 0x1_0000_0000 else v % 0x1_0000_0000
  }

  /** The 64 bytes of struct seccomp_data as words, of a little-endian machine: the number, the machine, the
      instruction pointer and six arguments. */
  function Data(call: Call): (r: seq<Word32>)
    ensures |r| == 16
  {
    [call.nr, call.arch, Half(call.ip, false), Half(call.ip, true)]
    + Argument(call, 0) + Argument(call, 1) + Argument(call, 2)
    + Argument(call, 3) + Argument(call, 4) + Argument(call, 5)
  }

  function Argument(call: Call, i: nat): (r: seq<Word32>)
    ensures |r| == 2
  {
    if i < |call.args| then [Half(call.args[i], false), Half(call.args[i], true)] else [0, 0]
  }

  /** A word of it, at an offset that is aligned and inside. */
  function Load(call: Call, offset: nat): Option<nat> {
    if offset % 4 == 0 && offset < 64 then Some(Data(call)[offset / 4]) else None
  }

  /** The low half of the second argument: what ioctl takes its request from. */
  function Request(call: Call): nat {
    if |call.args| > 1 then call.args[1] % 0x1_0000_0000 else 0
  }

  lemma Loads(call: Call)
    ensures Load(call, OFF_NR) == Some(call.nr) && Load(call, OFF_ARCH) == Some(call.arch)
    ensures Load(call, OFF_ARG1) == Some(Request(call))
  {
    var six := Argument(call, 0);
    assert Data(call)[6] == Argument(call, 1)[0];
  }

  /** The program run from instruction pc, the accumulator a: what it returns, if it does. */
  function Run(p: seq<SockFilter>, call: Call, pc: nat, a: nat): Option<nat>
    decreases |p| - pc
  {
    if pc >= |p| then None
    else
      var i := p[pc];
      if i.code == LD_W_ABS then
        match Load(call, i.k)
        case None => None
        case Some(word) => Run(p, call, pc + 1, word)
      else if i.code == JEQ_K then Run(p, call, pc + 1 + if a == i.k then i.jt else i.jf, a)
      else if i.code == RET_K then Some(i.k)
      else None
  }

  const BPF_MAXINSNS: nat := 4096

  /** What the kernel takes for a program: it is not too long, loads words of the call, jumps forward and inside, and
      ends in a return. */
  ghost predicate Loadable(p: seq<SockFilter>) {
    && 0 < |p| <= BPF_MAXINSNS && p[|p| - 1].code == RET_K
    && forall pc :: 0 <= pc < |p| ==> Sound(p[pc], |p| - pc)
  }

  /** An instruction with so many from it to the end. */
  predicate Sound(i: SockFilter, left: nat) {
    && i.jt < 256 && i.jf < 256
    && (i.code == LD_W_ABS ==> i.k % 4 == 0 && i.k < 64)
    && (i.code == JEQ_K ==> 1 + i.jt < left && 1 + i.jf < left)
    && (i.code == LD_W_ABS || i.code == JEQ_K || i.code == RET_K)
  }

  // ----- what the filter is for

  /** The lists of one machine. */
  datatype Lists = Lists(auditArch: Word32, allowed: seq<Word32>, sysIoctl: Word32, requests: seq<Word32>)

  /** Another machine's call kills; a call on the list goes, and an ioctl of a request on its list; any
      other is denied. */
  function Verdict(l: Lists, deny: nat, call: Call): nat {
    if call.arch != l.auditArch then RET_KILL_PROCESS
    else if call.nr in l.allowed then RET_ALLOW
    else if call.nr == l.sysIoctl && Request(call) in l.requests then RET_ALLOW
    else deny
  }

  // ----- the compiler

  function Pair(k: nat): seq<SockFilter> {
    [SockFilter(JEQ_K, 0, 1, k), SockFilter(RET_K, 0, 0, RET_ALLOW)]
  }

  function Pairs(ks: seq<nat>): (r: seq<SockFilter>)
    ensures |r| == 2 * |ks|
  {
    if ks == [] then [] else Pairs(ks[..|ks| - 1]) + Pair(ks[|ks| - 1])
  }

  function Head(l: Lists): seq<SockFilter> {
    [SockFilter(LD_W_ABS, 0, 0, OFF_ARCH),
     SockFilter(JEQ_K, 1, 0, l.auditArch),
     SockFilter(RET_K, 0, 0, RET_KILL_PROCESS),
     SockFilter(LD_W_ABS, 0, 0, OFF_NR)]
  }

  /** The test for an ioctl: its jump past the requests, in 8 bits. */
  function Ioctl(l: Lists): seq<SockFilter> {
    [SockFilter(JEQ_K, 0, (2 * |l.requests| + 1) % 256, l.sysIoctl), SockFilter(LD_W_ABS, 0, 0, OFF_ARG1)]
  }

  function Program(l: Lists, deny: nat): seq<SockFilter> {
    Head(l) + Pairs(l.allowed) + Ioctl(l) + Pairs(l.requests) + [SockFilter(RET_K, 0, 0, deny)]
  }

  // ----- what a part of the program does, wherever it is

  predicate Holds(p: seq<SockFilter>, at: nat, part: seq<SockFilter>) {
    at + |part| <= |p| && p[at..at + |part|] == part
  }

  lemma HoldsAt(p: seq<SockFilter>, at: nat, part: seq<SockFilter>, k: nat)
    requires Holds(p, at, part) && k < |part|
    ensures p[at + k] == part[k]
  {
    assert p[at..at + |part|][k] == p[at + k];
  }

  /** A list's pairs from the m-th on let an accumulator that is one of the rest of the list go, and pass any
      other on. */
  lemma {:induction false} RunFrom(p: seq<SockFilter>, at: nat, ks: seq<nat>, m: nat, call: Call, a: nat)
    requires Holds(p, at, Pairs(ks)) && m <= |ks|
    ensures Run(p, call, at + 2 * m, a) == if a in ks[m..] then Some(RET_ALLOW) else Run(p, call, at + 2 * |ks|, a)
  {
    if m < |ks| {
      var n := |ks| - 1;
      PairsHold(p, at, ks);
      RunFrom(p, at, ks[..n], m, call, a);
      LastPair(p, at + 2 * n, ks[n], call, a);
      assert ks[m..] == ks[..n][m..] + [ks[n]];
    }
  }

  /** A list's pairs are those before its last, and that one's. */
  lemma {:induction false} PairsHold(p: seq<SockFilter>, at: nat, ks: seq<nat>)
    requires Holds(p, at, Pairs(ks)) && ks != []
    ensures var n := |ks| - 1; Holds(p, at, Pairs(ks[..n])) && Holds(p, at + 2 * n, Pair(ks[n]))
  {
    hide Holds, Pair;
    HoldsPart(p, at, Pairs(ks[..|ks| - 1]), Pair(ks[|ks| - 1]));
  }

  lemma HoldsPart(p: seq<SockFilter>, at: nat, a: seq<SockFilter>, b: seq<SockFilter>)
    requires Holds(p, at, a + b)
    ensures Holds(p, at, a) && Holds(p, at + |a|, b)
  {
    var whole := p[at..at + |a + b|];
    assert whole[..|a|] == a && whole[|a|..] == b;
  }

  lemma LastPair(p: seq<SockFilter>, at: nat, k: nat, call: Call, a: nat)
    requires Holds(p, at, Pair(k))
    ensures Run(p, call, at, a) == if a == k then Some(RET_ALLOW) else Run(p, call, at + 2, a)
  {
    HoldsAt(p, at, Pair(k), 0);
    HoldsAt(p, at, Pair(k), 1);
  }

  /** Pairs let an accumulator that is one of theirs go, and pass any other on. */
  lemma RunPairs(p: seq<SockFilter>, at: nat, ks: seq<nat>, call: Call, a: nat)
    requires Holds(p, at, Pairs(ks))
    ensures Run(p, call, at, a) == if a in ks then Some(RET_ALLOW) else Run(p, call, at + 2 * |ks|, a)
  {
    hide Run, Holds, Pairs;
    RunFrom(p, at, ks, 0, call, a);
    assert ks[0..] == ks;
  }

  function IoctlAt(l: Lists): nat {
    4 + 2 * |l.allowed|
  }

  lemma Parts(l: Lists, deny: nat)
    ensures var p := Program(l, deny);
            && |p| == IoctlAt(l) + 2 + 2 * |l.requests| + 1
            && Holds(p, 0, Head(l)) && Holds(p, 4, Pairs(l.allowed)) && Holds(p, IoctlAt(l), Ioctl(l))
            && Holds(p, IoctlAt(l) + 2, Pairs(l.requests)) && p[|p| - 1] == SockFilter(RET_K, 0, 0, deny)
  {
    var p := Program(l, deny);
    var a, b, c := Head(l), Pairs(l.allowed), Ioctl(l);
    var d := Pairs(l.requests);
    assert p == a + b + c + d + [SockFilter(RET_K, 0, 0, deny)];
    assert p[0..4] == a && p[4..4 + |b|] == b && p[IoctlAt(l)..IoctlAt(l) + 2] == c;
    assert p[IoctlAt(l) + 2..IoctlAt(l) + 2 + |d|] == d;
  }

  /** What the program comes to: a call that is not an ioctl jumps past the requests, but for as many as
      its 8 bits leave out. */
  function Outcome(l: Lists, deny: nat, call: Call): nat {
    if call.arch != l.auditArch then RET_KILL_PROCESS
    else if call.nr in l.allowed then RET_ALLOW
    else if call.nr == l.sysIoctl then if Request(call) in l.requests then RET_ALLOW else deny
    else if call.nr in l.requests[|l.requests| % 128..] then RET_ALLOW
    else deny
  }

  lemma RunsTo(l: Lists, deny: nat, call: Call)
    ensures Run(Program(l, deny), call, 0, 0) == Some(Outcome(l, deny, call))
  {
    var p := Program(l, deny);
    Parts(l, deny);
    Loads(call);
    hide Load;
    HoldsAt(p, 0, Head(l), 0);
    HoldsAt(p, 0, Head(l), 1);
    HoldsAt(p, 0, Head(l), 2);
    HoldsAt(p, 0, Head(l), 3);
    assert Run(p, call, 0, 0) == Run(p, call, 1, call.arch);
    if call.arch == l.auditArch {
      assert Run(p, call, 1, call.arch) == Run(p, call, 3, call.arch);
      assert Run(p, call, 3, call.arch) == Run(p, call, 4, call.nr);
      RunPairs(p, 4, l.allowed, call, call.nr);
      if call.nr !in l.allowed {
        RunIoctl(l, deny, call);
      }
    } else {
      assert Run(p, call, 1, call.arch) == Run(p, call, 2, call.arch);
    }
  }

  /** A list's pairs from the m-th on, and after them the last return. */
  lemma RestReturns(p: seq<SockFilter>, at: nat, ks: seq<nat>, m: nat, call: Call, a: nat, deny: nat)
    requires Holds(p, at, Pairs(ks)) && m <= |ks|
    requires |p| == at + 2 * |ks| + 1 && p[|p| - 1] == SockFilter(RET_K, 0, 0, deny)
    ensures Run(p, call, at + 2 * m, a) == Some(if a in ks[m..] then RET_ALLOW else deny)
  {
    hide Holds, Pairs;
    RunFrom(p, at, ks, m, call, a);
  }

  lemma RunIoctl(l: Lists, deny: nat, call: Call)
    requires call.arch == l.auditArch && call.nr !in l.allowed
    ensures Run(Program(l, deny), call, IoctlAt(l), call.nr) == Some(Outcome(l, deny, call))
  {
    hide Program, Pairs, Holds, Run;
    var p, at, ks := Program(l, deny), IoctlAt(l) + 2, l.requests;
    Parts(l, deny);
    IoctlGoes(p, l, call);
    if call.nr == l.sysIoctl {
      RestReturns(p, at, ks, 0, call, Request(call), deny);
      assert ks[0..] == ks;
    } else {
      RestReturns(p, at, ks, |ks| % 128, call, call.nr, deny);
    }
  }

  lemma JumpBits(n: nat)
    ensures (2 * n + 1) % 256 == 2 * (n % 128) + 1
  {
  }

  /** The test for an ioctl: to its request, or past as many of the requests as the jump's 8 bits say. */
  lemma IoctlGoes(p: seq<SockFilter>, l: Lists, call: Call)
    requires Holds(p, IoctlAt(l), Ioctl(l))
    ensures var at := IoctlAt(l);
            Run(p, call, at, call.nr) ==
            if call.nr == l.sysIoctl then Run(p, call, at + 2, Request(call))
            else Run(p, call, at + 2 + 2 * (|l.requests| % 128), call.nr)
  {
    hide Holds, Load;
    var at := IoctlAt(l);
    Loads(call);
    HoldsAt(p, at, Ioctl(l), 0);
    HoldsAt(p, at, Ioctl(l), 1);
    JumpBits(|l.requests|);
    if call.nr == l.sysIoctl {
      assert Run(p, call, at, call.nr) == Run(p, call, at + 1, call.nr);
    }
  }

  // ----- the filter is right

  /** The requests that the jump leaves out do no harm: each is the number of a call that is let go anyway. */
  predicate Harmless(l: Lists, deny: nat) {
    deny == RET_ALLOW || forall k :: k in l.requests[|l.requests| % 128..] ==> k in l.allowed || k == l.sysIoctl
  }

  /** The program's verdicts are the filter's exactly when those requests do no harm. */
  lemma FilterExact(l: Lists, deny: nat)
    ensures (forall call :: Run(Program(l, deny), call, 0, 0) == Some(Verdict(l, deny, call))) <==> Harmless(l, deny)
  {
    hide Program;
    var rest := l.requests[|l.requests| % 128..];
    forall call
      ensures Run(Program(l, deny), call, 0, 0) == Some(Outcome(l, deny, call))
    {
      RunsTo(l, deny, call);
    }
    if !Harmless(l, deny) {
      var k :| k in rest && k !in l.allowed && k != l.sysIoctl;
      var call := Call(k, l.auditArch, 0, []);
      assert Run(Program(l, deny), call, 0, 0) == Some(RET_ALLOW);
      assert Verdict(l, deny, call) == deny;
    } else {
      forall call
        ensures Outcome(l, deny, call) == Verdict(l, deny, call)
      {
      }
    }
  }

  /** With 128 requests, TCGETS each, and nothing allowed, the call of that number is let go. */
  lemma OneTooMany(deny: nat)
    requires deny != RET_ALLOW
    ensures var l := Lists(0xc000_003e, [], 16, seq(128, i => 0x5401));
            var call := Call(0x5401, l.auditArch, 0, []);
            Run(Program(l, deny), call, 0, 0) == Some(RET_ALLOW) && Verdict(l, deny, call) == deny
  {
    var l := Lists(0xc000_003e, [], 16, seq(128, i => 0x5401));
    RunsTo(l, deny, Call(0x5401, l.auditArch, 0, []));
    assert l.requests[128 % 128..][0] == 0x5401;
  }

  /** Of at most 127 requests the jump leaves none out. */
  lemma FewHarmless(l: Lists, deny: nat)
    requires |l.requests| <= 127
    ensures Harmless(l, deny)
  {
    assert l.requests[|l.requests|..] == [];
  }

  lemma {:induction false} PairsSound(ks: seq<nat>, k: nat, left: nat)
    requires k < 2 * |ks| && left > 2 * |ks| - k
    ensures Sound(Pairs(ks)[k], left)
  {
    var n := |ks| - 1;
    if k < 2 * n {
      PairsSound(ks[..n], k, left);
    }
  }

  lemma SoundAt(l: Lists, deny: nat, pc: nat)
    requires pc < |Program(l, deny)|
    ensures Sound(Program(l, deny)[pc], |Program(l, deny)| - pc)
  {
    var p := Program(l, deny);
    var at := IoctlAt(l);
    Parts(l, deny);
    hide Program, Pairs;
    if pc < 4 {
      HoldsAt(p, 0, Head(l), pc);
    } else if pc < at {
      HoldsAt(p, 4, Pairs(l.allowed), pc - 4);
      PairsSound(l.allowed, pc - 4, |p| - pc);
    } else if pc < at + 2 {
      HoldsAt(p, at, Ioctl(l), pc - at);
    } else if pc < |p| - 1 {
      HoldsAt(p, at + 2, Pairs(l.requests), pc - at - 2);
      PairsSound(l.requests, pc - at - 2, |p| - pc);
    }
  }

  /** The kernel takes the program, if it is not too long. */
  lemma ProgramLoadable(l: Lists, deny: nat)
    ensures Loadable(Program(l, deny)) <==> 2 * (|l.allowed| + |l.requests|) + 7 <= BPF_MAXINSNS
  {
    Parts(l, deny);
    hide Program, Sound;
    forall pc | 0 <= pc < |Program(l, deny)|
      ensures Sound(Program(l, deny)[pc], |Program(l, deny)| - pc)
    {
      SoundAt(l, deny, pc);
    }
  }

  /** filter. */
  method Filter(l: Lists, deny: nat) returns (p: seq<SockFilter>)
    ensures p == Program(l, deny)
    ensures Harmless(l, deny) <==> forall call :: Run(p, call, 0, 0) == Some(Verdict(l, deny, call))
    ensures |l.requests| <= 127 ==> forall call :: Run(p, call, 0, 0) == Some(Verdict(l, deny, call))
    ensures Loadable(p) <==> 2 * (|l.allowed| + |l.requests|) + 7 <= BPF_MAXINSNS
  {
    hide Harmless, Loadable;
    p := [SockFilter(LD_W_ABS, 0, 0, OFF_ARCH),
          SockFilter(JEQ_K, 1, 0, l.auditArch),
          SockFilter(RET_K, 0, 0, RET_KILL_PROCESS),
          SockFilter(LD_W_ABS, 0, 0, OFF_NR)];
    for i := 0 to |l.allowed|
      invariant p == Head(l) + Pairs(l.allowed[..i])
    {
      p := p + [SockFilter(JEQ_K, 0, 1, l.allowed[i]), SockFilter(RET_K, 0, 0, RET_ALLOW)];
      assert l.allowed[..i + 1][..i] == l.allowed[..i];
    }
    assert l.allowed[..|l.allowed|] == l.allowed;
    p := p + [SockFilter(JEQ_K, 0, (2 * |l.requests| + 1) % 256, l.sysIoctl), SockFilter(LD_W_ABS, 0, 0, OFF_ARG1)];
    ghost var before := p;
    for i := 0 to |l.requests|
      invariant p == before + Pairs(l.requests[..i])
    {
      p := p + [SockFilter(JEQ_K, 0, 1, l.requests[i]), SockFilter(RET_K, 0, 0, RET_ALLOW)];
      assert l.requests[..i + 1][..i] == l.requests[..i];
    }
    assert l.requests[..|l.requests|] == l.requests;
    p := p + [SockFilter(RET_K, 0, 0, deny)];
    FilterExact(l, deny);
    ProgramLoadable(l, deny);
    if |l.requests| <= 127 {
      FewHarmless(l, deny);
    }
  }
}
