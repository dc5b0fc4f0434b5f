/** A loop over a range run in chunks, on goroutines (editor/chunks.go). */
module Chunks {
  import opened Wrappers

  const CHUNK_LEAST: int := 64

  function Max(a: int, b: int): int {
    if a > b then a else b
  }

  function Min(a: int, b: int): int {
    if a < b then a else b
  }

  datatype Chunk = Chunk(from: nat, to: nat)

  /** Chunks that are not empty, each from where the last ends, from 0 to n. */
  predicate Partition(chunks: seq<Chunk>, n: nat) {
    && |chunks| > 0 && chunks[0].from == 0 && chunks[|chunks| - 1].to == n
    && (forall c :: 0 <= c < |chunks| ==> chunks[c].from < chunks[c].to)
    && (forall c :: 0 <= c < |chunks| - 1 ==> chunks[c].to == chunks[c + 1].from)
  }

  lemma Quotient(n: nat, d: nat, size: nat)
    requires d > 0 && size >= (n + d - 1) / d
    ensures size * d >= n
  {
    var q := (n + d - 1) / d;
    assert q * d + (n + d - 1) % d == n + d - 1;
    assert size * d >= q * d by {
      assert (size - q) * d >= 0;
    }
  }

  lemma Fewer(k: nat, m: nat, size: nat)
    requires k * size < m * size
    ensures k < m
  {
    assert k >= m ==> (k - m) * size >= 0;
  }

  /** The chunks of a range: at most four for each processor, none smaller than the least but the last. */
  method Cut(n: int, procs: nat) returns (chunks: seq<Chunk>)
    requires procs > 0
    ensures n > 0 ==> Partition(chunks, n)
    ensures n <= 0 ==> chunks == [Chunk(0, 0)]
    ensures 1 <= |chunks| <= 4 * procs
    ensures forall c :: 0 <= c < |chunks| - 1 ==> chunks[c].to - chunks[c].from >= CHUNK_LEAST
  {
    var size := Max(CHUNK_LEAST, (n + 4 * procs - 1) / (4 * procs));
    if size >= n {
      return [Chunk(0, Max(n, 0))];
    }
    Quotient(n, 4 * procs, size);
    var from := 0;
    chunks := [];
    while from < n
      invariant from == |chunks| * size
      invariant from > 0 ==> Partition(chunks, Min(n, from)) && |chunks| <= 4 * procs
      invariant forall c :: 0 <= c < |chunks| && (c < |chunks| - 1 || from <= n) ==> chunks[c].to - chunks[c].from >= CHUNK_LEAST
      decreases n - from
    {
      assert |chunks| * size < (4 * procs) * size;
      Fewer(|chunks|, 4 * procs, size);
      assert (|chunks| + 1) * size == |chunks| * size + size;
      chunks := chunks + [Chunk(from, Min(n, from + size))];
      from := from + size;
    }
  }

  lemma {:induction false} Ordered(chunks: seq<Chunk>, n: nat, c: nat, d: nat)
    requires Partition(chunks, n) && c < d < |chunks|
    ensures chunks[c].to <= chunks[d].from
  {
    if c < d - 1 {
      Ordered(chunks, n, c, d - 1);
      assert chunks[d - 1].to == chunks[d - 1 + 1].from;
    } else {
      assert chunks[c].to == chunks[c + 1].from;
    }
  }

  lemma {:induction false} Inside(chunks: seq<Chunk>, n: nat, c: nat)
    requires Partition(chunks, n) && c < |chunks|
    ensures chunks[c].to <= n
  {
    if c < |chunks| - 1 {
      Ordered(chunks, n, c, |chunks| - 1);
    }
  }

  /** Every index is some chunk's. */
  lemma {:induction false} Covers(chunks: seq<Chunk>, n: nat, i: nat, k: nat)
    requires Partition(chunks, n) && k < |chunks| && i < chunks[k].to
    ensures exists c :: 0 <= c < |chunks| && chunks[c].from <= i < chunks[c].to
  {
    if i < chunks[k].from {
      assert k > 0 && chunks[k - 1].to == chunks[k - 1 + 1].from;
      Covers(chunks, n, i, k - 1);
    }
  }

  // ----- the goroutines

  /** Where a chunk's goroutine is: to load the flag, at an index of its work, to set the flag, or done. */
  datatype Pc = Start | Working(i: nat) | Fails | Ended

  datatype State = State(failed: bool, pcs: seq<Pc>, done: multiset<nat>)

  /** The whole work, as the loop does it. */
  function Work(p: nat -> bool, from: nat, to: nat): bool
    decreases if from < to then to - from else 0
  {
    from >= to || (p(from) && Work(p, from + 1, to))
  }

  lemma {:induction false} WorkAll(p: nat -> bool, from: nat, to: nat)
    ensures Work(p, from, to) <==> (forall i :: from <= i < to ==> p(i))
    decreases if from < to then to - from else 0
  {
    if from < to {
      WorkAll(p, from + 1, to);
    }
  }

  /** A step of chunk c's goroutine. */
  function Step(p: nat -> bool, chunks: seq<Chunk>, s: State, c: nat): Option<State>
    requires |s.pcs| == |chunks|
  {
    if c >= |chunks| then None
    else
      match s.pcs[c]
      case Start => Some(s.(pcs := s.pcs[c := if s.failed then Fails else Working(chunks[c].from)]))
      case Working(i) =>
        if i >= chunks[c].to then Some(s.(pcs := s.pcs[c := Ended]))
        else Some(s.(done := s.done + multiset{i}, pcs := s.pcs[c := if p(i) then Working(i + 1) else Fails]))
      case Fails => Some(s.(failed := true, pcs := s.pcs[c := Ended]))
      case Ended => None
  }

  function Init(chunks: seq<Chunk>): (s: State)
    ensures |s.pcs| == |chunks|
  {
    State(false, seq(|chunks|, c => Start), multiset{})
  }

  /** A schedule: which goroutine takes each step. */
  function Exec(p: nat -> bool, chunks: seq<Chunk>, s: State, schedule: seq<nat>): Option<State>
    requires |s.pcs| == |chunks|
    ensures Exec(p, chunks, s, schedule).Some? ==> |Exec(p, chunks, s, schedule).value.pcs| == |chunks|
  {
    if schedule == [] then Some(s)
    else
      match Exec(p, chunks, s, schedule[..|schedule| - 1])
      case None => None
      case Some(s') => Step(p, chunks, s', schedule[|schedule| - 1])
  }

  /** How far chunk c's indices have been done: each once, as far as its goroutine is. */
  ghost predicate DoneTo(p: nat -> bool, done: multiset<nat>, from: nat, at: nat, to: nat)
  {
    && (forall i :: from <= i < at ==> done[i] == 1 && p(i))
    && (forall i :: at <= i < to ==> done[i] == 0)
  }

  ghost predicate ChunkGood(p: nat -> bool, chunks: seq<Chunk>, s: State, c: nat)
    requires c < |chunks| == |s.pcs|
  {
    match s.pcs[c]
    case Start => DoneTo(p, s.done, chunks[c].from, chunks[c].from, chunks[c].to)
    case Working(i) => chunks[c].from <= i <= chunks[c].to && DoneTo(p, s.done, chunks[c].from, i, chunks[c].to)
    case Fails => true
    case Ended => s.failed || DoneTo(p, s.done, chunks[c].from, chunks[c].to, chunks[c].to)
  }

  ghost predicate SomeFalse(p: nat -> bool, n: nat) {
    exists i: nat :: i < n && !p(i)
  }

  ghost predicate Inv(p: nat -> bool, chunks: seq<Chunk>, n: nat, s: State) {
    && Partition(chunks, n) && |s.pcs| == |chunks|
    && (forall c :: 0 <= c < |chunks| ==> chunks[c].to <= n)
    && (forall c :: 0 <= c < |chunks| ==> ChunkGood(p, chunks, s, c))
    && (s.failed ==> SomeFalse(p, n))
    && (forall c :: 0 <= c < |chunks| && s.pcs[c].Fails? ==> SomeFalse(p, n))
  }

  lemma StepKeeps(p: nat -> bool, chunks: seq<Chunk>, n: nat, s: State, c: nat, s': State)
    requires Inv(p, chunks, n, s) && Step(p, chunks, s, c) == Some(s')
    ensures Inv(p, chunks, n, s')
  {
    assert ChunkGood(p, chunks, s, c);
    forall d | 0 <= d < |chunks|
      ensures ChunkGood(p, chunks, s', d)
    {
      assert ChunkGood(p, chunks, s, d);
      if d < c {
        Ordered(chunks, n, d, c);
      } else if c < d {
        Ordered(chunks, n, c, d);
      }
    }
    if s'.pcs[c].Fails? && !s.failed {
      assert !p(s.pcs[c].i);
    }
  }

  lemma {:induction false} RunKeeps(p: nat -> bool, chunks: seq<Chunk>, n: nat, schedule: seq<nat>, s: State)
    requires Partition(chunks, n)
    requires Exec(p, chunks, Init(chunks), schedule) == Some(s)
    ensures Inv(p, chunks, n, s)
  {
    if schedule == [] {
      forall c | 0 <= c < |chunks|
        ensures chunks[c].to <= n
      {
        Inside(chunks, n, c);
      }
    } else {
      var last := |schedule| - 1;
      var before := Exec(p, chunks, Init(chunks), schedule[..last]).value;
      RunKeeps(p, chunks, n, schedule[..last], before);
      StepKeeps(p, chunks, n, before, schedule[last], s);
    }
  }

  /** However the goroutines' steps fall, when all have ended the answer is the loop's, and of a true one
      every index has been done exactly once. */
  lemma AnySchedule(p: nat -> bool, chunks: seq<Chunk>, n: nat, schedule: seq<nat>, s: State)
    requires Partition(chunks, n)
    requires Exec(p, chunks, Init(chunks), schedule) == Some(s)
    requires forall c :: 0 <= c < |s.pcs| ==> s.pcs[c].Ended?
    ensures !s.failed == Work(p, 0, n)
    ensures !s.failed ==> forall i :: 0 <= i < n ==> s.done[i] == 1
  {
    RunKeeps(p, chunks, n, schedule, s);
    WorkAll(p, 0, n);
    if !s.failed {
      forall i | 0 <= i < n
        ensures s.done[i] == 1 && p(i)
      {
        Covers(chunks, n, i, |chunks| - 1);
        var c :| 0 <= c < |chunks| && chunks[c].from <= i < chunks[c].to;
        assert ChunkGood(p, chunks, s, c);
      }
    }
  }

  // ----- they all end

  /** The steps that chunk c's goroutine still has, at most. */
  function StepsLeft(chunks: seq<Chunk>, pc: Pc, c: nat): nat
    requires c < |chunks|
  {
    match pc
    case Start => (if chunks[c].from < chunks[c].to then chunks[c].to - chunks[c].from else 0) + 3
    case Working(i) => (if i < chunks[c].to then chunks[c].to - i else 0) + 2
    case Fails => 1
    case Ended => 0
  }

  function AllLeft(chunks: seq<Chunk>, pcs: seq<Pc>): nat
    requires |pcs| <= |chunks|
  {
    if pcs == [] then 0 else AllLeft(chunks, pcs[..|pcs| - 1]) + StepsLeft(chunks, pcs[|pcs| - 1], |pcs| - 1)
  }

  lemma {:induction false} LeftPut(chunks: seq<Chunk>, pcs: seq<Pc>, c: nat, pc: Pc)
    requires c < |pcs| <= |chunks|
    ensures AllLeft(chunks, pcs[c := pc]) + StepsLeft(chunks, pcs[c], c) == AllLeft(chunks, pcs) + StepsLeft(chunks, pc, c)
  {
    hide StepsLeft;
    var last := |pcs| - 1;
    if c == last {
      assert pcs[c := pc][..last] == pcs[..last];
    } else {
      LeftPut(chunks, pcs[..last], c, pc);
      assert pcs[c := pc][..last] == pcs[..last][c := pc];
    }
  }

  /** No schedule is longer than the steps there are at first; and while a goroutine has not ended it can step. */
  lemma {:induction false} SchedulesEnd(p: nat -> bool, chunks: seq<Chunk>, schedule: seq<nat>, s: State)
    requires Exec(p, chunks, Init(chunks), schedule) == Some(s)
    ensures |schedule| + AllLeft(chunks, s.pcs) <= AllLeft(chunks, Init(chunks).pcs)
    ensures forall c :: 0 <= c < |s.pcs| && !s.pcs[c].Ended? ==> Step(p, chunks, s, c).Some?
  {
    if schedule != [] {
      var last := |schedule| - 1;
      var before := Exec(p, chunks, Init(chunks), schedule[..last]).value;
      hide Step, Init;
      SchedulesEnd(p, chunks, schedule[..last], before);
      StepNears(p, chunks, before, schedule[last], s);
    }
    CanGo(p, chunks, s);
  }

  lemma StepNears(p: nat -> bool, chunks: seq<Chunk>, s: State, c: nat, s': State)
    requires |s.pcs| == |chunks| && Step(p, chunks, s, c) == Some(s')
    ensures |s'.pcs| == |chunks| && AllLeft(chunks, s'.pcs) < AllLeft(chunks, s.pcs)
  {
    hide AllLeft;
    LeftPut(chunks, s.pcs, c, s'.pcs[c]);
    assert s'.pcs == s.pcs[c := s'.pcs[c]];
  }

  lemma CanGo(p: nat -> bool, chunks: seq<Chunk>, s: State)
    requires |s.pcs| == |chunks|
    ensures forall c :: 0 <= c < |s.pcs| && !s.pcs[c].Ended? ==> Step(p, chunks, s, c).Some?
  {
  }
}
